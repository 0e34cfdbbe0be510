/**
 * The event channel above the encrypted frames: messages with a header block and
 * a body of the announced length, extracted from a growing plain buffer.
 *
 * len reads the body length out of a header block (section 4.4 of RFC 2326); it
 * is a parameter. Lengths are naturals, so a size that would wrap size_t is not
 * part of this model.
 */
module EventStream {
  import opened Common
  import opened FrameCipher

  const TERMINATOR: Bytes := [13, 10, 13, 10]

  predicate EndsAt(s: Bytes, i: nat) { i + 4 <= |s| && s[i..i+4] == TERMINATOR }

  /** string::find: the first terminator at or after i. */
  function FindFrom(s: Bytes, i: nat): Option<nat>
    decreases |s| - i
  {
    if i + 4 > |s| then None else if EndsAt(s, i) then Some(i) else FindFrom(s, i + 1)
  }

  function HeaderEnd(s: Bytes): Option<nat> { FindFrom(s, 0) }

  lemma {:induction false} FindFromIsFirst(s: Bytes, i: nat)
    ensures FindFrom(s, i).None? ==> forall j: nat :: i <= j ==> !EndsAt(s, j)
    ensures FindFrom(s, i).Some? ==>
      var e := FindFrom(s, i).value; i <= e && EndsAt(s, e) && forall j: nat :: i <= j < e ==> !EndsAt(s, j)
    decreases |s| - i
  {
    if i + 4 <= |s| && !EndsAt(s, i) { FindFromIsFirst(s, i + 1); }
  }

  /** A header end found in a prefix is the header end of every extension. */
  lemma HeaderEndIsStable(s: Bytes, more: Bytes)
    requires HeaderEnd(s).Some?
    ensures HeaderEnd(s + more) == HeaderEnd(s)
    ensures HeaderEnd(s).value + 4 <= |s|
    ensures (s + more)[..HeaderEnd(s).value + 4] == s[..HeaderEnd(s).value + 4]
  {
    var e := HeaderEnd(s).value;
    FindFromIsFirst(s, 0);
    FindFromIsFirst(s + more, 0);
    forall j: nat | j <= e ensures EndsAt(s + more, j) <==> EndsAt(s, j) {
      assert (s + more)[j..j+4] == s[j..j+4];
    }
  }

  /** The size of the first message once its header block has arrived. */
  function TotalSize(len: Bytes -> nat, s: Bytes): Option<nat> {
    match HeaderEnd(s)
    case None => None
    case Some(e) => FindFromIsFirst(s, 0); Some(e + 4 + len(s[..e + 4]))
  }

  predicate HasMessage(len: Bytes -> nat, s: Bytes) { TotalSize(len, s).Some? && TotalSize(len, s).value <= |s| }

  lemma TotalSizeIsStable(len: Bytes -> nat, s: Bytes, more: Bytes)
    requires TotalSize(len, s).Some?
    ensures TotalSize(len, s + more) == TotalSize(len, s) && TotalSize(len, s).value >= 4
  {
    HeaderEndIsStable(s, more);
  }

  /** All complete messages at the front of a buffer, and what is left. */
  function Extract(len: Bytes -> nat, s: Bytes): (seq<Bytes>, Bytes)
    decreases |s|
  {
    if !HasMessage(len, s) then ([], s)
    else
      TotalSizeIsStable(len, s, []);
      var total := TotalSize(len, s).value;
      var (messages, rest) := Extract(len, s[total..]);
      ([s[..total]] + messages, rest)
  }

  lemma ExtractStep(len: Bytes -> nat, s: Bytes)
    requires HasMessage(len, s)
    ensures var total := TotalSize(len, s).value; var (messages, rest) := Extract(len, s[total..]);
      Extract(len, s) == ([s[..total]] + messages, rest)
  {
  }

  /** The extractor is incremental, whatever the bytes. */
  lemma {:induction false} ExtractAppend(len: Bytes -> nat, s: Bytes, more: Bytes)
    ensures var (m1, r1) := Extract(len, s); var (m2, r2) := Extract(len, r1 + more);
      Extract(len, s + more) == (m1 + m2, r2)
    decreases |s|
  {
    if HasMessage(len, s) {
      TotalSizeIsStable(len, s, more);
      var total := TotalSize(len, s).value;
      ExtractStep(len, s + more);
      assert (s + more)[..total] == s[..total] && (s + more)[total..] == s[total..] + more;
      ExtractAppend(len, s[total..], more);
      var (m1, r1) := Extract(len, s[total..]);
      var m2 := Extract(len, r1 + more).0;
      assert [s[..total]] + (m1 + m2) == ([s[..total]] + m1) + m2;
    } else {
      assert [] + Extract(len, s + more).0 == Extract(len, s + more).0;
    }
  }

  lemma {:induction false} ExtractSettles(len: Bytes -> nat, s: Bytes)
    ensures !HasMessage(len, Extract(len, s).1)
    decreases |s|
  {
    if HasMessage(len, s) {
      ExtractStep(len, s);
      TotalSizeIsStable(len, s, []);
      ExtractSettles(len, s[TotalSize(len, s).value..]);
    }
  }

  /** The loop over the frames of one receive: append, then extract. */
  function OnFrames(len: Bytes -> nat, plain: Bytes, frames: seq<Bytes>): (seq<Bytes>, Bytes)
    decreases |frames|
  {
    if frames == [] then ([], plain)
    else
      var (m1, r1) := Extract(len, plain + frames[0]);
      var (m2, r2) := OnFrames(len, r1, frames[1..]);
      (m1 + m2, r2)
  }

  /** Extracting after every frame is extracting once at the end. */
  lemma {:induction false} OnFramesExtracts(len: Bytes -> nat, plain: Bytes, frames: seq<Bytes>)
    requires !HasMessage(len, plain)
    ensures OnFrames(len, plain, frames) == Extract(len, plain + Flatten(frames))
    decreases |frames|
  {
    if frames == [] {
      assert plain + [] == plain;
    } else {
      var first, others := plain + frames[0], Flatten(frames[1..]);
      ExtractSettles(len, first);
      OnFramesExtracts(len, Extract(len, first).1, frames[1..]);
      ExtractAppend(len, first, others);
      Regroup(plain, frames[0], others);
    }
  }

  // ---- what a message is, byte by byte

  /** A request as it is sent: a header block, an empty line, a body. */
  datatype Message = Message(head: Bytes, body: Bytes)

  function Text(m: Message): Bytes { m.head + [13, 10, 13, 10] + m.body }

  /** CR LF CR LF stands at position j. */
  predicate BlankLineAt(s: Bytes, j: nat) {
    j + 4 <= |s| && s[j] == 13 && s[j + 1] == 10 && s[j + 2] == 13 && s[j + 3] == 10
  }

  /** The header block has no empty line before its end and announces the body's length. */
  ghost predicate Proper(len: Bytes -> nat, m: Message) {
    && (forall j: nat :: j < |m.head| ==> !BlankLineAt(m.head + [13, 10, 13, 10], j))
    && len(m.head + [13, 10, 13, 10]) == |m.body|
  }

  ghost predicate AllProper(len: Bytes -> nat, messages: seq<Message>) {
    forall i :: 0 <= i < |messages| ==> Proper(len, messages[i])
  }

  function TextsOf(messages: seq<Message>): (r: seq<Bytes>)
    ensures |r| == |messages|
    ensures forall i :: 0 <= i < |r| ==> r[i] == Text(messages[i])
  {
    seq(|messages|, i requires 0 <= i < |messages| => Text(messages[i]))
  }

  /** A complete message is at the front. */
  ghost predicate StartsWithMessage(len: Bytes -> nat, s: Bytes) {
    exists m: Message :: Proper(len, m) && Text(m) <= s
  }

  lemma EndsAtIsBlankLine(s: Bytes, j: nat)
    ensures EndsAt(s, j) <==> BlankLineAt(s, j)
  {
    if j + 4 <= |s| {
      var w := s[j..j + 4];
      assert w[0] == s[j] && w[1] == s[j + 1] && w[2] == s[j + 2] && w[3] == s[j + 3];
      if BlankLineAt(s, j) { assert w == [13, 10, 13, 10]; }
    }
  }

  lemma ProperHeaderEnd(len: Bytes -> nat, m: Message)
    requires Proper(len, m)
    ensures HeaderEnd(Text(m)) == Some(|m.head|)
  {
    var block := m.head + [13, 10, 13, 10];
    FindFromIsFirst(block, 0);
    forall j: nat | j < |m.head| ensures !EndsAt(block, j) { EndsAtIsBlankLine(block, j); }
    EndsAtIsBlankLine(block, |m.head|);
    assert EndsAt(block, |m.head|);
    assert HeaderEnd(block) == Some(|m.head|);
    HeaderEndIsStable(block, m.body);
    assert Text(m) == block + m.body;
  }

  /** The extractor's measure of a message is its length. */
  lemma ProperIsMeasured(len: Bytes -> nat, m: Message)
    requires Proper(len, m)
    ensures TotalSize(len, Text(m)) == Some(|Text(m)|)
  {
    ProperHeaderEnd(len, m);
    assert Text(m)[..|m.head| + 4] == m.head + [13, 10, 13, 10];
  }

  /** And whatever the extractor takes for one is one. */
  lemma MeasuredIsProper(len: Bytes -> nat, s: Bytes) returns (m: Message)
    requires HasMessage(len, s)
    ensures Proper(len, m) && Text(m) == s[..TotalSize(len, s).value]
  {
    var e, total := HeaderEnd(s).value, TotalSize(len, s).value;
    FindFromIsFirst(s, 0);
    EndsAtIsBlankLine(s, e);
    m := Message(s[..e], s[e + 4..total]);
    var block := m.head + [13, 10, 13, 10];
    assert block == s[..e + 4] by { assert s[..e + 4] == s[..e] + s[e..e + 4]; }
    forall j: nat | j < e ensures !BlankLineAt(block, j) {
      assert !EndsAt(s, j);
      EndsAtIsBlankLine(s, j);
    }
    assert s[..total] == s[..e + 4] + s[e + 4..total];
  }

  lemma HasMessageIff(len: Bytes -> nat, s: Bytes)
    ensures HasMessage(len, s) <==> StartsWithMessage(len, s)
  {
    if HasMessage(len, s) { var m := MeasuredIsProper(len, s); }
    if m: Message :| Proper(len, m) && Text(m) <= s {
      ProperIsMeasured(len, m);
      assert s == Text(m) + s[|Text(m)|..];
      TotalSizeIsStable(len, Text(m), s[|Text(m)|..]);
    }
  }

  /** out are whole messages, with what is left they are all of s, and no complete
    * message is left at the front. */
  ghost predicate Takes(len: Bytes -> nat, s: Bytes, out: seq<Bytes>, rest: Bytes) {
    && (exists messages: seq<Message> :: AllProper(len, messages) && out == TextsOf(messages))
    && Flatten(out) + rest == s
    && !StartsWithMessage(len, rest)
  }

  lemma TakesCons(len: Bytes -> nat, m: Message, s: Bytes, out: seq<Bytes>, rest: Bytes)
    requires Proper(len, m) && Takes(len, s, out, rest)
    ensures Takes(len, Text(m) + s, [Text(m)] + out, rest)
  {
    var messages: seq<Message> :| AllProper(len, messages) && out == TextsOf(messages);
    var all := [m] + messages;
    assert AllProper(len, all) && [Text(m)] + out == TextsOf(all);
    assert ([Text(m)] + out)[1..] == out;
    Regroup(Text(m), Flatten(out), rest);
  }

  lemma TakesNothing(len: Bytes -> nat, s: Bytes)
    requires !StartsWithMessage(len, s)
    ensures Takes(len, s, [], s)
  {
    var none: seq<Message> := [];
    assert TextsOf(none) == [] && AllProper(len, none);
    assert Flatten([]) + s == s;
  }

  /** On every buffer the extractor takes the complete messages at its front. */
  lemma {:induction false} ExtractTakes(len: Bytes -> nat, s: Bytes)
    ensures Takes(len, s, Extract(len, s).0, Extract(len, s).1)
    decreases |s|
  {
    HasMessageIff(len, s);
    if HasMessage(len, s) {
      var total := TotalSize(len, s).value;
      var m := MeasuredIsProper(len, s);
      TotalSizeIsStable(len, s, []);
      ExtractTakes(len, s[total..]);
      TakesCons(len, m, s[total..], Extract(len, s[total..]).0, Extract(len, s[total..]).1);
      ExtractStep(len, s);
      assert s == s[..total] + s[total..];
    } else {
      TakesNothing(len, s);
    }
  }

  /** The first message is taken off whole, whatever follows it. */
  lemma TakesFirst(len: Bytes -> nat, m: Message, tail: Bytes)
    requires Proper(len, m)
    ensures var (out, rest) := Extract(len, tail);
      Extract(len, m.head + [13, 10, 13, 10] + m.body + tail) == ([m.head + [13, 10, 13, 10] + m.body] + out, rest)
  {
    ProperIsMeasured(len, m);
    ExtractFirst(len, Text(m), tail);
  }

  // ---- the receive loop

  /** The reader's buffer and counter, and the plain buffer of the event loop. */
  datatype State = State(encrypted: Bytes, counter: u64, plain: Bytes)

  predicate Settled(len: Bytes -> nat, s: State) { !Complete(s.encrypted) && !HasMessage(len, s.plain) }

  /** One receive: the new state and the messages answered. An authentication
    * failure clears the plain buffer and keeps the encrypted one untrimmed. */
  function Receive(c: Channel, len: Bytes -> nat, s: State, piece: Bytes): (State, seq<Bytes>) {
    var r := Parse(c, s.encrypted + piece, s.counter);
    if !r.ok then (State(s.encrypted + piece, r.counter, []), [])
    else
      var (messages, rest) := OnFrames(len, s.plain, r.frames);
      (State(r.rest, r.counter, rest), messages)
  }

  function ReceiveAll(c: Channel, len: Bytes -> nat, s: State, pieces: seq<Bytes>): (State, seq<Bytes>)
    decreases |pieces|
  {
    if pieces == [] then (s, [])
    else
      var (t, m1) := Receive(c, len, s, pieces[0]);
      var (u, m2) := ReceiveAll(c, len, t, pieces[1..]);
      (u, m1 + m2)
  }

  /** Reading everything at once. */
  function ReceiveWhole(c: Channel, len: Bytes -> nat, s: State, data: Bytes): (State, seq<Bytes>) {
    var r := Parse(c, s.encrypted + data, s.counter);
    var (messages, rest) := Extract(len, s.plain + Flatten(r.frames));
    (State(r.rest, r.counter, rest), messages)
  }

  lemma ReceiveIsWhole(c: Channel, len: Bytes -> nat, s: State, piece: Bytes)
    requires Settled(len, s) && Parse(c, s.encrypted + piece, s.counter).ok
    ensures Receive(c, len, s, piece) == ReceiveWhole(c, len, s, piece)
    ensures Settled(len, Receive(c, len, s, piece).0)
  {
    var r := Parse(c, s.encrypted + piece, s.counter);
    OnFramesExtracts(len, s.plain, r.frames);
    ExtractSettles(len, s.plain + Flatten(r.frames));
    ParseSettles(c, s.encrypted + piece, s.counter);
  }

  lemma PrefixParses(c: Channel, buffer: Bytes, more: Bytes, counter: u64)
    requires Parse(c, buffer + more, counter).ok
    ensures Parse(c, buffer, counter).ok
    decreases |buffer|
  {
    if Complete(buffer) {
      FirstIsStable(c, buffer, more, counter);
      PrefixParses(c, Behind(buffer), more, Next(counter));
    }
  }

  lemma ParseTwice(c: Channel, s: State, a: Bytes, b: Bytes)
    requires Parse(c, s.encrypted + (a + b), s.counter).ok
    ensures Parse(c, s.encrypted + a, s.counter).ok
    ensures var r := Parse(c, s.encrypted + a, s.counter);
      Parse(c, s.encrypted + (a + b), s.counter) == Prepended(r.frames, Parse(c, r.rest + b, r.counter))
  {
    assert s.encrypted + (a + b) == (s.encrypted + a) + b;
    PrefixParses(c, s.encrypted + a, b, s.counter);
    ParseAppend(c, s.encrypted + a, b, s.counter);
  }

  lemma ExtractTwice(len: Bytes -> nat, plain: Bytes, a: seq<Bytes>, b: seq<Bytes>)
    ensures var (m1, r1) := Extract(len, plain + Flatten(a)); var (m2, r2) := Extract(len, r1 + Flatten(b));
      Extract(len, plain + Flatten(a + b)) == (m1 + m2, r2)
  {
    FlattenAppend(a, b);
    assert plain + (Flatten(a) + Flatten(b)) == (plain + Flatten(a)) + Flatten(b);
    ExtractAppend(len, plain + Flatten(a), Flatten(b));
  }

  lemma WholeAppend(c: Channel, len: Bytes -> nat, s: State, a: Bytes, b: Bytes)
    requires Parse(c, s.encrypted + (a + b), s.counter).ok
    ensures Parse(c, s.encrypted + a, s.counter).ok
    ensures var (t, m1) := ReceiveWhole(c, len, s, a); var (u, m2) := ReceiveWhole(c, len, t, b);
      && Parse(c, t.encrypted + b, t.counter).ok
      && ReceiveWhole(c, len, s, a + b) == (u, m1 + m2)
  {
    ParseTwice(c, s, a, b);
    var r := Parse(c, s.encrypted + a, s.counter);
    ExtractTwice(len, s.plain, r.frames, Parse(c, r.rest + b, r.counter).frames);
  }

  /** The two stacked incremental parsers give the same answer for every way the
    * bytes may be cut into receives. */
  lemma {:induction false} SegmentationIndependence(c: Channel, len: Bytes -> nat, s: State, pieces: seq<Bytes>)
    requires Settled(len, s) && Parse(c, s.encrypted + Flatten(pieces), s.counter).ok
    ensures ReceiveAll(c, len, s, pieces) == ReceiveWhole(c, len, s, Flatten(pieces))
    decreases |pieces|
  {
    if pieces == [] {
      assert s.encrypted + [] == s.encrypted && s.plain + [] == s.plain;
    } else {
      WholeAppend(c, len, s, pieces[0], Flatten(pieces[1..]));
      ReceiveIsWhole(c, len, s, pieces[0]);
      SegmentationIndependence(c, len, Receive(c, len, s, pieces[0]).0, pieces[1..]);
    }
  }

  // ---- end to end

  /** A message whose announced length is its real one. */
  predicate WellFormed(len: Bytes -> nat, m: Bytes) { TotalSize(len, m) == Some(|m|) }

  predicate AllWellFormed(len: Bytes -> nat, messages: seq<Bytes>) {
    forall i :: 0 <= i < |messages| ==> WellFormed(len, messages[i])
  }

  lemma AllProperIsWellFormed(len: Bytes -> nat, messages: seq<Message>)
    requires AllProper(len, messages)
    ensures AllWellFormed(len, TextsOf(messages))
  {
    forall i | 0 <= i < |messages| ensures WellFormed(len, TextsOf(messages)[i]) {
      ProperIsMeasured(len, messages[i]);
    }
  }

  /** out and rest are what reading data, a prefix of the messages, must give. */
  ghost predicate Delivers(messages: seq<Bytes>, data: Bytes, out: seq<Bytes>, rest: Bytes) {
    && out <= messages && Flatten(out) + rest == data
    && (|out| < |messages| ==> |rest| < |messages[|out|]|)
    && (out == messages ==> rest == [])
  }

  lemma CutMessageIsIncomplete(len: Bytes -> nat, m: Bytes, k: nat)
    requires WellFormed(len, m) && k < |m|
    ensures !HasMessage(len, m[..k])
  {
    if TotalSize(len, m[..k]).Some? {
      assert m == m[..k] + m[k..];
      TotalSizeIsStable(len, m[..k], m[k..]);
    }
  }

  lemma ExtractFirst(len: Bytes -> nat, m: Bytes, tail: Bytes)
    requires WellFormed(len, m)
    ensures var (out, rest) := Extract(len, tail); Extract(len, m + tail) == ([m] + out, rest)
  {
    TotalSizeIsStable(len, m, tail);
    ExtractStep(len, m + tail);
    assert (m + tail)[..|m|] == m && (m + tail)[|m|..] == tail;
  }

  lemma {:induction false} ExtractPrefix(len: Bytes -> nat, messages: seq<Bytes>, k: nat)
    requires AllWellFormed(len, messages) && k <= |Flatten(messages)|
    ensures var (out, rest) := Extract(len, Flatten(messages)[..k]); Delivers(messages, Flatten(messages)[..k], out, rest)
    decreases |messages|
  {
    if messages != [] {
      var m, others := messages[0], Flatten(messages[1..]);
      if k < |m| {
        assert (m + others)[..k] == m[..k];
        CutMessageIsIncomplete(len, m, k);
      } else {
        var tail := others[..k - |m|];
        assert (m + others)[..k] == m + tail;
        ExtractPrefix(len, messages[1..], k - |m|);
        ExtractFirst(len, m, tail);
        var (out, rest) := Extract(len, tail);
        DeliversCons(messages, tail, out, rest);
      }
    } else {
      FindFromIsFirst([], 0);
    }
  }

  lemma DeliversCons(messages: seq<Bytes>, tail: Bytes, out: seq<Bytes>, rest: Bytes)
    requires messages != [] && Delivers(messages[1..], tail, out, rest)
    ensures Delivers(messages, messages[0] + tail, [messages[0]] + out, rest)
  {
    PrefixCons(messages, out);
    assert ([messages[0]] + out)[1..] == out;
    Regroup(messages[0], Flatten(out), rest);
  }

  lemma {:induction false} FlattenPrefix(some: seq<Bytes>, all: seq<Bytes>)
    requires some <= all
    ensures Flatten(some) <= Flatten(all)
  {
    assert all == some + all[|some|..];
    FlattenAppend(some, all[|some|..]);
  }

  /** End to end: messages sealed one by one, the first n bytes of the stream cut
    * into receives in any way. The reader answers the messages that are complete,
    * once each and in order; its counter counts the frames opened; the two
    * buffers hold exactly the unconsumed bytes; and nothing complete is held back. */
  lemma EndToEnd(c: Channel, len: Bytes -> nat, sent: seq<Message>, counter: u64, pieces: seq<Bytes>, n: nat)
    requires Lawful(c.aead) && AllProper(len, sent)
    requires n <= |SealAll(c, TextsOf(sent), counter)| && Flatten(pieces) == SealAll(c, TextsOf(sent), counter)[..n]
    ensures var messages := TextsOf(sent); var (s, out) := ReceiveAll(c, len, State([], counter, []), pieces);
      exists frames ::
        && Reads(c, AllChunks(messages), counter, Flatten(pieces), Parsed(frames, s.encrypted, s.counter, true))
        && Delivers(messages, Flatten(frames), out, s.plain)
  {
    var messages := TextsOf(sent);
    var chunks, data := AllChunks(messages), Flatten(pieces);
    AllProperIsWellFormed(len, sent);
    SealAllEncodes(c, messages, counter);
    ParsePrefix(c, chunks, counter, n);
    var r := Parse(c, data, counter);
    FromStart(c, len, counter, pieces);
    DecryptedPrefix(len, messages, r.frames);
    assert r == Parsed(r.frames, r.rest, r.counter, true);
  }

  /** From empty buffers, the pieces are read as one. */
  lemma FromStart(c: Channel, len: Bytes -> nat, counter: u64, pieces: seq<Bytes>)
    requires Parse(c, Flatten(pieces), counter).ok
    ensures var r := Parse(c, Flatten(pieces), counter); var (out, rest) := Extract(len, Flatten(r.frames));
      ReceiveAll(c, len, State([], counter, []), pieces) == (State(r.rest, r.counter, rest), out)
  {
    SettledAtStart(len, counter);
    assert [] + Flatten(pieces) == Flatten(pieces);
    SegmentationIndependence(c, len, State([], counter, []), pieces);
    var r := Parse(c, Flatten(pieces), counter);
    assert [] + Flatten(r.frames) == Flatten(r.frames);
  }

  lemma DecryptedPrefix(len: Bytes -> nat, messages: seq<Bytes>, frames: seq<Bytes>)
    requires AllWellFormed(len, messages) && frames <= AllChunks(messages)
    ensures var (out, rest) := Extract(len, Flatten(frames)); Delivers(messages, Flatten(frames), out, rest)
  {
    var all, data := Flatten(messages), Flatten(frames);
    assert data <= all by {
      FlattenPrefix(frames, AllChunks(messages));
      AllChunksFlatten(messages);
    }
    assert all[..|data|] == data;
    ExtractPrefix(len, messages, |data|);
  }

  lemma SettledAtStart(len: Bytes -> nat, counter: u64)
    ensures Settled(len, State([], counter, []))
  {
    FindFromIsFirst([], 0);
  }

  /** When the whole stream has arrived every message has been answered. */
  lemma WholeStream(c: Channel, len: Bytes -> nat, sent: seq<Message>, counter: u64, pieces: seq<Bytes>)
    requires Lawful(c.aead) && AllProper(len, sent)
    requires Flatten(pieces) == SealAll(c, TextsOf(sent), counter)
    ensures ReceiveAll(c, len, State([], counter, []), pieces)
         == (State([], After(counter, |AllChunks(TextsOf(sent))|), []), TextsOf(sent))
  {
    var messages := TextsOf(sent);
    var chunks := AllChunks(messages);
    AllProperIsWellFormed(len, sent);
    SealAllEncodes(c, messages, counter);
    ParseWhole(c, chunks, counter);
    FromStart(c, len, counter, pieces);
    DecryptedPrefix(len, messages, chunks);
    AllChunksFlatten(messages);
    NothingHeldBack(messages, Extract(len, Flatten(chunks)).0, Extract(len, Flatten(chunks)).1);
  }

  lemma NothingHeldBack(messages: seq<Bytes>, out: seq<Bytes>, rest: Bytes)
    requires Delivers(messages, Flatten(messages), out, rest)
    ensures out == messages && rest == []
  {
    var others := messages[|out|..];
    assert messages == out + others;
    FlattenAppend(out, others);
  }

  // ---- the event loop as an object

  class EventLoop {
    const cipher: AirPlay2FrameCipher
    const len: Bytes -> nat
    var plainBuffer: Bytes

    ghost function Model(): State
      reads this, cipher
    {
      State(cipher.encryptedBuffer, cipher.receiveCounter, plainBuffer)
    }

    constructor (cipher: AirPlay2FrameCipher, len: Bytes -> nat)
      ensures this.cipher == cipher && this.len == len && plainBuffer == []
    {
      this.cipher, this.len, plainBuffer := cipher, len, [];
    }

    /** Answers every complete message at the front of the plain buffer. */
    method RespondToEventMessages() returns (answered: seq<Bytes>)
      modifies `plainBuffer
      ensures (answered, plainBuffer) == Extract(len, old(plainBuffer))
      ensures Takes(len, old(plainBuffer), answered, plainBuffer)
    {
      ExtractTakes(len, plainBuffer);
      answered := [];
      assert [] + Extract(len, plainBuffer).0 == Extract(len, plainBuffer).0;
      while HasMessage(len, plainBuffer)
        invariant var (messages, rest) := Extract(len, plainBuffer);
          (answered + messages, rest) == Extract(len, old(plainBuffer))
        decreases |plainBuffer|
      {
        TotalSizeIsStable(len, plainBuffer, []);
        ExtractStep(len, plainBuffer);
        var total := TotalSize(len, plainBuffer).value;
        var message := plainBuffer[..total];
        ghost var later := Extract(len, plainBuffer[total..]).0;
        assert answered + ([message] + later) == (answered + [message]) + later;
        answered := answered + [message];
        plainBuffer := plainBuffer[total..];
      }
      assert answered + [] == answered;
    }

    method OnDecrypted(frames: seq<Bytes>) returns (answered: seq<Bytes>)
      modifies `plainBuffer
      ensures (answered, plainBuffer) == OnFrames(len, old(plainBuffer), frames)
    {
      answered := [];
      assert [] + OnFrames(len, plainBuffer, frames).0 == OnFrames(len, plainBuffer, frames).0;
      for i := 0 to |frames|
        invariant var (messages, rest) := OnFrames(len, plainBuffer, frames[i..]);
          (answered + messages, rest) == OnFrames(len, old(plainBuffer), frames)
      {
        assert frames[i..][1..] == frames[i+1..];
        plainBuffer := plainBuffer + frames[i];
        var some := RespondToEventMessages();
        ghost var later := OnFrames(len, plainBuffer, frames[i+1..]).0;
        assert answered + (some + later) == (answered + some) + later;
        answered := answered + some;
      }
      assert answered + [] == answered;
    }

    /** One successful recv of the loop body. */
    method OnReceived(piece: Bytes) returns (answered: seq<Bytes>)
      modifies this, cipher
      ensures (Model(), answered) == Receive(cipher.Reader(), len, old(Model()), piece)
    {
      var frames := cipher.DecryptAvailable(piece);
      if frames.None? {
        plainBuffer := [];
        return [];
      }
      answered := OnDecrypted(frames.value);
    }
  }
}
