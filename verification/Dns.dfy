/**
 * DNS names with compression (section 4.1.4 of RFC 1035), the query writer, and
 * the walk over the records of a multicast response.
 */
module Dns {
  import opened Common

  const DOT: byte := 46
  const MAX_JUMPS := 12
  const HEADER_SIZE := 12

  // ---- reading a name

  datatype NameResult = NameResult(ok: bool, text: Bytes, offset: nat)

  function Extended(text: Bytes, part: Bytes): Bytes { (if text == [] then [] else text + [DOT]) + part }

  predicate IsPointer(b: byte) { b >= 192 }

  predicate IsLabel(b: byte) { 0 < b < 64 }

  function Pointer(packet: Bytes, at: nat): nat
    requires at + 1 < |packet|
  {
    packet[at] as int % 64 * 256 + packet[at + 1] as int
  }

  /** The reader from a cursor on: jumps taken, where the caller's offset stands
    * once a jump has fixed it, and the text so far. The measure is lexicographic:
    * fewer jumps left, or the same and fewer bytes left. */
  function ReadFrom(packet: Bytes, cursor: nat, jumps: nat, fixed: Option<nat>, start: nat, text: Bytes): NameResult
    requires jumps <= MAX_JUMPS
    decreases MAX_JUMPS - jumps, |packet| - cursor
  {
    var stays := if fixed.Some? then fixed.value else start;
    if cursor >= |packet| then NameResult(false, text, stays)
    else
      var b := packet[cursor];
      if b == 0 then NameResult(true, text, if fixed.Some? then fixed.value else cursor + 1)
      else if IsPointer(b) then
        if cursor + 1 >= |packet| || Pointer(packet, cursor) >= |packet| then NameResult(false, text, stays)
        else
          var now := if fixed.Some? then fixed.value else cursor + 2;
          if jumps == MAX_JUMPS then NameResult(false, text, now)
          else ReadFrom(packet, Pointer(packet, cursor), jumps + 1, Some(now), start, text)
      else if !IsLabel(b) || cursor + 1 + b > |packet| then NameResult(false, text, stays)
      else
        ReadFrom(packet, cursor + 1 + b, jumps, fixed, start, Extended(text, packet[cursor + 1..cursor + 1 + b]))
  }

  function ReadNameAt(packet: Bytes, offset: nat): NameResult { ReadFrom(packet, offset, 0, None, offset, []) }

  /** The loop of read_name; a failed call may have moved the offset and filled text. */
  method ReadName(packet: Bytes, offset: nat) returns (r: NameResult)
    ensures r == ReadNameAt(packet, offset)
  {
    var cursor: nat, jumped, depth: nat, position: nat := offset, false, 0, offset;
    var out: Bytes := [];
    while cursor < |packet|
      invariant 0 <= depth <= MAX_JUMPS
      invariant !jumped ==> position == offset
      invariant ReadFrom(packet, cursor, depth, if jumped then Some(position) else None, offset, out)
             == ReadNameAt(packet, offset)
      decreases MAX_JUMPS - depth, |packet| - cursor
    {
      var length := packet[cursor];
      cursor := cursor + 1;
      if length == 0 {
        if !jumped { position := cursor; }
        return NameResult(true, out, position);
      }
      if IsPointer(length) {
        if cursor >= |packet| {
          return NameResult(false, out, position);
        }
        var pointer := Pointer(packet, cursor - 1);
        cursor := cursor + 1;
        if pointer >= |packet| {
          return NameResult(false, out, position);
        }
        if !jumped { position := cursor; }
        cursor := pointer;
        jumped := true;
        depth := depth + 1;
        if depth > MAX_JUMPS {
          return NameResult(false, out, position);
        }
        continue;
      }
      if !IsLabel(length) || cursor + length > |packet| {
        return NameResult(false, out, position);
      }
      out := Extended(out, packet[cursor..cursor + length]);
      cursor := cursor + length;
    }
    r := NameResult(false, out, position);
  }

  // ---- the reference: a decoding as a derivation

  /** One way through a packet: labels and jumps up to the root. */
  datatype Path = Root | Label(rest: Path) | Jump(rest: Path)

  /** A length byte up to 63 starts a label, one from 192 on is the first of a pointer's
    * two bytes, of which the top two bits are no part of the offset. */
  predicate Follows(packet: Bytes, at: nat, path: Path)
    decreases path
  {
    && at < |packet|
    && match path
       case Root => packet[at] == 0
       case Label(rest) =>
         1 <= packet[at] <= 63 && at + 1 + packet[at] <= |packet| && Follows(packet, at + 1 + packet[at], rest)
       case Jump(rest) =>
         packet[at] >= 192 && at + 1 < |packet| && Target(packet, at) < |packet|
         && Follows(packet, Target(packet, at), rest)
  }

  function Target(packet: Bytes, at: nat): nat
    requires at + 1 < |packet| && packet[at] >= 192
  {
    (packet[at] as int - 192) * 256 + packet[at + 1] as int
  }

  function Jumps(path: Path): nat {
    match path case Root => 0 case Label(rest) => Jumps(rest) case Jump(rest) => 1 + Jumps(rest)
  }

  function Labels(packet: Bytes, at: nat, path: Path): seq<Bytes>
    requires Follows(packet, at, path)
    decreases path
  {
    match path
    case Root => []
    case Label(rest) => [packet[at + 1..at + 1 + packet[at]]] + Labels(packet, at + 1 + packet[at], rest)
    case Jump(rest) => Labels(packet, Target(packet, at), rest)
  }

  /** Bytes used where the name stands: up to the root or the first pointer. */
  function WireSize(packet: Bytes, at: nat, path: Path): (n: nat)
    requires Follows(packet, at, path)
    ensures n > 0 && at + n <= |packet|
    decreases path
  {
    match path
    case Root => 1
    case Label(rest) => 1 + packet[at] + WireSize(packet, at + 1 + packet[at], rest)
    case Jump(rest) => 2
  }

  function Dotted(text: Bytes, labels: seq<Bytes>): Bytes
    decreases |labels|
  {
    if labels == [] then text
    else Dotted((if text == [] then [] else text + [46]) + labels[0], labels[1..])
  }

  lemma {:induction false} PathIsUnique(packet: Bytes, at: nat, a: Path, b: Path)
    requires Follows(packet, at, a) && Follows(packet, at, b)
    ensures a == b
    decreases a
  {
    match a
    case Root =>
    case Label(rest) => PathIsUnique(packet, at + 1 + packet[at], rest, b.rest);
    case Jump(rest) => PathIsUnique(packet, Target(packet, at), rest, b.rest);
  }

  lemma {:induction false} ReadFollows(
    packet: Bytes, at: nat, jumps: nat, fixed: Option<nat>, start: nat, text: Bytes, path: Path)
    requires Follows(packet, at, path) && jumps + Jumps(path) <= MAX_JUMPS
    ensures ReadFrom(packet, at, jumps, fixed, start, text)
         == NameResult(true, Dotted(text, Labels(packet, at, path)),
                       if fixed.Some? then fixed.value else at + WireSize(packet, at, path))
    decreases path
  {
    match path
    case Root =>
    case Label(rest) =>
      var part := packet[at + 1..at + 1 + packet[at]];
      var later := Labels(packet, at + 1 + packet[at], rest);
      ReadFollows(packet, at + 1 + packet[at], jumps, fixed, start, Extended(text, part), rest);
      assert ([part] + later)[1..] == later;
    case Jump(rest) =>
      var now := if fixed.Some? then fixed.value else at + 2;
      ReadFollows(packet, Pointer(packet, at), jumps + 1, Some(now), start, text, rest);
  }

  lemma {:induction false} ReadHasPath(
    packet: Bytes, at: nat, jumps: nat, fixed: Option<nat>, start: nat, text: Bytes) returns (path: Path)
    requires jumps <= MAX_JUMPS && ReadFrom(packet, at, jumps, fixed, start, text).ok
    ensures Follows(packet, at, path) && jumps + Jumps(path) <= MAX_JUMPS
    decreases MAX_JUMPS - jumps, |packet| - at
  {
    var b := packet[at];
    if b == 0 {
      path := Root;
    } else if IsPointer(b) {
      var now := if fixed.Some? then fixed.value else at + 2;
      var rest := ReadHasPath(packet, Pointer(packet, at), jumps + 1, Some(now), start, text);
      path := Jump(rest);
    } else {
      var rest := ReadHasPath(packet, at + 1 + b, jumps, fixed, start, Extended(text, packet[at + 1..at + 1 + b]));
      path := Label(rest);
    }
  }

  ghost predicate Decodable(packet: Bytes, at: nat) {
    exists path :: Follows(packet, at, path) && Jumps(path) <= 12
  }

  /** On every byte string the reader succeeds exactly when a decoding with at most
    * 12 jumps exists. */
  lemma ReadSucceedsIff(packet: Bytes, offset: nat)
    ensures ReadNameAt(packet, offset).ok <==> Decodable(packet, offset)
  {
    if ReadNameAt(packet, offset).ok {
      var path := ReadHasPath(packet, offset, 0, None, offset, []);
    }
    if path :| Follows(packet, offset, path) && Jumps(path) <= 12 {
      ReadFollows(packet, offset, 0, None, offset, [], path);
    }
  }

  /** It then gives the dotted labels of that decoding and moves the offset forward
    * past the bytes of the name, never beyond the packet. */
  lemma ReadGives(packet: Bytes, offset: nat, path: Path)
    requires Follows(packet, offset, path) && Jumps(path) <= 12
    ensures ReadNameAt(packet, offset)
         == NameResult(true, Dotted([], Labels(packet, offset, path)), offset + WireSize(packet, offset, path))
    ensures offset < ReadNameAt(packet, offset).offset <= |packet|
  {
    ReadFollows(packet, offset, 0, None, offset, [], path);
  }

  lemma ReadStaysInside(packet: Bytes, offset: nat)
    requires ReadNameAt(packet, offset).ok
    ensures offset < ReadNameAt(packet, offset).offset <= |packet|
  {
    var path := ReadHasPath(packet, offset, 0, None, offset, []);
    ReadGives(packet, offset, path);
  }

  // ---- writing a name

  function TrimDots(name: Bytes): Bytes {
    if name != [] && name[|name|-1] == DOT then TrimDots(name[..|name|-1]) else name
  }

  /** What c_str shows of a string. */
  function UntilNul(s: Bytes): Bytes { s[..Find(s, 0)] }

  /** None stands for the rejected label of no or more than 63 bytes. */
  function WireLabels(s: Bytes): Option<Bytes>
    decreases |s|
  {
    if s == [] then Some([])
    else
      var n := Find(s, DOT);
      if n == 0 || n > 63 then None
      else if n == |s| then Some([n] + s)
      else
        match WireLabels(s[n + 1..])
        case None => None
        case Some(rest) => Some([n] + s[..n] + rest)
  }

  function WireName(name: Bytes): Option<Bytes> {
    match WireLabels(UntilNul(TrimDots(name)))
    case None => None
    case Some(labels) => Some(labels + [0])
  }

  method TrimTrailingDots(name: Bytes) returns (r: Bytes)
    ensures r == TrimDots(name)
  {
    r := name;
    while r != [] && r[|r|-1] == DOT
      invariant TrimDots(r) == TrimDots(name)
      decreases |r|
    {
      r := r[..|r|-1];
    }
  }

  method AppendDnsName(packet: Bytes, name: Bytes) returns (r: Option<Bytes>)
    ensures r == Prepend(packet, WireName(name))
  {
    var normalized := TrimTrailingDots(name);
    var part := UntilNul(normalized);
    var written: Bytes := [];
    ghost var whole := WireLabels(part);
    PrependStep([], [], whole);
    while part != []
      invariant Prepend(written, WireLabels(part)) == whole
      decreases |part|
    {
      var length := Find(part, DOT);
      if length == 0 || length > 63 {
        return None;
      }
      ghost var rest := if length == |part| then Some([]) else WireLabels(part[length + 1..]);
      assert WireLabels(part) == Prepend([length] + part[..length], rest) by { LabelStep(part); }
      PrependStep(written, [length] + part[..length], rest);
      written := written + ([length] + part[..length]);
      part := if length == |part| then [] else part[length + 1..];
    }
    assert written + [] == written;
    assert packet + (written + [0]) == (packet + written) + [0];
    r := Some(packet + written + [0]);
  }

  lemma LabelStep(s: Bytes)
    requires s != [] && 0 < Find(s, DOT) <= 63
    ensures var n := Find(s, DOT);
      WireLabels(s) == Prepend([n] + s[..n], if n == |s| then Some([]) else WireLabels(s[n + 1..]))
  {
    var n := Find(s, DOT);
    if n == |s| {
      assert s[..n] == s;
      assert ([n] + s) + [] == [n] + s;
    }
  }

  /** The labels a written name is made of. */
  function SplitDots(s: Bytes): seq<Bytes>
    decreases |s|
  {
    if s == [] then []
    else
      var n := Find(s, DOT);
      if n == |s| then [s] else [s[..n]] + SplitDots(s[n + 1..])
  }

  /** The path a written name takes: one label after the other, no jumps. */
  function Straight(labels: nat): Path {
    if labels == 0 then Root else Label(Straight(labels - 1))
  }

  lemma {:induction false} StraightJumps(labels: nat)
    ensures Jumps(Straight(labels)) == 0
  {
    if labels == 0 {
    } else {
      StraightJumps(labels - 1);
    }
  }

  predicate Legal(labels: seq<Bytes>) { forall i :: 0 <= i < |labels| ==> 0 < |labels[i]| < 64 }

  function Counted(part: Bytes): Bytes
    requires |part| < 64
  {
    [|part|] + part
  }

  function Wire(labels: seq<Bytes>): Bytes
    requires Legal(labels)
  {
    if labels == [] then [] else Counted(labels[0]) + Wire(labels[1..])
  }

  lemma WireCons(part: Bytes, labels: seq<Bytes>)
    requires 0 < |part| < 64 && Legal(labels)
    ensures Legal([part] + labels) && Wire([part] + labels) == Counted(part) + Wire(labels)
  {
    assert ([part] + labels)[1..] == labels;
  }

  lemma SplitStep(s: Bytes)
    requires s != []
    ensures var n := Find(s, DOT); SplitDots(s) == [s[..n]] + SplitDots(if n == |s| then [] else s[n + 1..])
  {
    assert Find(s, DOT) == |s| ==> s[..Find(s, DOT)] == s;
  }

  /** The writer puts the counted labels of the dotted text. */
  lemma {:induction false} WriterPutsLabels(s: Bytes)
    requires WireLabels(s).Some?
    ensures Legal(SplitDots(s)) && WireLabels(s) == Some(Wire(SplitDots(s)))
    decreases |s|
  {
    if s == [] {
    } else {
      var n := Find(s, DOT);
      var tail := if n == |s| then [] else s[n + 1..];
      LabelStep(s);
      SplitStep(s);
      WriterPutsLabels(tail);
      WireCons(s[..n], SplitDots(tail));
    }
  }

  predicate Holds(packet: Bytes, at: nat, w: Bytes) { at + |w| <= |packet| && packet[at..at + |w|] == w }

  lemma HoldsSplit(packet: Bytes, at: nat, a: Bytes, b: Bytes)
    requires Holds(packet, at, a + b)
    ensures Holds(packet, at, a) && Holds(packet, at + |a|, b)
  {
    var w := packet[at..at + |a + b|];
    assert packet[at..at + |a|] == w[..|a|];
    assert packet[at + |a|..at + |a| + |b|] == w[|a|..];
  }

  lemma HoldsCounted(packet: Bytes, at: nat, part: Bytes)
    requires 0 < |part| < 64 && Holds(packet, at, Counted(part))
    ensures at < |packet| && packet[at] == |part| && at + 1 + |part| <= |packet|
    ensures packet[at + 1..at + 1 + |part|] == part
  {
    var w := packet[at..at + 1 + |part|];
    assert packet[at] == w[0] && packet[at + 1..at + 1 + |part|] == w[1..];
  }

  lemma LabelFollows(packet: Bytes, at: nat, part: Bytes, rest: Path)
    requires 0 < |part| < 64 && Holds(packet, at, Counted(part)) && Follows(packet, at + 1 + |part|, rest)
    ensures Follows(packet, at, Label(rest))
    ensures Labels(packet, at, Label(rest)) == [part] + Labels(packet, at + 1 + |part|, rest)
    ensures WireSize(packet, at, Label(rest)) == 1 + |part| + WireSize(packet, at + 1 + |part|, rest)
  {
    HoldsCounted(packet, at, part);
  }

  lemma {:induction false} WrittenFollows(packet: Bytes, at: nat, labels: seq<Bytes>)
    requires Legal(labels) && Holds(packet, at, Wire(labels) + [0])
    ensures Follows(packet, at, Straight(|labels|))
    ensures Labels(packet, at, Straight(|labels|)) == labels
    ensures WireSize(packet, at, Straight(|labels|)) == |Wire(labels)| + 1
    decreases |labels|
  {
    if labels == [] {
      assert packet[at] == packet[at..at + 1][0];
    } else {
      var part, rest := labels[0], labels[1..];
      assert labels == [part] + rest;
      HoldsCons(packet, at, part, rest);
      WrittenFollows(packet, at + 1 + |part|, rest);
      LabelFollows(packet, at, part, Straight(|rest|));
    }
  }

  lemma HoldsCons(packet: Bytes, at: nat, part: Bytes, rest: seq<Bytes>)
    requires 0 < |part| < 64 && Legal(rest) && Legal([part] + rest) && Holds(packet, at, Wire([part] + rest) + [0])
    ensures Holds(packet, at, Counted(part)) && Holds(packet, at + 1 + |part|, Wire(rest) + [0])
    ensures |Wire([part] + rest)| == 1 + |part| + |Wire(rest)|
  {
    WireCons(part, rest);
    assert Wire([part] + rest) + [0] == Counted(part) + (Wire(rest) + [0]);
    HoldsSplit(packet, at, Counted(part), Wire(rest) + [0]);
  }

  lemma ExtendedTwice(text: Bytes, head: Bytes, tail: Bytes)
    requires head != []
    ensures Extended(Extended(text, head), tail) == Extended(text, head + [DOT] + tail)
  {
  }

  lemma DottedStep(text: Bytes, part: Bytes, labels: seq<Bytes>)
    ensures Dotted(text, [part] + labels) == Dotted(Extended(text, part), labels)
  {
    assert ([part] + labels)[1..] == labels;
  }

  lemma CutAtDot(s: Bytes)
    requires Find(s, DOT) < |s| && s[|s|-1] != DOT
    ensures var n := Find(s, DOT);
      && s == s[..n] + [DOT] + s[n + 1..]
      && s[n + 1..] != [] && s[n + 1..][|s[n + 1..]| - 1] != DOT
  {
  }

  lemma {:induction false} DottedSplit(text: Bytes, s: Bytes)
    requires s != [] && s[|s|-1] != DOT && WireLabels(s).Some?
    ensures Dotted(text, SplitDots(s)) == Extended(text, s)
    decreases |s|
  {
    var n := Find(s, DOT);
    SplitStep(s);
    LabelStep(s);
    if n < |s| {
      CutAtDot(s);
      DottedStep(text, s[..n], SplitDots(s[n + 1..]));
      DottedSplit(Extended(text, s[..n]), s[n + 1..]);
      ExtendedTwice(text, s[..n], s[n + 1..]);
    } else {
      DottedStep(text, s[..n], []);
      assert s[..n] == s;
    }
  }

  lemma CutBeforeLast(s: Bytes)
    requires s != [] && Find(s, DOT) < |s| - 1
    ensures var n := Find(s, DOT); var init := s[..|s|-1]; var tail := s[n + 1..];
      && Find(init, DOT) == n && init != []
      && init[..n] == s[..n] && init[n + 1..] == tail[..|tail|-1] && tail != [] && tail[|tail|-1] == s[|s|-1]
      && (tail[..|tail|-1] != [] ==> init[|init|-1] == tail[..|tail|-1][|tail|-2])
  {
    FindPrefix(s, |s| - 1);
  }

  /** A writable text that ends in a dot: the dot adds no label. */
  lemma {:induction false} LastDotAddsNothing(s: Bytes)
    requires s != [] && s[|s|-1] == DOT && WireLabels(s).Some?
    ensures var init := s[..|s|-1];
      && init != [] && init[|init|-1] != DOT && WireLabels(init).Some? && SplitDots(s) == SplitDots(init)
    decreases |s|
  {
    LabelStep(s);
    if Find(s, DOT) < |s| - 1 {
      CutBeforeLast(s);
      LastDotAddsNothing(s[Find(s, DOT) + 1..]);
      InnerLabel(s);
    } else {
      LastLabel(s);
    }
  }

  lemma InnerLabel(s: Bytes)
    requires s != [] && 0 < Find(s, DOT) < |s| - 1 && Find(s, DOT) <= 63
    requires var tail := s[Find(s, DOT) + 1..]; var init := tail[..|tail|-1];
      && init != [] && init[|init|-1] != DOT && WireLabels(init).Some? && SplitDots(tail) == SplitDots(init)
    ensures var init := s[..|s|-1];
      && init[|init|-1] != DOT && WireLabels(init).Some? && SplitDots(s) == SplitDots(init)
  {
    CutBeforeLast(s);
    SplitStep(s);
    LabelStep(s[..|s|-1]);
    SplitStep(s[..|s|-1]);
  }

  lemma LastLabel(s: Bytes)
    requires s != [] && Find(s, DOT) == |s| - 1 && 0 < |s| - 1 <= 63
    ensures var init := s[..|s|-1];
      && init[|init|-1] != DOT && WireLabels(init).Some? && SplitDots(s) == SplitDots(init)
  {
    var init := s[..|s|-1];
    FindPrefix(s, |s| - 1);
    SplitStep(s);
    assert s[|s|..] == [];
    SplitStep(init);
  }

  lemma FindPrefix(s: Bytes, n: nat)
    requires n <= |s|
    ensures Find(s[..n], DOT) == Min(Find(s, DOT), n)
  {
    var i, j := Find(s, DOT), Find(s[..n], DOT);
    if j < n { assert s[j] == DOT; }
    if i < n { assert s[..n][i] == DOT; }
  }

  /** Everything the writer accepts reads back, wherever it stands in a packet: the
    * text without its trailing dots, and the offset just past the name. A text is
    * cut at its first NUL. */
  lemma NameRoundTrip(before: Bytes, name: Bytes, after: Bytes)
    requires WireName(name).Some?
    ensures var w := WireName(name).value;
      ReadNameAt(before + w + after, |before|)
        == NameResult(true, TrimDots(UntilNul(TrimDots(name))), |before| + |w|)
  {
    var s := UntilNul(TrimDots(name));
    WriterPutsLabels(s);
    LabelsReadBack(before, SplitDots(s), after);
    DottedIsTrimmed(s);
  }

  lemma LabelsReadBack(before: Bytes, labels: seq<Bytes>, after: Bytes)
    requires Legal(labels)
    ensures var w := Wire(labels) + [0];
      ReadNameAt(before + w + after, |before|) == NameResult(true, Dotted([], labels), |before| + |w|)
  {
    var w := Wire(labels) + [0];
    var packet := before + w + after;
    assert Holds(packet, |before|, w);
    WrittenFollows(packet, |before|, labels);
    StraightJumps(|labels|);
    ReadGives(packet, |before|, Straight(|labels|));
  }

  lemma DottedIsTrimmed(s: Bytes)
    requires WireLabels(s).Some?
    ensures Dotted([], SplitDots(s)) == TrimDots(s)
  {
    if s != [] {
      if s[|s|-1] == DOT {
        LastDotAddsNothing(s);
        DottedSplit([], s[..|s|-1]);
      } else {
        DottedSplit([], s);
      }
    }
  }

  lemma {:induction false} TrimDotsPrefix(name: Bytes)
    ensures TrimDots(name) <= name && TrimDots(TrimDots(name)) == TrimDots(name)
  {
    if name != [] && name[|name|-1] == DOT { TrimDotsPrefix(name[..|name|-1]); }
  }

  /** Exactly the names without NUL and without a trailing dot come back unchanged. */
  lemma NameIdentity(before: Bytes, name: Bytes, after: Bytes)
    requires WireName(name).Some?
    ensures ReadNameAt(before + WireName(name).value + after, |before|).text == name
       <==> 0 !in name && (name == [] || name[|name|-1] != DOT)
  {
    var trimmed := TrimDots(name);
    var shown := UntilNul(trimmed);
    NameRoundTrip(before, name, after);
    TrimDotsPrefix(name);
    TrimDotsPrefix(shown);
    if 0 !in name && (name == [] || name[|name|-1] != DOT) {
      assert Find(name, 0) == |name| by { assert forall j :: 0 <= j < |name| ==> name[j] in name; }
    } else if TrimDots(shown) == name {
      assert |shown| == |trimmed| == |name|;
      if name != [] && name[|name|-1] == DOT { TrimDotsPrefix(name[..|name|-1]); }
    }
  }

  /** Two accepted names that both come back as "a": "a." and "a" NUL "b". */
  lemma NamesThatChange(before: Bytes, after: Bytes)
    ensures WireName([97, DOT]) == WireName([97, 0, 98]) == Some([1, 97, 0])
    ensures ReadNameAt(before + [1, 97, 0] + after, |before|).text == [97]
  {
    var a, dotted, cut: Bytes := [97], [97, DOT], [97, 0, 98];
    assert dotted[..1] == a;
    assert TrimDots(dotted) == a && TrimDots(cut) == cut && TrimDots(a) == a;
    assert cut[1] == 0 && cut[..1] == a;
    assert Find(cut, 0) == 1 && Find(a, 0) == 1;
    assert UntilNul(cut) == a && UntilNul(a) == a;
    OneLetter(a);
    assert [1, 97] + [0] == [1, 97, 0];
    NameRoundTrip(before, dotted, after);
  }

  lemma OneLetter(a: Bytes)
    requires a == [97]
    ensures WireLabels(a) == Some([1, 97])
  {
    assert a[0] != DOT;
    assert Find(a, DOT) == 1;
    assert [1] + a == [1, 97];
  }

  // ---- queries

  const CLASS_IN: u16 := 1
  const CLASS_UNICAST: u16 := 0x8001   // class IN with the unicast-response bit

  function Be16(x: u16): Bytes { [x / 256, x % 256] }

  function U16At(packet: Bytes, at: nat): u16
    requires at + 2 <= |packet|
  {
    packet[at] as int * 256 + packet[at + 1] as int
  }

  const QUERY_HEADER: Bytes := [0, 0, 0, 0, 0, 1, 0, 0, 0, 0, 0, 0]

  function Query(name: Bytes, qtype: u16, unicast: bool): Option<Bytes> {
    match WireName(name)
    case None => None
    case Some(w) => Some(QUERY_HEADER + w + (Be16(qtype) + Be16(if unicast then CLASS_UNICAST else CLASS_IN)))
  }

  method MakeDnsQuery(name: Bytes, qtype: u16, unicast: bool) returns (packet: Option<Bytes>)
    ensures packet == Query(name, qtype, unicast)
  {
    packet := AppendDnsName(QUERY_HEADER, name);
    if packet.None? {
      return;
    }
    var p := packet.value;
    p := p + [qtype / 256];
    p := p + [qtype % 256];
    var class_ := if unicast then CLASS_UNICAST else CLASS_IN;
    p := p + [class_ / 256];
    p := p + [class_ % 256];
    assert p == packet.value + (Be16(qtype) + Be16(class_));
    packet := Some(p);
  }

  /** A built query holds one question, and reading it consumes the packet exactly. */
  lemma QueryIsConsumed(name: Bytes, qtype: u16, unicast: bool)
    requires Query(name, qtype, unicast).Some?
    ensures var packet := Query(name, qtype, unicast).value; var r := ReadNameAt(packet, HEADER_SIZE);
      && |packet| >= HEADER_SIZE && U16At(packet, 4) == 1 && U16At(packet, 6) == U16At(packet, 8) == U16At(packet, 10) == 0
      && r.ok && r.text == TrimDots(UntilNul(TrimDots(name)))
      && r.offset + 4 == |packet|
      && U16At(packet, r.offset) == qtype
      && U16At(packet, r.offset + 2) == if unicast then CLASS_UNICAST else CLASS_IN
  {
    var w := WireName(name).value;
    var tail := Be16(qtype) + Be16(if unicast then CLASS_UNICAST else CLASS_IN);
    var packet := QUERY_HEADER + w + tail;
    NameRoundTrip(QUERY_HEADER, name, tail);
    assert packet[..12] == QUERY_HEADER;
    assert packet[|packet| - 4..] == tail;
    assert packet[|packet| - 4] == tail[0] && packet[|packet| - 3] == tail[1];
    assert packet[|packet| - 2] == tail[2] && packet[|packet| - 1] == tail[3];
  }

  // ---- TXT data

  type Text = map<Bytes, Bytes>

  const EQUALS: byte := 61

  function LowerByte(b: byte): byte { if 65 <= b <= 90 then b + 32 else b }

  function Lower(s: Bytes): (r: Bytes)
    ensures |r| == |s|
  {
    seq(|s|, i requires 0 <= i < |s| => LowerByte(s[i]))
  }

  /** key=value, or a bare key; an item without a key is ignored. */
  function PutItem(txt: Text, item: Bytes): Text {
    var n := Find(item, EQUALS);
    var key := Lower(item[..n]);
    if key == [] then txt else txt[key := if n == |item| then [] else item[n + 1..]]
  }

  /** The items of a TXT record; a last one that runs past the end is dropped. */
  function Items(packet: Bytes, offset: nat, end: nat): seq<Bytes>
    requires offset <= end <= |packet|
    decreases end - offset
  {
    if offset == end || offset + 1 + packet[offset] as int > end then []
    else
      var next := offset + 1 + packet[offset] as int;
      [packet[offset + 1..next]] + Items(packet, next, end)
  }

  function PutAll(txt: Text, items: seq<Bytes>): Text
    decreases |items|
  {
    if items == [] then txt else PutAll(PutItem(txt, items[0]), items[1..])
  }

  /** An item is a key, an equals sign and a value, or a key alone; keys are stored in
    * lower case, and without a key it says nothing. */
  lemma ItemMeans(txt: Text, key: Bytes, value: Bytes)
    requires 61 !in key
    ensures PutItem(txt, key + [61] + value) == if key == [] then txt else txt[Lower(key) := value]
    ensures PutItem(txt, key) == if key == [] then txt else txt[Lower(key) := []]
  {
    var item := key + [61] + value;
    assert item[|key|] == 61 && item[..|key|] == key && item[|key| + 1..] == value;
    assert forall j :: 0 <= j < |key| ==> item[j] == key[j] && key[j] in key;
    assert Find(item, 61) == |key| && Find(key, 61) == |key|;
    assert key[..|key|] == key;
  }

  /** Two bytes are the same in lower case exactly when they are the same, or the upper
    * and lower case of one ASCII letter. */
  lemma LowerFolds(b: byte, c: byte)
    ensures LowerByte(b) == LowerByte(c)
       <==> b == c || (65 <= b <= 90 && c == b + 32) || (65 <= c <= 90 && b == c + 32)
    ensures LowerByte(b) == b || LowerByte(b) == b + 32
  {
  }

  /** The item loop from an offset on. */
  function TxtFrom(packet: Bytes, offset: nat, end: nat, txt: Text): Text
    requires offset <= end <= |packet|
    decreases end - offset
  {
    if offset == end || offset + 1 + packet[offset] as int > end then txt
    else
      var next := offset + 1 + packet[offset] as int;
      TxtFrom(packet, next, end, PutItem(txt, packet[offset + 1..next]))
  }

  lemma {:induction false} TxtFoldsItems(packet: Bytes, offset: nat, end: nat, txt: Text)
    requires offset <= end <= |packet|
    ensures TxtFrom(packet, offset, end, txt) == PutAll(txt, Items(packet, offset, end))
    decreases end - offset
  {
    if offset < end && offset + 1 + packet[offset] as int <= end {
      var next := offset + 1 + packet[offset] as int;
      var item := packet[offset + 1..next];
      TxtFoldsItems(packet, next, end, PutItem(txt, item));
      assert ([item] + Items(packet, next, end))[1..] == Items(packet, next, end);
    }
  }

  method ParseTxt(packet: Bytes, start: nat, length: nat) returns (txt: Text)
    requires start + length <= |packet|
    ensures txt == TxtFrom(packet, start, start + length, map[])
  {
    txt := map[];
    var offset, end := start, start + length;
    while offset < end
      invariant start <= offset <= end
      invariant TxtFrom(packet, offset, end, txt) == TxtFrom(packet, start, end, map[])
    {
      var itemLength := packet[offset] as int;
      offset := offset + 1;
      if offset + itemLength > end {
        return;
      }
      var item := packet[offset..offset + itemLength];
      offset := offset + itemLength;
      txt := PutItem(txt, item);
    }
  }

  function EncodeItems(items: seq<Bytes>): Bytes
    requires forall i :: 0 <= i < |items| ==> |items[i]| < 256
  {
    if items == [] then [] else ([|items[0]|] + items[0]) + EncodeItems(items[1..])
  }

  /** Items written one after the other are read back, wherever they stand. */
  lemma {:induction false} ItemsRoundTrip(packet: Bytes, at: nat, items: seq<Bytes>)
    requires forall i :: 0 <= i < |items| ==> |items[i]| < 256
    requires Holds(packet, at, EncodeItems(items))
    ensures Items(packet, at, at + |EncodeItems(items)|) == items
    decreases |items|
  {
    if items == [] {
    } else {
      var item: Bytes := items[0];
      var head: Bytes := [|item|] + item;
      HoldsSplit(packet, at, head, EncodeItems(items[1..]));
      ItemsRoundTrip(packet, at + |head|, items[1..]);
      var w := packet[at..at + |head|];
      assert packet[at] == w[0] && packet[at + 1..at + |head|] == w[1..];
      assert items == [item] + items[1..];
    }
  }

  // ---- responses

  datatype Record = Record(name: Bytes, rtype: u16, rclass: u16, at: nat, length: u16)

  /** After the questions, or None when they do not parse. */
  function SkipQuestions(packet: Bytes, offset: nat, count: nat): Option<nat>
    decreases count
  {
    if count == 0 then Some(offset)
    else
      var r := ReadNameAt(packet, offset);
      if !r.ok || r.offset + 4 > |packet| then None else SkipQuestions(packet, r.offset + 4, count - 1)
  }

  function RecordAt(packet: Bytes, offset: nat): Option<Record> {
    var r := ReadNameAt(packet, offset);
    if !r.ok || r.offset + 10 > |packet| then None
    else
      Some(Record(r.text, U16At(packet, r.offset), U16At(packet, r.offset + 2), r.offset + 10, U16At(packet, r.offset + 8)))
  }

  /** A record as it is written: a name, then type, class, time to live and length in
    * network order, then the data. */
  lemma RecordRoundTrip(before: Bytes, name: Bytes, fields: Bytes, data: Bytes, after: Bytes)
    requires WireName(name).Some? && |fields| == 10
    ensures var packet := before + (WireName(name).value + (fields + data + after));
      var at := |before| + |WireName(name).value| + 10;
      RecordAt(packet, |before|) == Some(Record(
        TrimDots(UntilNul(TrimDots(name))),
        fields[0] as int * 256 + fields[1] as int,
        fields[2] as int * 256 + fields[3] as int,
        at,
        fields[8] as int * 256 + fields[9] as int))
  {
    var w := WireName(name).value;
    var tail := fields + data + after;
    NameRoundTrip(before, name, tail);
    var packet := before + (w + tail);
    assert packet == before + w + tail;
    forall k | 0 <= k < 10 ensures packet[|before| + |w| + k] == fields[k] {
      assert packet[|before| + |w| + k] == tail[k];
    }
  }

  /** The records read before the walk ends, and whether it reached the count. */
  function Records(packet: Bytes, offset: nat, count: nat): (seq<Record>, bool)
    decreases count
  {
    if count == 0 then ([], true)
    else
      match RecordAt(packet, offset)
      case None => ([], false)
      case Some(r) =>
        var (rest, whole) := Records(packet, r.at + r.length, count - 1);
        ([r] + rest, whole)
  }

  predicate Usable(packet: Bytes, r: Record) { r.rclass % 0x8000 == CLASS_IN && r.at + r.length <= |packet| }

  /** On every packet: records follow one another without overlap, their headers
    * lie inside the packet, and only the last can have data that runs past its
    * end, in which case it is not used. */
  lemma {:induction false} RecordsStayInside(packet: Bytes, offset: nat, count: nat, i: nat)
    requires i < |Records(packet, offset, count).0|
    ensures var rs := Records(packet, offset, count).0;
      && |rs| <= count
      && offset + 10 < rs[i].at <= |packet|
      && (i + 1 < |rs| ==> rs[i].at + rs[i].length <= |packet| && rs[i].at + rs[i].length + 10 < rs[i + 1].at)
    decreases count
  {
    ReadStaysInside(packet, offset);
    var r := RecordAt(packet, offset).value;
    var rest := Records(packet, r.at + r.length, count - 1).0;
    if rest == [] {
    } else {
      RecordsStayInside(packet, r.at + r.length, count - 1, if i > 0 then i - 1 else 0);
    }
  }

  datatype Service = Service(
    fullName: Bytes, serviceType: Bytes, instanceName: Bytes, targetHost: Bytes, targetAddress: Bytes, port: u16, txt: Text)

  const NEW_SERVICE := Service([], [], [], [], [], 0, map[])

  datatype Found = Found(services: map<Bytes, Service>, hosts: map<Bytes, Bytes>)

  /** Printing an address (inet_ntop) and cutting an instance name out of a full
    * name are parameters; response is the sender's address. */
  datatype Texts = Texts(ntop: Bytes -> Bytes, instanceOf: (Bytes, Bytes) -> Bytes, response: Bytes)

  const TYPE_A: u16 := 1
  const TYPE_PTR: u16 := 12
  const TYPE_TXT: u16 := 16
  const TYPE_AAAA: u16 := 28
  const TYPE_SRV: u16 := 33

  function ServiceOf(f: Found, name: Bytes): Service { if name in f.services then f.services[name] else NEW_SERVICE }

  function WithService(f: Found, name: Bytes, s: Service): Found { f.(services := f.services[name := s]) }

  /** Keys already present keep their value. */
  function Merged(old_: Text, new_: Text): Text { new_ + old_ }

  function ApplyPtr(packet: Bytes, f: Found, r: Record, t: Texts): Found {
    var target := ReadNameAt(packet, r.at);
    if !target.ok then f
    else
      WithService(f, target.text, ServiceOf(f, target.text).(
        fullName := target.text, serviceType := r.name, instanceName := t.instanceOf(target.text, r.name)))
  }

  /** The target host takes whatever the reader left, even when it failed. */
  function ApplySrv(packet: Bytes, f: Found, r: Record, t: Texts): Found
    requires Usable(packet, r)
  {
    if r.length < 6 then f
    else
      var s := ServiceOf(f, r.name);
      WithService(f, r.name, s.(
        fullName := r.name,
        port := U16At(packet, r.at + 4),
        targetHost := ReadNameAt(packet, r.at + 6).text,
        targetAddress := if s.targetAddress == [] then t.response else s.targetAddress))
  }

  function ApplyTxt(packet: Bytes, f: Found, r: Record): Found
    requires Usable(packet, r)
  {
    var s := ServiceOf(f, r.name);
    WithService(f, r.name, s.(
      fullName := r.name,
      txt := Merged(s.txt, TxtFrom(packet, r.at, r.at + r.length, map[]))))
  }

  /** An IPv4 address replaces what is known of a host; an IPv6 one only fills a gap. */
  function ApplyAddress(packet: Bytes, f: Found, r: Record, t: Texts): Found
    requires Usable(packet, r)
  {
    var size := if r.rtype == TYPE_A then 4 else 16;
    if r.length != size then f
    else
      var address := t.ntop(packet[r.at..r.at + r.length]);
      if address == [] || (r.rtype == TYPE_AAAA && Lower(r.name) in f.hosts) then f
      else f.(hosts := f.hosts[Lower(r.name) := address])
  }

  function Apply(packet: Bytes, f: Found, r: Record, t: Texts): Found {
    if !Usable(packet, r) then f
    else if r.rtype == TYPE_PTR then ApplyPtr(packet, f, r, t)
    else if r.rtype == TYPE_SRV then ApplySrv(packet, f, r, t)
    else if r.rtype == TYPE_TXT then ApplyTxt(packet, f, r)
    else if r.rtype == TYPE_A || r.rtype == TYPE_AAAA then ApplyAddress(packet, f, r, t)
    else f
  }

  function ApplyAll(packet: Bytes, f: Found, records: seq<Record>, t: Texts): Found
    decreases |records|
  {
    if records == [] then f else ApplyAll(packet, Apply(packet, f, records[0], t), records[1..], t)
  }

  lemma {:induction false} ApplyAllSnoc(packet: Bytes, f: Found, records: seq<Record>, r: Record, t: Texts)
    ensures ApplyAll(packet, f, records + [r], t) == Apply(packet, ApplyAll(packet, f, records, t), r, t)
    decreases |records|
  {
    if records == [] {
      assert ([] + [r])[1..] == [];
    } else {
      assert (records + [r])[1..] == records[1..] + [r];
      ApplyAllSnoc(packet, Apply(packet, f, records[0], t), records[1..], r, t);
    }
  }

  // ---- what the records say about one service

  /** A record of class IN, whatever its flush bit, of the given type, with its data
    * inside the packet. */
  predicate Counts(packet: Bytes, r: Record, rtype: u16) {
    r.rtype == rtype && (r.rclass == 1 || r.rclass == 32769) && r.at + r.length <= |packet|
  }

  predicate IsSrv(packet: Bytes, r: Record, name: Bytes) { Counts(packet, r, 33) && r.name == name && r.length >= 6 }

  predicate IsTxt(packet: Bytes, r: Record, name: Bytes) { Counts(packet, r, 16) && r.name == name }

  predicate IsPtr(packet: Bytes, r: Record, name: Bytes) {
    Counts(packet, r, 12) && ReadNameAt(packet, r.at).ok && ReadNameAt(packet, r.at).text == name
  }

  /** What one record adds to a service: an SRV record the port and the target host,
    * and the responder's address if none is known; a TXT record the keys that are new; a
    * PTR record that points to it the type and the instance. */
  function DescribedBy(packet: Bytes, s: Service, r: Record, t: Texts, name: Bytes): Service {
    if IsSrv(packet, r, name) then
      s.(fullName := name,
         port := packet[r.at + 4] as int * 256 + packet[r.at + 5] as int,
         targetHost := ReadNameAt(packet, r.at + 6).text,
         targetAddress := if s.targetAddress != [] then s.targetAddress else t.response)
    else if IsTxt(packet, r, name) then
      var items := PutAll(map[], Items(packet, r.at, r.at + r.length));
      s.(fullName := name, txt := map k | k in s.txt.Keys + items.Keys :: if k in s.txt then s.txt[k] else items[k])
    else if IsPtr(packet, r, name) then
      s.(fullName := name, serviceType := r.name, instanceName := t.instanceOf(name, r.name))
    else s
  }

  function Described(packet: Bytes, records: seq<Record>, t: Texts, name: Bytes, known: Service): Service
    decreases |records|
  {
    if records == [] then known
    else
      var before := Described(packet, records[..|records|-1], t, name, known);
      DescribedBy(packet, before, records[|records|-1], t, name)
  }

  lemma ClassIn(c: u16)
    ensures c % 0x8000 == 1 <==> c == 1 || c == 32769
  {
  }

  lemma TxtDescribes(packet: Bytes, f: Found, r: Record, name: Bytes)
    requires IsTxt(packet, r, name) && Usable(packet, r)
    ensures var s := ServiceOf(f, name); var items := PutAll(map[], Items(packet, r.at, r.at + r.length));
      ServiceOf(ApplyTxt(packet, f, r), name) == s.(
        fullName := name, txt := map k | k in s.txt.Keys + items.Keys :: if k in s.txt then s.txt[k] else items[k])
  {
    TxtFoldsItems(packet, r.at, r.at + r.length, map[]);
    var s, items := ServiceOf(f, name), PutAll(map[], Items(packet, r.at, r.at + r.length));
    assert Merged(s.txt, items) == map k | k in s.txt.Keys + items.Keys :: if k in s.txt then s.txt[k] else items[k];
  }

  lemma DescribedStep(packet: Bytes, f: Found, r: Record, t: Texts, name: Bytes)
    ensures ServiceOf(Apply(packet, f, r, t), name) == DescribedBy(packet, ServiceOf(f, name), r, t, name)
  {
    ClassIn(r.rclass);
    if IsTxt(packet, r, name) { TxtDescribes(packet, f, r, name); }
  }

  lemma DescribedSnoc(packet: Bytes, records: seq<Record>, r: Record, t: Texts, name: Bytes, known: Service)
    ensures Described(packet, records + [r], t, name, known)
         == DescribedBy(packet, Described(packet, records, t, name, known), r, t, name)
  {
    assert (records + [r])[..|records|] == records;
  }

  lemma {:induction false} ServicesAreDescribed(packet: Bytes, f: Found, records: seq<Record>, t: Texts, name: Bytes)
    ensures ServiceOf(ApplyAll(packet, f, records, t), name) == Described(packet, records, t, name, ServiceOf(f, name))
    decreases |records|
  {
    if records == [] {
    } else {
      var init, last := records[..|records|-1], records[|records|-1];
      assert records == init + [last];
      ApplyAllSnoc(packet, f, init, last, t);
      ServicesAreDescribed(packet, f, init, t, name);
      DescribedStep(packet, ApplyAll(packet, f, init, t), last, t, name);
      DescribedSnoc(packet, init, last, t, name, ServiceOf(f, name));
    }
  }

  // ---- what the records say about one host

  /** The address of a host, by its name in lower case: that of the last usable A
    * record for it, else the known one, else that of the first usable AAAA record. */
  function AddressOf(packet: Bytes, records: seq<Record>, t: Texts, host: Bytes, known: Option<Bytes>): Option<Bytes>
    decreases |records|
  {
    if records == [] then known
    else
      var r := records[|records|-1];
      var before := AddressOf(packet, records[..|records|-1], t, host, known);
      if Lower(r.name) != host then before
      else if Counts(packet, r, 1) && r.length == 4 && t.ntop(packet[r.at..r.at + 4]) != [] then
        Some(t.ntop(packet[r.at..r.at + 4]))
      else if Counts(packet, r, 28) && r.length == 16 && before.None? && t.ntop(packet[r.at..r.at + 16]) != [] then
        Some(t.ntop(packet[r.at..r.at + 16]))
      else before
  }

  function Known(hosts: map<Bytes, Bytes>, host: Bytes): Option<Bytes> {
    if host in hosts then Some(hosts[host]) else None
  }

  lemma {:induction false} HostsAreAddressed(packet: Bytes, f: Found, records: seq<Record>, t: Texts, host: Bytes)
    ensures Known(ApplyAll(packet, f, records, t).hosts, host) == AddressOf(packet, records, t, host, Known(f.hosts, host))
    decreases |records|
  {
    if records == [] {
    } else {
      var init, last := records[..|records|-1], records[|records|-1];
      assert records == init + [last];
      ApplyAllSnoc(packet, f, init, last, t);
      HostsAreAddressed(packet, f, init, t, host);
      ClassIn(last.rclass);
    }
  }

  /** The port of a service is that of the last SRV record for its name. */
  lemma PortIsLastSrv(packet: Bytes, f: Found, before: seq<Record>, srv: Record, after: seq<Record>, t: Texts, name: Bytes)
    requires IsSrv(packet, srv, name) && forall i :: 0 <= i < |after| ==> !IsSrv(packet, after[i], name)
    ensures var s := ServiceOf(ApplyAll(packet, f, before + [srv] + after, t), name);
      && s.port == packet[srv.at + 4] as int * 256 + packet[srv.at + 5] as int
      && s.targetHost == ReadNameAt(packet, srv.at + 6).text
  {
    ServicesAreDescribed(packet, f, before + [srv] + after, t, name);
    LastSrvDescribes(packet, before, srv, after, t, name, ServiceOf(f, name));
  }

  lemma {:induction false} LastSrvDescribes(
    packet: Bytes, before: seq<Record>, srv: Record, after: seq<Record>, t: Texts, name: Bytes, known: Service)
    requires IsSrv(packet, srv, name) && forall i :: 0 <= i < |after| ==> !IsSrv(packet, after[i], name)
    ensures var s := Described(packet, before + [srv] + after, t, name, known);
      && s.port == packet[srv.at + 4] as int * 256 + packet[srv.at + 5] as int
      && s.targetHost == ReadNameAt(packet, srv.at + 6).text
    decreases |after|
  {
    if after == [] {
      assert before + [srv] + after == before + [srv];
      DescribedSnoc(packet, before, srv, t, name, known);
    } else {
      var init, last := after[..|after|-1], after[|after|-1];
      assert before + [srv] + after == (before + [srv] + init) + [last];
      LastSrvDescribes(packet, before, srv, init, t, name, known);
      DescribedSnoc(packet, before + [srv] + init, last, t, name, known);
    }
  }

  /** A record that speaks about a service of this name. */
  predicate Names(packet: Bytes, r: Record, name: Bytes) {
    Usable(packet, r) && (
      || ((r.rtype == TYPE_SRV || r.rtype == TYPE_TXT) && r.name == name)
      || (r.rtype == TYPE_PTR && ReadNameAt(packet, r.at).ok && ReadNameAt(packet, r.at).text == name))
  }

  /** No service is invented: each was known, or a usable record names it; and one
    * that no record names is left as it was. */
  lemma {:induction false} ServicesAreNamed(packet: Bytes, f: Found, records: seq<Record>, t: Texts, name: Bytes)
    requires forall i :: 0 <= i < |records| ==> !Names(packet, records[i], name)
    ensures name in ApplyAll(packet, f, records, t).services <==> name in f.services
    ensures name in f.services ==> ApplyAll(packet, f, records, t).services[name] == f.services[name]
    decreases |records|
  {
    if records == [] {
    } else {
      assert !Names(packet, records[0], name);
      ServicesAreNamed(packet, Apply(packet, f, records[0], t), records[1..], t, name);
    }
  }

  /** An address once known is only replaced by a later IPv4 record: an IPv6 record
    * never takes its place. */
  lemma {:induction false} Ipv4Wins(packet: Bytes, f: Found, records: seq<Record>, t: Texts, host: Bytes)
    requires host in f.hosts
    requires forall i :: 0 <= i < |records| ==> records[i].rtype != TYPE_A || Lower(records[i].name) != host
    ensures host in ApplyAll(packet, f, records, t).hosts && ApplyAll(packet, f, records, t).hosts[host] == f.hosts[host]
    decreases |records|
  {
    if records == [] {
    } else {
      assert records[0].rtype != TYPE_A || Lower(records[0].name) != host;
      Ipv4Wins(packet, Apply(packet, f, records[0], t), records[1..], t, host);
    }
  }

  function Addressed(s: Service, hosts: map<Bytes, Bytes>): Service {
    if s.targetHost != [] && Lower(s.targetHost) in hosts then s.(targetAddress := hosts[Lower(s.targetHost)]) else s
  }

  /** apply_host_addresses. */
  function WithAddresses(f: Found): Found {
    f.(services := map k | k in f.services :: Addressed(f.services[k], f.hosts))
  }

  /** When every record was read, a service has the fields the records describe and, if
    * its target host has an address, that address. */
  lemma ServicesAreComplete(packet: Bytes, f: Found, records: seq<Record>, t: Texts, name: Bytes)
    requires name in ApplyAll(packet, f, records, t).services
    ensures name in WithAddresses(ApplyAll(packet, f, records, t)).services
    ensures var s := Described(packet, records, t, name, ServiceOf(f, name));
      var address := AddressOf(packet, records, t, Lower(s.targetHost), Known(f.hosts, Lower(s.targetHost)));
      WithAddresses(ApplyAll(packet, f, records, t)).services[name]
        == s.(targetAddress := if s.targetHost != [] && address.Some? then address.value else s.targetAddress)
  {
    ServicesAreDescribed(packet, f, records, t, name);
    HostsAreAddressed(packet, f, records, t, Lower(Described(packet, records, t, name, ServiceOf(f, name)).targetHost));
  }

  /** The record loop from an offset on; addresses are applied only when every
    * record was read. */
  function Walk(packet: Bytes, offset: nat, count: nat, f: Found, t: Texts): Found
    decreases count
  {
    if count == 0 then WithAddresses(f)
    else
      match RecordAt(packet, offset)
      case None => f
      case Some(r) => Walk(packet, r.at + r.length, count - 1, Apply(packet, f, r, t), t)
  }

  lemma WalkStep(packet: Bytes, offset: nat, count: nat, f: Found, t: Texts)
    requires count > 0
    ensures Walk(packet, offset, count, f, t)
      == match RecordAt(packet, offset)
         case None => f
         case Some(r) => Walk(packet, r.at + r.length, count - 1, Apply(packet, f, r, t), t)
  {
  }

  /** The loop applies the records in order, each once. */
  lemma {:induction false} WalkAppliesRecords(packet: Bytes, offset: nat, count: nat, f: Found, t: Texts)
    ensures var (records, whole) := Records(packet, offset, count);
      Walk(packet, offset, count, f, t)
        == if whole then WithAddresses(ApplyAll(packet, f, records, t)) else ApplyAll(packet, f, records, t)
    decreases count
  {
    if count > 0 && RecordAt(packet, offset).Some? {
      var r := RecordAt(packet, offset).value;
      WalkAppliesRecords(packet, r.at + r.length, count - 1, Apply(packet, f, r, t), t);
      var rest := Records(packet, r.at + r.length, count - 1).0;
      assert ([r] + rest)[1..] == rest;
    }
  }

  function RecordCount(packet: Bytes): nat
    requires |packet| >= HEADER_SIZE
  {
    U16At(packet, 6) as int + U16At(packet, 8) as int + U16At(packet, 10) as int
  }

  function Response(packet: Bytes, f: Found, t: Texts): Found {
    if |packet| < HEADER_SIZE then f
    else
      match SkipQuestions(packet, HEADER_SIZE, U16At(packet, 4))
      case None => f
      case Some(start) => Walk(packet, start, RecordCount(packet), f, t)
  }

  /** The three loops of parse_response: every read is inside the packet, whatever
    * the bytes. */
  method ParseResponse(packet: Bytes, known: Found, t: Texts) returns (f: Found)
    ensures f == Response(packet, known, t)
  {
    f := known;
    if |packet| < HEADER_SIZE {
      return;
    }
    var offset: nat := HEADER_SIZE;
    var questions := U16At(packet, 4);
    for index := 0 to questions
      invariant SkipQuestions(packet, offset, questions - index) == SkipQuestions(packet, HEADER_SIZE, questions)
    {
      var r := ReadName(packet, offset);
      if !r.ok || r.offset + 4 > |packet| {
        return;
      }
      offset := r.offset + 4;
    }
    f := ParseRecords(packet, offset, RecordCount(packet), known, t);
  }

  method ParseRecords(packet: Bytes, start: nat, count: nat, known: Found, t: Texts) returns (f: Found)
    ensures f == Walk(packet, start, count, known, t)
  {
    f := known;
    var offset: nat := start;
    ghost var whole := Walk(packet, start, count, known, t);
    for index := 0 to count
      invariant Walk(packet, offset, count - index, f, t) == whole
    {
      var record := ReadRecord(packet, offset);
      WalkStep(packet, offset, count - index, f, t);
      if record.None? {
        return;
      }
      f := Apply(packet, f, record.value, t);
      offset := record.value.at + record.value.length;
    }
    f := WithAddresses(f);
  }

  method ReadRecord(packet: Bytes, offset: nat) returns (record: Option<Record>)
    ensures record == RecordAt(packet, offset)
  {
    var r := ReadName(packet, offset);
    if !r.ok || r.offset + 10 > |packet| {
      return None;
    }
    record := Some(Record(
      r.text, U16At(packet, r.offset), U16At(packet, r.offset + 2), r.offset + 10, U16At(packet, r.offset + 8)));
  }
}
