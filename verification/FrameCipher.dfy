/**
 * The encrypted channel framing: a two-byte little-endian length, the sealed
 * chunk and its 16-byte tag, numbered by a 64-bit counter. The cipher itself is
 * a pair of functions of which only the AEAD law is used (section 2.8 of RFC
 * 8439).
 */
module FrameCipher {
  import opened Common

  const CHUNK_SIZE := 1024
  const TAG_SIZE := 16
  const KEY_SIZE := 32

  /** seal(key, counter, plaintext, header) and open(key, counter, sealed, header);
    * the counter stands for the nonce made from it. */
  datatype Aead = Aead(
    seal: (Bytes, u64, Bytes, Bytes) -> Bytes,
    open: (Bytes, u64, Bytes, Bytes) -> Option<Bytes>)

  /** One direction of a channel. */
  datatype Channel = Channel(aead: Aead, key: Bytes)

  ghost predicate Lawful(a: Aead) {
    forall key: Bytes, n: u64, p: Bytes, header: Bytes ::
      && |a.seal(key, n, p, header)| == |p| + TAG_SIZE
      && a.open(key, n, a.seal(key, n, p, header), header) == Some(p)
  }

  function Next(counter: u64): u64 { (counter + 1) % U64 }

  function After(counter: u64, frames: nat): u64 { (counter + frames) % U64 }

  function Le16(n: u16): Bytes { [n % 256, n / 256] }

  function ReadLe16(b: Bytes): (n: u16)
    requires |b| >= 2
  {
    b[0] as int + 256 * (b[1] as int)
  }

  /** How many frames a plaintext takes: 1024 bytes each, and the rest in the last. */
  predicate Cut(plaintext: Bytes, chunks: seq<Bytes>) {
    forall i :: 0 <= i < |chunks| ==>
      |chunks[i]| == if i < |chunks| - 1 then 1024 else |plaintext| - 1024 * (|chunks| - 1)
  }

  // ---- the writer  // ---- the writer

  function Frame(c: Channel, chunk: Bytes, counter: u64): Bytes
    requires |chunk| < U16
  {
    Le16(|chunk|) + c.aead.seal(c.key, counter, chunk, Le16(|chunk|))
  }

  predicate Sized(chunks: seq<Bytes>) { forall i :: 0 <= i < |chunks| ==> |chunks[i]| < U16 }

  function Encode(c: Channel, chunks: seq<Bytes>, counter: u64): Bytes
    requires Sized(chunks)
    decreases |chunks|
  {
    if chunks == [] then [] else Frame(c, chunks[0], counter) + Encode(c, chunks[1..], Next(counter))
  }

  /** A plaintext cut into chunks of at most 1024 bytes; an empty one has none. */
  function Chunks(plaintext: Bytes): (r: seq<Bytes>)
    ensures Flatten(r) == plaintext
    ensures forall i :: 0 <= i < |r| ==> 0 < |r[i]| <= CHUNK_SIZE
  {
    if plaintext == [] then []
    else
      var n := Min(CHUNK_SIZE, |plaintext|);
      assert plaintext == plaintext[..n] + plaintext[n..];
      [plaintext[..n]] + Chunks(plaintext[n..])
  }

  function Seal(c: Channel, plaintext: Bytes, counter: u64): Bytes { Encode(c, Chunks(plaintext), counter) }

  /** Messages sealed one after the other, each from where the counter then is. */
  function SealAll(c: Channel, messages: seq<Bytes>, counter: u64): Bytes
    decreases |messages|
  {
    if messages == [] then []
    else Seal(c, messages[0], counter) + SealAll(c, messages[1..], After(counter, |Chunks(messages[0])|))
  }

  function AllChunks(messages: seq<Bytes>): (r: seq<Bytes>)
    ensures Sized(r)
  {
    if messages == [] then [] else Chunks(messages[0]) + AllChunks(messages[1..])
  }

  lemma {:induction false} ChunksAreCut(plaintext: Bytes)
    ensures Cut(plaintext, Chunks(plaintext))
    ensures |Chunks(plaintext)| == (|plaintext| + 1023) / 1024
  {
    if |plaintext| <= 1024 {
      if plaintext != [] {
        assert plaintext[|plaintext|..] == [];
        assert Chunks(plaintext) == [plaintext[..|plaintext|]] + [];
      }
    } else {
      ChunksAreCut(plaintext[1024..]);
      var rest := Chunks(plaintext[1024..]);
      assert Chunks(plaintext) == [plaintext[..1024]] + rest;
    }
  }

  /** One frame on the wire: two length bytes, low byte first, which are also the
    * additional data, then the sealed chunk with its 16-byte tag. */
  lemma FrameLayout(c: Channel, chunk: Bytes, counter: u64)
    requires Lawful(c.aead) && |chunk| < 65536
    ensures var f := Frame(c, chunk, counter);
      && |f| == |chunk| + 18 && f[0] as int + 256 * (f[1] as int) == |chunk|
      && f[2..] == c.aead.seal(c.key, counter, chunk, f[..2])
  {
    var f := Frame(c, chunk, counter);
    assert f[..2] == Le16(|chunk|);
  }

  lemma SealNothing(c: Channel, plaintext: Bytes, counter: u64)
    requires plaintext == []
    ensures Seal(c, plaintext, counter) == [] && After(counter, |Chunks(plaintext)|) == counter
  {
  }

  lemma SealStep(c: Channel, plaintext: Bytes, offset: nat, counter: u64)
    requires offset < |plaintext|
    ensures var n := Min(CHUNK_SIZE, |plaintext| - offset);
      && Seal(c, plaintext[offset..], counter)
           == Frame(c, plaintext[offset..offset + n], counter) + Seal(c, plaintext[offset + n..], Next(counter))
      && After(counter, |Chunks(plaintext[offset..])|) == After(Next(counter), |Chunks(plaintext[offset + n..])|)
  {
    var n := Min(CHUNK_SIZE, |plaintext| - offset);
    var here := plaintext[offset..];
    assert here[..n] == plaintext[offset..offset + n] && here[n..] == plaintext[offset + n..];
    assert Chunks(here)[1..] == Chunks(here[n..]);
    AfterAdds(counter, 1, |Chunks(here[n..])|);
  }

  lemma AfterAdds(counter: u64, a: nat, b: nat)
    ensures After(After(counter, a), b) == After(counter, a + b)
    ensures After(counter, 0) == counter && Next(counter) == After(counter, 1)
  {
    ModAdd(counter + a, b, U64);
  }

  lemma {:induction false} EncodeAppend(c: Channel, a: seq<Bytes>, b: seq<Bytes>, counter: u64)
    requires Sized(a) && Sized(b)
    ensures Encode(c, a + b, counter) == Encode(c, a, counter) + Encode(c, b, After(counter, |a|))
    decreases |a|
  {
    AfterAdds(counter, 1, |a| - if a == [] then 0 else 1);
    if a == [] {
      assert a + b == b;
    } else {
      assert (a + b)[1..] == a[1..] + b;
      EncodeAppend(c, a[1..], b, Next(counter));
    }
  }

  lemma {:induction false} SealAllEncodes(c: Channel, messages: seq<Bytes>, counter: u64)
    ensures SealAll(c, messages, counter) == Encode(c, AllChunks(messages), counter)
    decreases |messages|
  {
    if messages == [] {
    } else {
      EncodeAppend(c, Chunks(messages[0]), AllChunks(messages[1..]), counter);
      SealAllEncodes(c, messages[1..], After(counter, |Chunks(messages[0])|));
    }
  }

  lemma {:induction false} AllChunksFlatten(messages: seq<Bytes>)
    ensures Flatten(AllChunks(messages)) == Flatten(messages)
  {
    if messages == [] {
    } else {
      FlattenAppend(Chunks(messages[0]), AllChunks(messages[1..]));
      AllChunksFlatten(messages[1..]);
    }
  }

  // ---- the reader

  /** What a pass over a buffer yields: complete frames, the bytes left over and
    * the counter reached. ok is false when a frame failed authentication. */
  datatype Parsed = Parsed(frames: seq<Bytes>, rest: Bytes, counter: u64, ok: bool)

  function FrameSize(buffer: Bytes): nat
    requires |buffer| >= 2
  {
    2 + ReadLe16(buffer) + TAG_SIZE
  }

  predicate Complete(buffer: Bytes) { |buffer| >= 2 && |buffer| >= FrameSize(buffer) }

  function OpenFirst(c: Channel, buffer: Bytes, counter: u64): Option<Bytes>
    requires Complete(buffer)
  {
    c.aead.open(c.key, counter, buffer[2..FrameSize(buffer)], buffer[..2])
  }

  function Behind(buffer: Bytes): Bytes
    requires Complete(buffer)
  {
    buffer[FrameSize(buffer)..]
  }

  function Prepended(frames: seq<Bytes>, r: Parsed): Parsed {
    Parsed(frames + r.frames, r.rest, r.counter, r.ok)
  }

  function Parse(c: Channel, buffer: Bytes, counter: u64): Parsed
    decreases |buffer|
  {
    if !Complete(buffer) then Parsed([], buffer, counter, true)
    else
      match OpenFirst(c, buffer, counter)
      case None => Parsed([], buffer, Next(counter), false)
      case Some(p) => Prepended([p], Parse(c, Behind(buffer), Next(counter)))
  }

  lemma PrependedTwice(a: seq<Bytes>, b: seq<Bytes>, r: Parsed)
    ensures Prepended(a, Prepended(b, r)) == Prepended(a + b, r)
    ensures Prepended([], r) == r
  {
    assert a + (b + r.frames) == (a + b) + r.frames;
  }

  /** New bytes at the end do not change how a complete first frame reads. */
  lemma FirstIsStable(c: Channel, buffer: Bytes, more: Bytes, counter: u64)
    requires Complete(buffer)
    ensures Complete(buffer + more)
    ensures OpenFirst(c, buffer + more, counter) == OpenFirst(c, buffer, counter)
    ensures Behind(buffer + more) == Behind(buffer) + more
  {
    var size := FrameSize(buffer);
    var all := buffer + more;
    assert all[0] == buffer[0] && all[1] == buffer[1];
    assert all[2..size] == buffer[2..size] && all[..2] == buffer[..2];
  }

  /** The reader is incremental: what a longer buffer yields is what the shorter
    * one yields, then what its leftover yields with the new bytes behind it. */
  lemma {:induction false} ParseAppend(c: Channel, buffer: Bytes, more: Bytes, counter: u64)
    requires Parse(c, buffer, counter).ok
    ensures var r := Parse(c, buffer, counter);
      Parse(c, buffer + more, counter) == Prepended(r.frames, Parse(c, r.rest + more, r.counter))
    decreases |buffer|
  {
    if Complete(buffer) {
      FirstIsStable(c, buffer, more, counter);
      ParseAppend(c, Behind(buffer), more, Next(counter));
      var r := Parse(c, Behind(buffer), Next(counter));
      PrependedTwice([OpenFirst(c, buffer, counter).value], r.frames, Parse(c, r.rest + more, r.counter));
    } else {
      PrependedTwice([], [], Parse(c, buffer + more, counter));
    }
  }

  /** A leftover yields nothing more by itself. */
  lemma {:induction false} ParseSettles(c: Channel, buffer: Bytes, counter: u64)
    requires Parse(c, buffer, counter).ok
    ensures !Complete(Parse(c, buffer, counter).rest)
    decreases |buffer|
  {
    if Complete(buffer) { ParseSettles(c, Behind(buffer), Next(counter)); }
  }

  lemma Le16RoundTrip(n: u16, tail: Bytes)
    ensures ReadLe16(Le16(n) + tail) == n
  {
  }

  lemma FrameReads(c: Channel, chunk: Bytes, counter: u64, tail: Bytes)
    requires Lawful(c.aead) && |chunk| < U16
    ensures var f := Frame(c, chunk, counter);
      && |f| == 2 + |chunk| + TAG_SIZE
      && Complete(f + tail) && OpenFirst(c, f + tail, counter) == Some(chunk) && Behind(f + tail) == tail
  {
    var f := Frame(c, chunk, counter);
    var sealed := c.aead.seal(c.key, counter, chunk, Le16(|chunk|));
    assert f + tail == Le16(|chunk|) + (sealed + tail);
    Le16RoundTrip(|chunk|, sealed + tail);
    assert (f + tail)[2..|f|] == sealed && (f + tail)[..2] == Le16(|chunk|);
  }

  lemma CutFrameIsIncomplete(c: Channel, chunk: Bytes, counter: u64, n: nat)
    requires Lawful(c.aead) && |chunk| < U16 && n < |Frame(c, chunk, counter)|
    ensures !Complete(Frame(c, chunk, counter)[..n])
  {
    if n >= 2 {
      var f := Frame(c, chunk, counter);
      Le16RoundTrip(|chunk|, f[2..n]);
      assert f[..n] == Le16(|chunk|) + f[2..n];
      FrameReads(c, chunk, counter, []);
    }
  }

  /** r is what reading data, a prefix of a stream of chunks, must give: exactly
    * the complete frames, in order, the counter one higher per frame, and the
    * unconsumed suffix kept. */
  ghost predicate Reads(c: Channel, chunks: seq<Bytes>, counter: u64, data: Bytes, r: Parsed)
    requires Sized(chunks)
  {
    && r.ok && r.frames <= chunks && Sized(r.frames)
    && r.counter == After(counter, |r.frames|)
    && Encode(c, r.frames, counter) + r.rest == data
    && (|r.frames| < |chunks| ==> |r.rest| < |Frame(c, chunks[|r.frames|], r.counter)|)
    && (r.frames == chunks ==> r.rest == [])
  }

  lemma {:induction false} ParsePrefix(c: Channel, chunks: seq<Bytes>, counter: u64, n: nat)
    requires Lawful(c.aead) && Sized(chunks) && n <= |Encode(c, chunks, counter)|
    ensures Reads(c, chunks, counter, Encode(c, chunks, counter)[..n], Parse(c, Encode(c, chunks, counter)[..n], counter))
    decreases |chunks|
  {
    AfterAdds(counter, 0, 0);
    if chunks == [] {
    } else {
      var f := Frame(c, chunks[0], counter);
      var rest := Encode(c, chunks[1..], Next(counter));
      if n < |f| {
        assert (f + rest)[..n] == f[..n];
        CutFrameIsIncomplete(c, chunks[0], counter, n);
      } else {
        var tail := rest[..n - |f|];
        assert (f + rest)[..n] == f + tail;
        ParsePrefix(c, chunks[1..], Next(counter), n - |f|);
        ParseFrame(c, chunks[0], counter, tail);
        ReadsCons(c, chunks, counter, tail, Parse(c, tail, Next(counter)));
      }
    }
  }

  lemma ParseFrame(c: Channel, chunk: Bytes, counter: u64, tail: Bytes)
    requires Lawful(c.aead) && |chunk| < U16
    ensures Parse(c, Frame(c, chunk, counter) + tail, counter) == Prepended([chunk], Parse(c, tail, Next(counter)))
  {
    FrameReads(c, chunk, counter, tail);
  }

  lemma ReadsCons(c: Channel, chunks: seq<Bytes>, counter: u64, tail: Bytes, s: Parsed)
    requires Sized(chunks) && chunks != [] && Reads(c, chunks[1..], Next(counter), tail, s)
    ensures Reads(c, chunks, counter, Frame(c, chunks[0], counter) + tail, Prepended([chunks[0]], s))
  {
    PrefixCons(chunks, s.frames);
    FramesCons(c, chunks[0], s.frames, counter);
    AfterAdds(counter, 1, |s.frames|);
    Regroup(Frame(c, chunks[0], counter), Encode(c, s.frames, Next(counter)), s.rest);
  }

  lemma Regroup(a: Bytes, b: Bytes, c: Bytes)
    ensures a + (b + c) == (a + b) + c
  {
  }

  lemma PrefixCons(chunks: seq<Bytes>, some: seq<Bytes>)
    requires chunks != [] && some <= chunks[1..]
    ensures [chunks[0]] + some <= chunks
    ensures [chunks[0]] + some == chunks ==> some == chunks[1..]
  {
    assert chunks == [chunks[0]] + chunks[1..];
  }

  lemma FramesCons(c: Channel, chunk: Bytes, frames: seq<Bytes>, counter: u64)
    requires |chunk| < U16 && Sized(frames)
    ensures Sized([chunk] + frames)
    ensures Encode(c, [chunk] + frames, counter) == Frame(c, chunk, counter) + Encode(c, frames, Next(counter))
  {
    assert ([chunk] + frames)[1..] == frames;
  }

  /** Everything an encrypt_frame call wrote comes back as its plaintext. */
  lemma RoundTrip(c: Channel, plaintext: Bytes, counter: u64)
    requires Lawful(c.aead)
    ensures var r := Parse(c, Seal(c, plaintext, counter), counter);
      && r.ok && r.rest == [] && Flatten(r.frames) == plaintext
      && r.counter == After(counter, (|plaintext| + CHUNK_SIZE - 1) / CHUNK_SIZE)
  {
    var chunks := Chunks(plaintext);
    var stream := Encode(c, chunks, counter);
    assert stream[..|stream|] == stream;
    ParseWhole(c, chunks, counter);
    ChunkCount(plaintext);
  }

  lemma {:induction false} ParseWhole(c: Channel, chunks: seq<Bytes>, counter: u64)
    requires Lawful(c.aead) && Sized(chunks)
    ensures Parse(c, Encode(c, chunks, counter), counter) == Parsed(chunks, [], After(counter, |chunks|), true)
    decreases |chunks|
  {
    AfterAdds(counter, 1, |chunks| - if chunks == [] then 0 else 1);
    if chunks == [] {
    } else {
      ParseWhole(c, chunks[1..], Next(counter));
      FrameReads(c, chunks[0], counter, Encode(c, chunks[1..], Next(counter)));
      assert chunks == [chunks[0]] + chunks[1..];
    }
  }

  lemma {:induction false} ChunkCount(plaintext: Bytes)
    ensures |Chunks(plaintext)| == (|plaintext| + CHUNK_SIZE - 1) / CHUNK_SIZE
    decreases |plaintext|
  {
    if |plaintext| > CHUNK_SIZE { ChunkCount(plaintext[CHUNK_SIZE..]); }
    else if plaintext != [] { assert plaintext[|plaintext|..] == []; }
  }

  class AirPlay2FrameCipher {
    const aead: Aead
    const writeKey: Bytes
    const readKey: Bytes
    var encryptedBuffer: Bytes
    var sendCounter: u64
    var receiveCounter: u64

    constructor (aead: Aead, writeKey: Bytes, readKey: Bytes)
      ensures this.aead == aead && this.writeKey == writeKey && this.readKey == readKey
      ensures encryptedBuffer == [] && sendCounter == 0 && receiveCounter == 0
    {
      this.aead, this.writeKey, this.readKey := aead, writeKey, readKey;
      encryptedBuffer, sendCounter, receiveCounter := [], 0, 0;
    }

    /** null stands for the rejected key lengths. */
    static method Create(aead: Aead, writeKey: Bytes, readKey: Bytes) returns (cipher: AirPlay2FrameCipher?)
      ensures cipher == null <==> |writeKey| != KEY_SIZE || |readKey| != KEY_SIZE
      ensures cipher != null ==> fresh(cipher) && cipher.Writer() == Channel(aead, writeKey)
                                 && cipher.Reader() == Channel(aead, readKey) && cipher.encryptedBuffer == []
                                 && cipher.sendCounter == 0 && cipher.receiveCounter == 0
    {
      if |writeKey| != KEY_SIZE || |readKey| != KEY_SIZE {
        return null;
      }
      cipher := new AirPlay2FrameCipher(aead, writeKey, readKey);
    }

    function Writer(): Channel { Channel(aead, writeKey) }

    function Reader(): Channel { Channel(aead, readKey) }

    method EncryptChunk(chunk: Bytes) returns (frame: Bytes)
      requires |chunk| < U16
      modifies `sendCounter
      ensures frame == Frame(Writer(), chunk, old(sendCounter)) && sendCounter == Next(old(sendCounter))
    {
      var header := Le16(|chunk|);
      frame := header + aead.seal(writeKey, sendCounter, chunk, header);
      sendCounter := Next(sendCounter);
    }

    method EncryptFrame(plaintext: Bytes) returns (framed: Bytes)
      modifies `sendCounter
      ensures framed == Seal(Writer(), plaintext, old(sendCounter))
      ensures sendCounter == After(old(sendCounter), |Chunks(plaintext)|)
    {
      framed := [];
      var offset := 0;
      assert plaintext[0..] == plaintext;
      ghost var whole := Seal(Writer(), plaintext, sendCounter);
      ghost var last := After(sendCounter, |Chunks(plaintext)|);
      while offset < |plaintext|
        invariant 0 <= offset <= |plaintext|
        invariant framed + Seal(Writer(), plaintext[offset..], sendCounter) == whole
        invariant After(sendCounter, |Chunks(plaintext[offset..])|) == last
      {
        var chunkSize := Min(CHUNK_SIZE, |plaintext| - offset);
        SealStep(Writer(), plaintext, offset, sendCounter);
        var frame := EncryptChunk(plaintext[offset..offset + chunkSize]);
        offset := offset + chunkSize;
        ghost var rest := Seal(Writer(), plaintext[offset..], sendCounter);
        assert framed + (frame + rest) == (framed + frame) + rest;
        framed := framed + frame;
      }
      SealNothing(Writer(), plaintext[offset..], sendCounter);
    }

    /** None stands for the authentication exception: the frames of this call are
      * lost and the buffer is left untrimmed, but the counter has moved. */
    method DecryptAvailable(bytes: Bytes) returns (result: Option<seq<Bytes>>)
      modifies `encryptedBuffer, `receiveCounter
      ensures var r := Parse(Reader(), old(encryptedBuffer) + bytes, old(receiveCounter));
        && receiveCounter == r.counter
        && result == (if r.ok then Some(r.frames) else None)
        && encryptedBuffer == (if r.ok then r.rest else old(encryptedBuffer) + bytes)
    {
      encryptedBuffer := encryptedBuffer + bytes;
      var buffer := encryptedBuffer;
      var frames: seq<Bytes> := [];
      var offset := 0;
      assert buffer[0..] == buffer;
      PrependedTwice([], [], Parse(Reader(), buffer, receiveCounter));
      while Complete(buffer[offset..])
        invariant 0 <= offset <= |buffer| && encryptedBuffer == buffer
        invariant Prepended(frames, Parse(Reader(), buffer[offset..], receiveCounter))
               == Parse(Reader(), buffer, old(receiveCounter))
        decreases |buffer| - offset
      {
        var here := buffer[offset..];
        var plaintext := OpenFirst(Reader(), here, receiveCounter);
        receiveCounter := Next(receiveCounter);
        if plaintext.None? {
          return None;
        }
        PrependedTwice(frames, [plaintext.value], Parse(Reader(), Behind(here), receiveCounter));
        frames := frames + [plaintext.value];
        offset := offset + FrameSize(here);
        assert buffer[offset..] == Behind(here);
      }
      assert frames + [] == frames;
      encryptedBuffer := encryptedBuffer[offset..];
      result := Some(frames);
    }
  }
}
