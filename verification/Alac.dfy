/**
 * The audio payload codecs: the uncompressed ALAC frame written bit by bit, and
 * the byte-swapped PCM payload. Both carry 352 stereo frames of 16-bit samples.
 */
module Alac {
  import opened Common

  const SAMPLES := 704           // 352 frames of two channels
  const HEADER_BITS := 23
  const FRAME_BYTES := 1412

  type bit = b: int | 0 <= b < 2

  function Pow2(n: nat): (p: nat)
    ensures p > 0
  {
    if n == 0 then 1 else 2 * Pow2(n - 1)
  }

  /** The low n bits of a value, most significant first. */
  function BitsOf(value: nat, n: nat): (bits: seq<bit>)
    ensures |bits| == n
  {
    if n == 0 then [] else BitsOf(value / 2, n - 1) + [value % 2]
  }

  /** The number a row of bits spells. */
  function ValueOf(bits: seq<bit>): nat {
    if bits == [] then 0 else 2 * ValueOf(bits[..|bits|-1]) + bits[|bits|-1]
  }

  lemma {:induction false} ValueOfBits(value: nat, n: nat)
    requires value < Pow2(n)
    ensures ValueOf(BitsOf(value, n)) == value
  {
    if n == 0 {
    } else {
      ValueOfBits(value / 2, n - 1);
      assert BitsOf(value, n)[..n-1] == BitsOf(value / 2, n - 1);
    }
  }

  function Bits(out: Bytes): (bits: seq<bit>)
    ensures |bits| == 8 * |out|
  {
    if out == [] then [] else Bits(out[..|out|-1]) + BitsOf(out[|out|-1], 8)
  }

  lemma BitsSnoc(out: Bytes, b: byte)
    ensures Bits(out + [b]) == Bits(out) + BitsOf(b, 8)
  {
    assert (out + [b])[..|out|] == out;
  }

  function Zeros(n: nat): (bits: seq<bit>)
    ensures |bits| == n
  {
    seq(n, i requires 0 <= i < n => 0)
  }

  lemma {:induction false} ShiftedBits(value: nat, n: nat, k: nat)
    ensures BitsOf(value * Pow2(k), n + k) == BitsOf(value, n) + Zeros(k)
  {
    if k == 0 {
    } else {
      ShiftedBits(value, n, k - 1);
      assert value * Pow2(k) == 2 * (value * Pow2(k - 1));
      assert Zeros(k) == Zeros(k - 1) + [0];
    }
  }

  lemma {:induction false} ShiftedFits(value: nat, n: nat, k: nat)
    requires value < Pow2(n)
    ensures value * Pow2(k) < Pow2(n + k)
  {
    if k == 0 {
    } else {
      ShiftedFits(value, n, k - 1);
      assert value * Pow2(k) == 2 * (value * Pow2(k - 1));
    }
  }

  lemma {:induction false} Pow2Mono(a: nat, b: nat)
    requires a <= b
    ensures Pow2(a) <= Pow2(b)
  {
    if a < b { Pow2Mono(a, b - 1); }
  }

  /** value >> n. */
  function Shifted(value: nat, n: nat): nat {
    if n == 0 then value else Shifted(value / 2, n - 1)
  }

  lemma {:induction false} Halved(value: nat, n: nat)
    ensures Shifted(value, n + 1) == Shifted(value, n) / 2
  {
    if n == 0 {
    } else {
      Halved(value / 2, n - 1);
    }
  }

  class BitWriter {
    var out: Bytes
    var current: byte
    var filled: nat

    ghost predicate Valid()
      reads this
    {
      filled < 8 && current < Pow2(filled)
    }

    /** Everything put so far: the whole bytes and the pending bits. */
    ghost function Contents(): seq<bit>
      reads this
    {
      Bits(out) + BitsOf(current, filled)
    }

    constructor ()
      ensures Valid() && Contents() == []
    {
      out, current, filled := [], 0, 0;
    }

    method PutBit(b: bit)
      requires Valid()
      modifies this
      ensures Valid() && Contents() == old(Contents()) + [b]
    {
      Pow2Mono(filled + 1, 8);
      assert Pow2(8) == 256;
      ghost var pending := BitsOf(current, filled);
      current := current * 2 + b;
      filled := filled + 1;
      assert BitsOf(current, filled) == pending + [b];
      if filled == 8 {
        BitsSnoc(out, current);
        out := out + [current];
        current := 0;
        filled := 0;
      }
    }

    method PutBits(value: nat, bits: nat)
      requires Valid()
      modifies this
      ensures Valid() && Contents() == old(Contents()) + BitsOf(value, bits)
    {
      var left := bits;
      while left > 0
        invariant 0 <= left <= bits && Valid()
        invariant Contents() == old(Contents()) + BitsOf(Shifted(value, left), bits - left)
      {
        left := left - 1;
        Halved(value, left);
        PutBit(Shifted(value, left) % 2);
      }
    }

    /** The last byte is filled up with zeros. */
    method Finish()
      requires Valid()
      modifies this
      ensures Bits(out) == old(Contents()) + Zeros((8 - old(filled)) % 8)
    {
      if filled > 0 {
        ShiftedFits(current, filled, 8 - filled);
        assert Pow2(8) == 256;
        ShiftedBits(current, filled, 8 - filled);
        BitsSnoc(out, current * Pow2(8 - filled));
        current := current * Pow2(8 - filled);
        out := out + [current];
      }
    }
  }

  // ---- samples

  /** Sample i of a little-endian buffer, zero past its last whole sample. */
  function SampleAt(input: Bytes, i: nat): u16 {
    if 2 * i + 1 < |input| then input[2 * i] as int + 256 * (input[2 * i + 1] as int) else 0
  }

  function Samples(input: Bytes): (s: seq<u16>)
    ensures |s| == SAMPLES
  {
    seq(SAMPLES, i requires 0 <= i < SAMPLES => SampleAt(input, i))
  }

  function SampleBits(samples: seq<u16>): (bits: seq<bit>)
    ensures |bits| == 16 * |samples|
  {
    if samples == [] then [] else SampleBits(samples[..|samples|-1]) + BitsOf(samples[|samples|-1], 16)
  }

  lemma {:induction false} SampleBitsAt(samples: seq<u16>, i: nat)
    requires i < |samples|
    ensures SampleBits(samples)[16 * i..16 * i + 16] == BitsOf(samples[i], 16)
  {
    var init, last := samples[..|samples|-1], BitsOf(samples[|samples|-1], 16);
    assert SampleBits(samples) == SampleBits(init) + last;
    if i < |init| {
      SampleBitsAt(init, i);
      assert (SampleBits(init) + last)[16 * i..16 * i + 16] == SampleBits(init)[16 * i..16 * i + 16];
    } else {
      assert (SampleBits(init) + last)[16 * i..16 * i + 16] == last;
    }
  }

  /** Channel tag, element instance, unused bits, size flag, shift, uncompressed flag. */
  function HeaderFields(): (bits: seq<bit>)
    ensures |bits| == HEADER_BITS
  {
    BitsOf(1, 3) + BitsOf(0, 4) + BitsOf(0, 12) + BitsOf(0, 1) + BitsOf(0, 2) + BitsOf(1, 1)
  }

  /** The header fields, the samples, the end tag and the byte padding. */
  function FrameBits(samples: seq<u16>): seq<bit> {
    HeaderFields() + SampleBits(samples) + BitsOf(7, 3) + Zeros(6)
  }

  lemma Regroup6(c: seq<bit>, d: seq<bit>, e: seq<bit>, f: seq<bit>, g: seq<bit>, h: seq<bit>, i: seq<bit>)
    ensures c + d + e + f + g + h + i == c + (d + e + f + g + h + i)
  {
  }

  method PutHeader(w: BitWriter)
    requires w.Valid()
    modifies w
    ensures w.Valid() && w.Contents() == old(w.Contents()) + HeaderFields()
  {
    ghost var c, d, e, f, g, h, i :=
      w.Contents(), BitsOf(1, 3), BitsOf(0, 4), BitsOf(0, 12), BitsOf(0, 1), BitsOf(0, 2), BitsOf(1, 1);
    Regroup6(c, d, e, f, g, h, i);
    w.PutBits(1, 3);
    w.PutBits(0, 4);
    w.PutBits(0, 12);
    w.PutBits(0, 1);
    w.PutBits(0, 2);
    w.PutBits(1, 1);
  }

  lemma SampleBitsStep(before: seq<bit>, samples: seq<u16>, i: nat)
    requires i < |samples|
    ensures (before + SampleBits(samples[..i])) + BitsOf(samples[i], 16) == before + SampleBits(samples[..i+1])
  {
    assert samples[..i+1][..i] == samples[..i];
  }

  method PutSamples(w: BitWriter, samples: seq<u16>)
    requires w.Valid()
    modifies w
    ensures w.Valid() && w.Contents() == old(w.Contents()) + SampleBits(samples)
  {
    ghost var before := w.Contents();
    for i := 0 to |samples|
      invariant w.Valid() && w.Contents() == before + SampleBits(samples[..i])
    {
      SampleBitsStep(before, samples, i);
      w.PutBits(samples[i], 16);
    }
    assert samples[..|samples|] == samples;
  }

  method PutEnd(w: BitWriter) returns (frame: Bytes)
    requires w.Valid() && |w.Contents()| == HEADER_BITS + 16 * SAMPLES
    modifies w
    ensures |frame| == FRAME_BYTES
    ensures Bits(frame) == old(w.Contents()) + BitsOf(7, 3) + Zeros(6)
  {
    ghost var before := w.Contents();
    w.PutBits(7, 3);
    FinishedSize(|w.out|, w.filled, |before|);
    w.Finish();
    frame := w.out;
  }

  method MakeAlacUncompressedFrame(input: Bytes) returns (frame: Bytes)
    ensures |frame| == FRAME_BYTES
    ensures Bits(frame) == FrameBits(Samples(input))
  {
    var w := new BitWriter();
    PutHeader(w);
    assert w.Contents() == HeaderFields();
    PutSamples(w, Samples(input));
    frame := PutEnd(w);
  }

  /** 11290 bits leave two in the last byte. */
  lemma FinishedSize(bytes: nat, filled: nat, bits: nat)
    requires filled < 8 && bits == HEADER_BITS + 16 * SAMPLES && bits + 3 == 8 * bytes + filled
    ensures filled == 2 && bytes == FRAME_BYTES - 1
  {
  }

  /** What a decoder reads: 16 bits at offset 23 + 16 i. */
  function DecodeSample(frame: Bytes, i: nat): nat
    requires |frame| == FRAME_BYTES && i < SAMPLES
  {
    ValueOf(Bits(frame)[HEADER_BITS + 16 * i..HEADER_BITS + 16 * i + 16])
  }

  /** Packing is lossless: any frame with these bits decodes to the samples. */
  lemma DecodeInvertsPacking(input: Bytes, frame: Bytes, i: nat)
    requires |frame| == FRAME_BYTES && Bits(frame) == FrameBits(Samples(input)) && i < SAMPLES
    ensures DecodeSample(frame, i) == SampleAt(input, i)
  {
    var samples := Samples(input);
    var tail := BitsOf(7, 3) + Zeros(6);
    assert FrameBits(samples) == HeaderFields() + SampleBits(samples) + tail;
    SampleBitsAt(samples, i);
    SliceInside(HeaderFields(), SampleBits(samples), tail, 16 * i);
    assert Pow2(16) == 65536 by { assert Pow2(8) == 256; }
    ValueOfBits(samples[i], 16);
  }

  /** The header of every frame: tag 001, no size field, no shift, uncompressed; and
    * behind the samples the end tag 111 and zeros. */
  lemma FrameMarks(input: Bytes, frame: Bytes)
    requires |frame| == FRAME_BYTES && Bits(frame) == FrameBits(Samples(input))
    ensures |Bits(frame)| == 11296
    ensures forall k :: 0 <= k < 23 ==> Bits(frame)[k] == if k == 2 || k == 22 then 1 else 0
    ensures forall k :: 11287 <= k < 11296 ==> Bits(frame)[k] == if k < 11290 then 1 else 0
  {
    var samples := SampleBits(Samples(input));
    var tail := BitsOf(7, 3) + Zeros(6);
    assert FrameBits(Samples(input)) == HeaderFields() + samples + tail;
    HeaderMarks();
    assert BitsOf(3, 2) == [1, 1] && BitsOf(7, 3) == [1, 1, 1];
    forall k | 0 <= k < 23 ensures Bits(frame)[k] == HeaderFields()[k] { }
    forall k | 11287 <= k < 11296 ensures Bits(frame)[k] == tail[k - 11287] { }
  }

  lemma HeaderMarks()
    ensures forall k :: 0 <= k < 23 ==> HeaderFields()[k] == if k == 2 || k == 22 then 1 else 0
  {
    var tag, instance, unused, size, shift, raw :=
      BitsOf(1, 3), BitsOf(0, 4), BitsOf(0, 12), BitsOf(0, 1), BitsOf(0, 2), BitsOf(1, 1);
    assert BitsOf(1, 1) == [1] && tag == [0, 0] + [1];
    NoBits(4);
    NoBits(12);
    NoBits(1);
    NoBits(2);
    forall k | 0 <= k < 23
      ensures HeaderFields()[k] ==
        if k < 3 then tag[k] else if k < 7 then instance[k - 3] else if k < 19 then unused[k - 7]
        else if k < 20 then size[k - 19] else if k < 22 then shift[k - 20] else raw[k - 22]
    {
    }
  }

  lemma {:induction false} NoBits(n: nat)
    ensures BitsOf(0, n) == Zeros(n)
  {
    if n == 0 {
    } else {
      NoBits(n - 1);
      assert Zeros(n) == Zeros(n - 1) + [0];
    }
  }

  lemma SliceInside(a: seq<bit>, b: seq<bit>, c: seq<bit>, at: nat)
    requires at + 16 <= |b|
    ensures (a + b + c)[|a| + at..|a| + at + 16] == b[at..at + 16]
  {
  }

  /** The bytes that survive: whole samples, cut or zero-filled to 352 frames. */
  function Padded(input: Bytes): (r: Bytes)
    ensures |r| == 2 * SAMPLES
  {
    seq(2 * SAMPLES, k requires 0 <= k < 2 * SAMPLES => if k / 2 < |input| / 2 then input[k] else 0)
  }

  /** The decoded samples, written back in little-endian order, are the input. */
  lemma DecodedBytes(input: Bytes, frame: Bytes, i: nat)
    requires |frame| == FRAME_BYTES && Bits(frame) == FrameBits(Samples(input)) && i < SAMPLES
    ensures Padded(input)[2 * i] == DecodeSample(frame, i) % 256
    ensures Padded(input)[2 * i + 1] == DecodeSample(frame, i) / 256
  {
    DecodeInvertsPacking(input, frame, i);
    SampleBytes(input, i);
  }

  /** A whole packet comes back byte for byte. */
  lemma WholePacketSurvives(input: Bytes, frame: Bytes, i: nat)
    requires |input| == 2 * SAMPLES && i < SAMPLES
    requires |frame| == FRAME_BYTES && Bits(frame) == FrameBits(Samples(input))
    ensures input[2 * i] == DecodeSample(frame, i) % 256 && input[2 * i + 1] == DecodeSample(frame, i) / 256
  {
    WholePacketFits(input);
    DecodedBytes(input, frame, i);
  }

  /** The sample a decoder finds is the little-endian one of the packet. */
  lemma DecodedSample(input: Bytes, frame: Bytes, i: nat)
    requires |input| == 2 * SAMPLES && i < SAMPLES
    requires |frame| == FRAME_BYTES && Bits(frame) == FrameBits(Samples(input))
    ensures DecodeSample(frame, i) == input[2 * i] as int + 256 * (input[2 * i + 1] as int)
  {
    WholePacketSurvives(input, frame, i);
  }

  lemma WholePacketFits(input: Bytes)
    requires |input| == 2 * SAMPLES
    ensures Padded(input) == input
  {
  }

  lemma SampleBytes(input: Bytes, i: nat)
    requires i < SAMPLES
    ensures SampleAt(input, i) % 256 == Padded(input)[2 * i] && SampleAt(input, i) / 256 == Padded(input)[2 * i + 1]
  {
    if 2 * i + 1 < |input| {
      var low, high := input[2 * i], input[2 * i + 1];
      assert i < |input| / 2;
    } else {
      assert i >= |input| / 2;
    }
  }

  // ---- the PCM payload

  /** Sample i of a big-endian payload. */
  function BigEndianAt(payload: Bytes, i: nat): u16
    requires 2 * i + 1 < |payload|
  {
    256 * (payload[2 * i] as int) + payload[2 * i + 1] as int
  }

  method MakePcmPayload(input: Bytes) returns (payload: array<byte>)
    ensures fresh(payload) && payload.Length == 2 * SAMPLES
    ensures forall i :: 0 <= i < SAMPLES ==> BigEndianAt(payload[..], i) == SampleAt(input, i)
  {
    payload := new byte[2 * SAMPLES](_ => 0);
    var samplesToCopy := Min(SAMPLES, |input| / 2);
    for index := 0 to samplesToCopy
      invariant forall i :: 0 <= i < index ==>
        payload[2 * i] == input[2 * i + 1] && payload[2 * i + 1] == input[2 * i]
      invariant forall k :: 2 * index <= k < 2 * SAMPLES ==> payload[k] == 0
    {
      payload[2 * index] := input[2 * index + 1];
      payload[2 * index + 1] := input[2 * index];
    }
  }

  /** Both encodings carry the same samples, whatever the input length. */
  lemma EncodingsAgree(input: Bytes, frame: Bytes, payload: Bytes, i: nat)
    requires |frame| == FRAME_BYTES && Bits(frame) == FrameBits(Samples(input))
    requires |payload| == 2 * SAMPLES && forall j :: 0 <= j < SAMPLES ==> BigEndianAt(payload, j) == SampleAt(input, j)
    requires i < SAMPLES
    ensures DecodeSample(frame, i) == BigEndianAt(payload, i)
  {
    DecodeInvertsPacking(input, frame, i);
  }
}
