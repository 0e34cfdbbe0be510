/**
 * Conversions between 64-bit NTP time (seconds in the high word, a binary
 * fraction in the low word, section 6 of RFC 5905) and RTP frame counts.
 * Both run in unsigned 64-bit arithmetic, so each product and shift is
 * reduced modulo 2^64 here exactly where the C++ operator would wrap.
 */
module Timing {
  import opened Common

  function NtpToRtp(ntp: u64, rate: u32): u64 {
    ((ntp / U16) * rate % U64) / U16
  }

  function RtpToNtp(rtp: u64, rate: u32): u64
    requires rate != 0
  {
    (rtp * U16 % U64) / rate * U16 % U64
  }

  /** An RTP count whose NTP image stays inside the 2^32-second NTP era. */
  predicate InEra(rtp: int, rate: u32) {
    0 <= rtp < rate * U32
  }

  /** The scaling product is free of wrap-around for every NTP value exactly
    * when the sample rate is at most 65536. */
  lemma NoOverflowIffRate(rate: u32)
    ensures (forall ntp: u64 :: (ntp / U16) * rate < U64) <==> rate <= U16
  {
    if rate <= U16 {
      forall ntp: u64 ensures (ntp / U16) * rate < U64 {
        assert ntp / U16 <= 0xFFFF_FFFF_FFFF;
        MulMono(ntp / U16, 0xFFFF_FFFF_FFFF, rate);
      }
    } else {
      var top: u64 := U64 - 1;
      assert top / U16 == 0xFFFF_FFFF_FFFF;
      MulMono(U16 + 1, rate, 0xFFFF_FFFF_FFFF);
      assert !((top / U16) * rate < U64);
    }
  }

  lemma MulMono(a: nat, b: nat, c: nat)
    requires a <= b
    ensures a * c <= b * c
  {
  }

  /** For supported rates nothing wraps, and the result stays in the era. */
  lemma NtpToRtpExact(ntp: u64, rate: u32)
    requires 0 < rate <= U16
    ensures NtpToRtp(ntp, rate) == (ntp / U16) * rate / U16
    ensures InEra(NtpToRtp(ntp, rate), rate)
  {
    NoOverflowIffRate(rate);
    var h := ntp / U16;
    assert h < 0x1_0000_0000_0000;
    MulMono(h, 0xFFFF_FFFF_FFFF, rate);
    assert h * rate <= 0xFFFF_FFFF_FFFF * rate < rate * U32 * U16;
  }

  lemma RtpToNtpExact(rtp: u64, rate: u32)
    requires 0 < rate <= U16
    requires InEra(rtp, rate)
    ensures rtp * U16 < U64
    ensures rtp * U16 / rate < 0x1_0000_0000_0000
    ensures RtpToNtp(rtp, rate) == rtp * U16 / rate * U16
  {
    EraScales(rtp, rate);
    var scaled: nat := rtp * U16;
    QuotientFits(scaled, rate);
  }

  lemma QuotientFits(scaled: nat, rate: u32)
    requires rate > 0 && scaled < 0x1_0000_0000_0000 * rate && scaled < U64
    ensures 0 <= scaled / rate < 0x1_0000_0000_0000
    ensures (scaled % U64) / rate * U16 % U64 == scaled / rate * U16
  {
    DivLess(scaled, 0x1_0000_0000_0000, rate);
    NothingWraps(scaled, scaled / rate);
  }

  lemma NothingWraps(scaled: nat, q: nat)
    requires scaled < U64 && q < 0x1_0000_0000_0000
    ensures scaled % U64 == scaled && q * U16 % U64 == q * U16
  {
  }

  lemma EraScales(rtp: u64, rate: u32)
    requires 0 < rate <= U16 && InEra(rtp, rate)
    ensures rtp * U16 < 0x1_0000_0000_0000 * rate <= U64
  {
  }

  lemma DivLess(a: nat, b: nat, d: nat)
    requires d > 0 && a < b * d
    ensures a / d < b
  {
    var q := a / d;
    assert a == q * d + a % d;
    if q >= b {
      MulMono(b, q, d);
    }
  }

  /** Pins down a quotient from the product that brackets it. */
  lemma QuotientIs(a: nat, d: nat, q: int)
    requires d > 0 && q * d <= a < q * d + d
    ensures a / d == q
  {
    var r := a / d;
    assert r * d + a % d == a;
    if r < q {
      ProductGap(r, q, d);
    } else if r > q {
      ProductGap(q, r, d);
    }
  }

  lemma ProductGap(a: int, b: int, d: nat)
    requires a < b
    ensures a * d + d <= b * d
  {
    assert b * d == a * d + (b - a) * d;
    MulMono(1, b - a, d);
  }

  function CeilDiv(a: nat, d: nat): nat
    requires d > 0
  {
    (a + d - 1) / d
  }

  lemma CeilDivBounds(a: nat, d: nat)
    requires d > 0
    ensures (CeilDiv(a, d) - 1) * d < a || a == 0 == CeilDiv(a, d)
    ensures a <= CeilDiv(a, d) * d
  {
    var c := CeilDiv(a, d);
    assert c * d + (a + d - 1) % d == a + d - 1;
    assert (c - 1) * d == c * d - d;
    if a == 0 {
      QuotientIs(d - 1, d, 0);
    }
  }

  lemma CeilDivMono(a: nat, b: nat, d: nat)
    requires d > 0 && a <= b
    ensures CeilDiv(a, d) <= CeilDiv(b, d)
  {
    DivMono(a + d - 1, b + d - 1, d);
  }

  lemma DivMono(a: nat, b: nat, d: nat)
    requires d > 0 && a <= b
    ensures a / d <= b / d
  {
    DivLess(a, b / d + 1, d) by {
      assert (b / d) * d + b % d == b;
      assert (b / d + 1) * d == (b / d) * d + d;
    }
  }

  /** NTP to RTP and back never moves forward, and loses strictly less than
    * ceil(65535 / rate) + 1 units of 2^-16 second. */
  lemma NtpRoundTrip(ntp: u64, rate: u32)
    requires 0 < rate <= U16
    ensures var back := RtpToNtp(NtpToRtp(ntp, rate), rate);
            back <= ntp < back + (CeilDiv(0xFFFF, rate) + 1) * U16
  {
    var h := ntp / U16;
    NtpToRtpExact(ntp, rate);
    var r := NtpToRtp(ntp, rate);
    RtpToNtpExact(r, rate);
    var e := h * rate - r * U16;
    assert 0 <= e <= 0xFFFF;
    var c := CeilDiv(e, rate);
    CeilDivBounds(e, rate);
    CeilDivMono(e, 0xFFFF, rate);
    assert (h - c) * rate == h * rate - c * rate;
    assert (c - 1) * rate == c * rate - rate;
    QuotientIs(r * U16, rate, h - c);
    assert ntp - (h - c) * U16 == c * U16 + ntp % U16;
  }

  /** The loss at the two stream rates the sender accepts. */
  lemma StreamRateLoss(ntp: u64, rate: u32)
    requires rate == 44100 || rate == 48000
    ensures RtpToNtp(NtpToRtp(ntp, rate), rate) <= ntp < RtpToNtp(NtpToRtp(ntp, rate), rate) + 3 * U16
  {
    NtpRoundTrip(ntp, rate);
  }

  /** The stream clock read d frames after now, in units of a 44100th of 2^-32 seconds. */
  lemma StreamClock(now: u64, d: int)
    requires InEra(NtpToRtp(now, 44100) + d, 44100)
    ensures var ntp := RtpToNtp(NtpToRtp(now, 44100) + d, 44100);
      now * 44100 + d * U32 - (2 * 44100 + U16) * U16 < ntp * 44100 <= now * 44100 + d * U32
  {
    NtpToRtpExact(now, 44100);
    var r := NtpToRtp(now, 44100);
    RtpToNtpExact(r + d, 44100);
  }

  /** RTP to NTP and back loses at most one frame, and loses none exactly when
    * the rate divides the scaled count. */
  lemma RtpRoundTrip(rtp: u64, rate: u32)
    requires 0 < rate <= U16
    requires InEra(rtp, rate)
    ensures var back := NtpToRtp(RtpToNtp(rtp, rate), rate);
            back == (if rtp * U16 % rate == 0 then rtp else rtp - 1)
  {
    RtpToNtpExact(rtp, rate);
    var n := RtpToNtp(rtp, rate);
    NtpToRtpExact(n, rate);
    var q := rtp * U16 / rate;
    assert n / U16 == q;
    var e := rtp * U16 % rate;
    assert q * rate + e == rtp * U16;
    QuotientIs(q * rate, U16, if e == 0 then rtp else rtp - 1);
  }

  lemma NtpToRtpMonotone(a: u64, b: u64, rate: u32)
    requires 0 < rate <= U16
    requires a <= b
    ensures NtpToRtp(a, rate) <= NtpToRtp(b, rate)
  {
    NtpToRtpExact(a, rate);
    NtpToRtpExact(b, rate);
    MulMono(a / U16, b / U16, rate);
  }

  lemma RtpToNtpMonotone(a: u64, b: u64, rate: u32)
    requires 0 < rate <= U16
    requires a <= b && InEra(b, rate)
    ensures RtpToNtp(a, rate) <= RtpToNtp(b, rate)
  {
    RtpToNtpExact(a, rate);
    RtpToNtpExact(b, rate);
    DivMono(a * U16, b * U16, rate);
  }

  /** The era is exactly the range in which RTP to NTP is free of wrap-around. */
  lemma RtpFitsIffInEra(rtp: u64, rate: u32)
    requires 0 < rate <= U16
    ensures rtp * U16 < U64 && rtp * U16 / rate * U16 < U64 <==> InEra(rtp, rate)
  {
    if InEra(rtp, rate) {
      RtpToNtpExact(rtp, rate);
      NothingWraps(rtp * U16, rtp * U16 / rate);
    } else {
      var scaled: nat := rtp * U16;
      assert rate * 0x1_0000_0000_0000 <= scaled;
      DivMono(rate * 0x1_0000_0000_0000, scaled, rate);
      QuotientIs(rate * 0x1_0000_0000_0000, rate, 0x1_0000_0000_0000);
    }
  }

  /** Past it the conversion starts again at zero, so monotonicity ends there. */
  lemma EraEnds(rate: u32)
    requires 0 < rate <= U16
    ensures RtpToNtp(rate * U32, rate) == 0 < RtpToNtp(rate, rate)
  {
    QuotientIs(rate * 0x1_0000, rate, 0x1_0000);
    QuotientIs(rate * 0x1_0000_0000_0000, rate, 0x1_0000_0000_0000);
    assert rate * U32 * U16 == rate * 0x1_0000_0000_0000;
    if rate == U16 { assert rate * 0x1_0000_0000_0000 % U64 == 0; }
  }
}
