/** Widths, bytes and small generic helpers shared by every module. */
module Common {

  const U16 := 0x1_0000
  const U32 := 0x1_0000_0000
  const U64 := 0x1_0000_0000_0000_0000

  type byte = b: int | 0 <= b < 256
  type u16 = x: int | 0 <= x < 0x1_0000
  type u32 = x: int | 0 <= x < 0x1_0000_0000
  type u64 = x: int | 0 <= x < 0x1_0000_0000_0000_0000
  type i32 = x: int | -0x8000_0000 <= x < 0x8000_0000

  type Bytes = seq<byte>

  datatype Option<+T> = None | Some(value: T)

  /** An output id. The empty text is the "no id" the source rejects or skips. */
  datatype Id = Id(text: string)

  const NO_ID := Id("")

  function Min(a: int, b: int): int { if a <= b then a else b }

  function Max(a: int, b: int): int { if a >= b then a else b }

  function Clamp(x: int, lo: int, hi: int): int { if x < lo then lo else if x > hi then hi else x }

  /** C++ integer division: the quotient is truncated toward zero. */
  function TruncDiv(a: int, b: int): int
    requires b > 0
  {
    if a >= 0 then a / b else -((-a) / b)
  }

  /** Reducing modulo 2^64 first does not disturb a later reduction modulo 2^32. */
  lemma Mod64Then32(x: int)
    ensures x % U64 % U32 == x % U32
  {
    var q, r := x / U64, x % U64;
    var p, t := r / U32, r % U32;
    assert x == 0x1_0000_0000 * (0x1_0000_0000 * q + p) + t;
    ModUnique(x, U32, 0x1_0000_0000 * q + p, t);
  }

  lemma ModUnique(x: int, d: nat, q: int, r: int)
    requires d > 0 && x == d * q + r && 0 <= r < d
    ensures x % d == r && x / d == q
  {
    var q', r' := x / d, x % d;
    assert x == d * q' + r';
    if q > q' { MulGap(d, q', q); }
    if q < q' { MulGap(d, q, q'); }
  }

  lemma MulGap(d: nat, a: int, b: int)
    requires a < b
    ensures d * a + d <= d * b
  {
    var k: nat := b - a - 1;
    assert d * b == d * a + d + d * k;
    assert d * k >= 0;
  }

  lemma ModAdd(x: int, y: int, d: nat)
    requires d > 0
    ensures (x % d + y) % d == (x + y) % d
  {
    var q := x / d;
    var z := x % d + y;
    assert x == d * q + x % d;
    ModUnique(x + y, d, q + z / d, z % d) by {
      assert z == d * (z / d) + z % d;
      assert d * (q + z / d) == d * q + d * (z / d);
    }
  }

  /** The concatenation of a sequence of sequences. */
  function Flatten<T>(parts: seq<seq<T>>): seq<T> {
    if parts == [] then [] else parts[0] + Flatten(parts[1..])
  }

  lemma {:induction false} FlattenAppend<T>(a: seq<seq<T>>, b: seq<seq<T>>)
    ensures Flatten(a + b) == Flatten(a) + Flatten(b)
  {
    if a == [] {
      assert a + b == b;
    } else {
      assert (a + b)[1..] == a[1..] + b;
      FlattenAppend(a[1..], b);
    }
  }

  /** The first position of a byte, or the length. */
  function Find(s: Bytes, b: byte): (i: nat)
    ensures i <= |s|
    ensures forall j :: 0 <= j < i ==> s[j] != b
    ensures i < |s| ==> s[i] == b
  {
    if s == [] || s[0] == b then 0 else 1 + Find(s[1..], b)
  }

  /** a in front of a result, if there is one. */
  function Prepend<T>(a: seq<T>, r: Option<seq<T>>): Option<seq<T>> {
    match r case None => None case Some(b) => Some(a + b)
  }

  lemma PrependStep<T>(a: seq<T>, b: seq<T>, r: Option<seq<T>>)
    ensures Prepend(a + b, r) == Prepend(a, Prepend(b, r))
    ensures Prepend([], r) == r
  {
    if r.Some? {
      assert (a + b) + r.value == a + (b + r.value);
      assert [] + r.value == r.value;
    }
  }
}
