/** IEEE single-precision values as 32-bit patterns, and the s16 <-> f32 sample
    conversions of audio/format.go at bit level. */
module Float32 {
  import opened Bits
  import Arith

  type F32 = uint32

  const ZERO: F32 := 0
  const ONE: F32 := 0x3F80_0000

  const TWO23 := 0x80_0000

  /** What a bit pattern denotes. Every finite single is a multiple of 2^-149, so
      Fin(n) stands for n * 2^-149; both zeros are Fin(0). */
  datatype Value = NaN | Inf(negative: bool) | Fin(n: int)

  function NatPow2(k: nat): (r: nat)
    ensures r > 0
  {
    if k == 0 then 1 else 2 * NatPow2(k - 1)
  }

  /** 1 / 32768 in units of 2^-149. */
  function Unit(): (u: nat)
    ensures u > 0
  {
    NatPow2(134)
  }

  function Decode(b: F32): Value {
    var negative := b >= TWO31;
    var e := b / TWO23 % 256;
    var m := b % TWO23;
    if e == 255 then
      if m == 0 then Inf(negative) else NaN
    else
      var magnitude := if e == 0 then m else (TWO23 + m) * NatPow2(e - 1);
      Fin(if negative then -magnitude else magnitude)
  }

  /** math.Round of n / unit: halves go away from zero. */
  function RoundQuotient(n: int, unit: nat): int
    requires unit > 0
  {
    if n >= 0 then (2 * n + unit) / (2 * unit) else -((2 * -n + unit) / (2 * unit))
  }

  /** f32ToS16: scale by 32768 and clamp; scaling by a power of two is exact in float64. */
  function F32ToS16(b: F32): int16 { Quantise(Decode(b), Unit()) }

  function Quantise(v: Value, unit: nat): int16
    requires unit > 0
  {
    match v
    case NaN => 0
    case Inf(negative) => if negative then -32768 else 32767
    case Fin(n) =>
      if n >= 32767 * unit then 32767
      else if n <= -32768 * unit then -32768
      else RoundInRange(n, unit); RoundQuotient(n, unit)
  }

  lemma RoundInRange(n: int, unit: nat)
    requires unit > 0 && -32768 * unit < n < 32767 * unit
    ensures -32768 <= RoundQuotient(n, unit) <= 32767
  {
    var a := if n >= 0 then n else -n;
    Arith.DivLess(2 * a + unit, 2 * unit, if n >= 0 then 32768 else 32769);
  }

  /** The k with 2^k <= a < 2^(k+1). */
  function Log2(a: nat): (k: nat)
    requires 1 <= a <= 32768
    ensures k <= 15 && NatPow2(k) <= a < 2 * NatPow2(k)
  {
    if a == 1 then 0
    else
      var k := Log2(a / 2) + 1;
      NatPow2Values();
      k
  }

  lemma NatPow2Values()
    ensures NatPow2(15) == 32768 && NatPow2(16) == 65536 && NatPow2(23) == TWO23
  {
    assert NatPow2(5) == 32;
    NatPow2Add(5, 5);
    NatPow2Add(10, 5);
    NatPow2Add(10, 10);
    assert NatPow2(3) == 8;
    NatPow2Add(20, 3);
  }

  lemma {:induction false} NatPow2Add(i: nat, j: nat)
    ensures NatPow2(i) * NatPow2(j) == NatPow2(i + j)
  {
    if i == 0 {
    } else {
      NatPow2Add(i - 1, j);
      assert NatPow2(i) * NatPow2(j) == 2 * (NatPow2(i - 1) * NatPow2(j));
    }
  }

  /** The pattern of a normalised single: sign, biased exponent, 23-bit fraction. */
  function Pack(negative: bool, e: nat, m: nat): F32
    requires e < 256 && m < TWO23
  {
    (if negative then TWO31 else 0) + e * TWO23 + m
  }

  /** s16ToF32: float32(v) / 32768, which a single represents exactly. */
  function S16ToF32(v: int16): F32 {
    if v == 0 then ZERO else Normalised(v < 0, if v < 0 then -(v as int) else v)
  }

  /** The single for a / 32768: exponent from the leading bit, the rest shifted up. */
  function Normalised(negative: bool, a: nat): F32
    requires 1 <= a <= 32768
  {
    var k := Log2(a);
    Pack(negative, k + 112, Fraction(a, k))
  }

  /** The bits of a below its leading one, shifted to the top of the fraction field. */
  function Fraction(a: nat, k: nat): (m: nat)
    requires k <= 23 && NatPow2(k) <= a < 2 * NatPow2(k)
    ensures m < TWO23 && TWO23 + m == a * NatPow2(23 - k)
  {
    NatPow2Add(k, 23 - k);
    NatPow2Values();
    Arith.Distribute(a, NatPow2(k), NatPow2(23 - k));
    Arith.MulLt(a - NatPow2(k), NatPow2(k), NatPow2(23 - k));
    Arith.MulLe(0, a - NatPow2(k), NatPow2(23 - k));
    (a - NatPow2(k)) * NatPow2(23 - k)
  }

  lemma UnpackPack(negative: bool, e: nat, m: nat)
    requires 0 < e < 255 && m < TWO23
    ensures var x := (TWO23 + m) * NatPow2(e - 1); Decode(Pack(negative, e, m)) == Fin(if negative then -x else x)
  {
    var b := Pack(negative, e, m);
    assert b / TWO23 % 256 == e && b % TWO23 == m && (b >= TWO31 <==> negative);
  }

  lemma {:induction false} NormalisedExact(negative: bool, a: nat)
    requires 1 <= a <= 32768
    ensures Decode(Normalised(negative, a)) == Fin(if negative then -(a * Unit()) else a * Unit())
  {
    var k := Log2(a);
    var m := Fraction(a, k);
    UnpackPack(negative, k + 112, m);
    Arith.MulAssoc(a, NatPow2(23 - k), NatPow2(k + 111));
    NatPow2Add(23 - k, k + 111);
  }

  lemma DecodeZero(b: F32)
    requires b == ZERO
    ensures Decode(b) == Fin(0)
  {
  }

  /** The single produced for a 16-bit sample denotes exactly v / 32768. */
  lemma {:induction false} S16ToF32Exact(v: int16)
    ensures Decode(S16ToF32(v)) == Fin(v * Unit())
  {
    if v == 0 {
      DecodeZero(S16ToF32(v));
    } else if v > 0 {
      NormalisedExact(false, v);
    } else {
      NormalisedExact(true, -(v as int));
      Arith.NegMul(v, Unit());
    }
  }

  lemma QuantiseExact(v: int16, unit: nat)
    requires unit > 0
    ensures Quantise(Fin(v * unit), unit) == v
  {
    Arith.CancelLess(v, 32767, unit);
    Arith.CancelLess(-32768, v, unit);
    if v >= 0 {
      Arith.DivUnique(2 * (v * unit) + unit, 2 * unit, v, unit);
    } else {
      Arith.DivUnique(2 * -(v * unit) + unit, 2 * unit, -(v as int), unit);
    }
  }

  /** s16 -> f32 -> s16 is the identity on every sample, including both extremes. */
  lemma {:induction false} S16RoundTrip(v: int16)
    ensures F32ToS16(S16ToF32(v)) == v
  {
    var unit := Unit();
    S16ToF32Exact(v);
    QuantiseExact(v, unit);
  }

  // ---- narrowing, for every pattern ----

  /** r is the sample nearest to n / unit, a tie going away from zero; beyond the ends of
      the 16-bit range it is the nearer end. */
  predicate Nearest(n: int, unit: nat, r: int) {
    if n > 32767 * unit then r == 32767
    else if n < -32768 * unit then r == -32768
    else
      var off := 2 * n - 2 * (r * unit);
      && -(unit as int) <= off <= unit
      && (off == unit ==> n < 0) && (off == -(unit as int) ==> n > 0)
  }

  lemma QuantiseNearest(n: int, unit: nat)
    requires unit > 0
    ensures Nearest(n, unit, Quantise(Fin(n), unit))
  {
    if -32768 * unit < n < 32767 * unit {
      var k := RoundQuotient(if n >= 0 then n else -n, unit);
      Rounding(if n >= 0 then n else -n, unit);
      Arith.NegMul(k, unit);
      assert Quantise(Fin(n), unit) == if n >= 0 then k else -k;
    }
  }

  lemma Rounding(a: nat, unit: nat)
    requires unit > 0
    ensures var above := 2 * a - 2 * (RoundQuotient(a, unit) * unit); -(unit as int) <= above < unit
  {
    var k := (2 * a + unit) / (2 * unit);
    Arith.DivMod(2 * a + unit, 2 * unit);
    Arith.MulAssoc(k, 2, unit);
    Arith.MulAssoc(2, k, unit);
  }

  /** Every finite float becomes the sample nearest to 32768 times its value. */
  lemma NarrowsToNearest(b: F32)
    requires Decode(b).Fin?
    ensures Nearest(Decode(b).n, Unit(), F32ToS16(b))
  {
    hide Nearest, Unit, Decode;
    QuantiseNearest(Decode(b).n, Unit());
  }

  /** No other sample is as near, so this determines the result. */
  lemma NearestUnique(n: int, unit: nat, r: int16, s: int16)
    requires unit > 0 && Nearest(n, unit, r) && Nearest(n, unit, s)
    ensures r == s
  {
    Arith.Distribute(r, s, unit);
    if r > s { FarApart(r, s, unit); }
    if s > r { FarApart(s, r, unit); }
  }

  lemma FarApart(r: int, s: int, unit: nat)
    requires r > s
    ensures r * unit >= s * unit + unit
  {
    Arith.MulLe(s + 1, r, unit);
    Arith.MulSucc(s, unit);
  }

  /** What is no number is silence, and the infinities are the ends of the range. */
  lemma NarrowsSpecials(b: F32)
    ensures Decode(b) == NaN ==> F32ToS16(b) == 0
    ensures Decode(b) == Inf(false) ==> F32ToS16(b) == 32767
    ensures Decode(b) == Inf(true) ==> F32ToS16(b) == -32768
  {
  }

  /** The order of numbers. */
  predicate AtMost(v: Value, w: Value) {
    v == Inf(true) || w == Inf(false) || (v.Fin? && w.Fin? && v.n <= w.n)
  }

  /** Narrowing keeps the order of all numbers, finite or not. */
  lemma NarrowsInOrder(a: F32, b: F32)
    requires Decode(a) != NaN && Decode(b) != NaN && AtMost(Decode(a), Decode(b))
    ensures F32ToS16(a) <= F32ToS16(b)
  {
    var unit := Unit();
    hide Unit, Decode;
    if Decode(a).Fin? && Decode(b).Fin? {
      QuantiseInOrder(Decode(a).n, Decode(b).n, unit);
    }
  }

  lemma QuantiseInOrder(m: int, n: int, unit: nat)
    requires unit > 0 && m <= n
    ensures Quantise(Fin(m), unit) <= Quantise(Fin(n), unit)
  {
    var r, s := Quantise(Fin(m), unit), Quantise(Fin(n), unit);
    QuantiseNearest(m, unit);
    QuantiseNearest(n, unit);
    hide Quantise;
    if r > s {
      FarApart(r, s, unit);
      NearApart(m, n, unit, r, s);
    }
  }

  /** Numbers whose nearest samples lie apart lie apart themselves. */
  lemma NearApart(m: int, n: int, unit: nat, r: int16, s: int16)
    requires unit > 0 && r > s && r * unit >= s * unit + unit
    requires Nearest(m, unit, r) && Nearest(n, unit, s)
    ensures m > n
  {
    Arith.MulLe(-32768, s, unit);
    Arith.MulLe(r, 32767, unit);
  }

  /** The magnitude of a pattern with this exponent and fraction. */
  function Magnitude(e: nat, m: nat): nat { if e == 0 then m else (TWO23 + m) * NatPow2(e - 1) }

  lemma DecodeIs(b: F32)
    requires b < 0x7F80_0000
    ensures Decode(b) == Fin(Magnitude(b / TWO23, b % TWO23))
    ensures Decode(b + TWO31) == Fin(-(Magnitude(b / TWO23, b % TWO23) as int))
  {
    assert (b + TWO31) / TWO23 % 256 == b / TWO23 && (b + TWO31) % TWO23 == b % TWO23;
  }

  lemma {:induction false} MagnitudeGrows(e: nat, m: nat, e': nat)
    requires m < TWO23 && e < e'
    ensures Magnitude(e, m) < Magnitude(e', 0)
    decreases e' - e
  {
    if e + 1 < e' {
      MagnitudeGrows(e, m, e' - 1);
      MagnitudeGrows(e' - 1, 0, e');
    } else if e > 0 {
      var p := NatPow2(e - 1);
      assert NatPow2(e) == 2 * p;
      Arith.MulLt(TWO23 + m, 2 * TWO23, p);
    }
  }

  /** A larger pattern is a larger float, up to infinity, and the sign bit negates. */
  lemma PatternsInOrder(b: F32, c: F32)
    requires b < c <= 0x7F80_0000
    ensures Decode(b).Fin? && (Decode(c) == Inf(false) || (Decode(c).Fin? && 0 <= Decode(b).n < Decode(c).n))
    ensures Decode(b + TWO31) == Fin(-Decode(b).n)
  {
    DecodeIs(b);
    if c < 0x7F80_0000 {
      DecodeIs(c);
      hide Decode, NatPow2;
      var e, m, e', m' := b / TWO23, b % TWO23, c / TWO23, c % TWO23;
      FieldsInOrder(b, c);
      if e < e' {
        MagnitudeGrows(e, m, e');
        FractionGrows(e', 0, m');
      } else {
        FractionGrows(e, m, m');
      }
    }
  }

  lemma FieldsInOrder(b: F32, c: F32)
    requires b < c
    ensures b / TWO23 < c / TWO23 || (b / TWO23 == c / TWO23 && b % TWO23 < c % TWO23)
  {
  }

  lemma FractionGrows(e: nat, m: nat, m': nat)
    ensures m < m' ==> Magnitude(e, m) < Magnitude(e, m')
    ensures m <= m' ==> Magnitude(e, m) <= Magnitude(e, m')
  {
    if e > 0 {
      if m < m' { Arith.MulLt(TWO23 + m, TWO23 + m', NatPow2(e - 1)); }
    }
  }
}
