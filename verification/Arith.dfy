/** The few facts about products and quotients that the other modules need. */
module Arith {

  function Min(a: int, b: int): int { if a <= b then a else b }

  lemma MulLe(a: int, b: int, d: int)
    requires a <= b && 0 <= d
    ensures a * d <= b * d
  {
  }

  lemma MulLt(a: int, b: int, d: int)
    requires a < b && 0 < d
    ensures a * d < b * d
  {
  }

  lemma MulZero(d: int)
    ensures 0 * d == 0
  {
  }

  lemma MulSucc(a: int, d: int)
    ensures (a + 1) * d == a * d + d
  {
  }

  lemma Distribute(a: int, b: int, d: int)
    ensures (a + b) * d == a * d + b * d
    ensures (a - b) * d == a * d - b * d
  {
  }

  lemma MulAssoc(a: int, p: int, q: int)
    ensures (a * p) * q == a * (p * q)
  {
  }

  lemma NegMul(a: int, d: int)
    ensures -(-a * d) == a * d
  {
  }

  lemma DivMod(x: int, d: int)
    requires d > 0
    ensures x == x / d * d + x % d && 0 <= x % d < d
  {
  }

  /** A quotient is pinned down by its remainder being in range. */
  lemma DivUnique(x: int, d: int, q: int, r: int)
    requires d > 0 && x == q * d + r && 0 <= r < d
    ensures x / d == q && x % d == r
  {
    DivMod(x, d);
    var t := x / d;
    if t < q {
      MulLe(t + 1, q, d);
      MulSucc(t, d);
    } else if t > q {
      MulLe(q + 1, t, d);
      MulSucc(q, d);
    }
  }

  /** floor(x / d) < k exactly when x < k * d. */
  lemma DivLess(x: int, d: int, k: int)
    requires d > 0
    ensures x / d < k <==> x < k * d
  {
    DivMod(x, d);
    if x / d < k {
      MulLe(x / d + 1, k, d);
      MulSucc(x / d, d);
    } else {
      MulLe(k, x / d, d);
    }
  }

  lemma DivMonotone(a: int, b: int, d: int)
    requires a <= b && d > 0
    ensures a / d <= b / d
  {
    DivMod(a, d);
    DivMod(b, d);
    if b / d < a / d {
      DivLess(b, d, a / d);
    }
  }

  /** Adding whole multiples of the divisor. */
  lemma DivAddMultiple(k: int, x: int, d: int)
    requires d > 0
    ensures (k * d + x) / d == k + x / d && (k * d + x) % d == x % d
  {
    DivMod(x, d);
    Distribute(k, x / d, d);
    DivUnique(k * d + x, d, k + x / d, x % d);
  }

  function CeilDiv(x: int, d: int): int
    requires d > 0
  {
    (x + d - 1) / d
  }

  /** n < ceil(x / d) exactly when n * d < x. */
  lemma CeilDivLess(x: int, d: int, n: int)
    requires d > 0
    ensures n < CeilDiv(x, d) <==> n * d < x
  {
    DivLess(x + d - 1, d, n + 1);
    MulSucc(n, d);
  }

  lemma CeilDivNonneg(x: int, d: int)
    requires d > 0 && x >= 0
    ensures CeilDiv(x, d) >= 0
  {
    if CeilDiv(x, d) < 0 {
      DivLess(x + d - 1, d, 0);
    }
  }

  /** Cancelling a common factor leaves a rounded-up quotient unchanged. */
  lemma CeilDivScale(x: int, d: int, g: int)
    requires d > 0 && g > 0
    ensures d * g > 0 && CeilDiv(x * g, d * g) == CeilDiv(x, d)
  {
    assert d * g > 0 by { MulLt(0, d, g); }
    var a, b := CeilDiv(x * g, d * g), CeilDiv(x, d);
    CeilDivLess(x, d, a);
    CeilDivLess(x, d, b);
    CeilDivLess(x * g, d * g, a);
    CeilDivLess(x * g, d * g, b);
    CancelLess(a * d, x, g);
    CancelLess(b * d, x, g);
    MulAssoc(a, d, g);
    MulAssoc(b, d, g);
  }

  lemma CancelLess(a: int, b: int, g: int)
    requires g > 0
    ensures a < b <==> a * g < b * g
  {
    if a < b {
      MulLt(a, b, g);
    } else {
      MulLe(b, a, g);
    }
  }
}
