/** Facts of integer arithmetic the solver does not find on its own. */
module Arith {

  lemma MulAtLeast(k: int, d: nat)
    requires k >= 1
    ensures k * d >= d
  {
    assert k * d == d + (k - 1) * d;
    MulNonNegative(k - 1, d);
  }

  lemma MulNonNegative(k: nat, d: nat)
    ensures k * d >= 0
  {
  }

  /** Quotient and remainder are determined by their defining equation. */
  lemma DivUnique(a: int, d: nat, q: int, r: nat)
    requires r < d && a == q * d + r
    ensures a / d == q && a % d == r
  {
    var q2, r2 := a / d, a % d;
    assert a == q2 * d + r2;
    assert (q - q2) * d == q * d - q2 * d;
    assert (q2 - q) * d == q2 * d - q * d;
    if q > q2 {
      MulAtLeast(q - q2, d);
    } else if q < q2 {
      MulAtLeast(q2 - q, d);
    }
  }

  /** How division by d moves from a to a + 1. */
  lemma DivStep(a: int, d: nat)
    requires d >= 1
    ensures (a + 1) / d == a / d + (if (a + 1) % d == 0 then 1 else 0)
    ensures (a + 1) % d == 0 ==> a + 1 == ((a + 1) / d) * d
  {
    var q, r := a / d, a % d;
    assert a == q * d + r;
    if r == d - 1 {
      assert (q + 1) * d == q * d + d;
      DivUnique(a + 1, d, q + 1, 0);
    } else {
      DivUnique(a + 1, d, q, r + 1);
    }
  }

  lemma Distribute(a: int, b: int, d: int)
    ensures (a + b) * d == a * d + b * d
  {
  }

  lemma MulMonotone(a: int, b: int, d: nat)
    requires a <= b
    ensures a * d <= b * d
  {
    assert b * d == a * d + (b - a) * d;
    MulNonNegative(b - a, d);
  }

  /** Different numbers with the same remainder are at least the divisor apart. */
  lemma SameResidue(a: int, b: int, d: nat)
    requires d >= 1 && a % d == b % d && a < b
    ensures b - a >= d
  {
    var p, q := a / d, b / d;
    assert b - a == (q - p) * d;
    assert (p - q) * d == -((q - p) * d);
    if q - p <= 0 {
      MulNonNegative(p - q, d);
    } else {
      MulAtLeast(q - p, d);
    }
  }

  lemma RatioAtMostOne(x: real, y: real)
    requires 0.0 < x <= y
    ensures 0.0 < x / y <= 1.0
  {
    assert (x / y) * y == x;
  }

  lemma RatioMonotone(a: real, b: real, y: real)
    requires a <= b && 0.0 < y
    ensures a / y <= b / y
  {
    assert (a / y) * y == a && (b / y) * y == b;
    assert (b / y - a / y) * y == b - a;
  }
}
