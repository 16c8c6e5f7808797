/** Products of real numbers by name. A proof that hides `Times` and calls these lemmas is linear. */
module RealProducts {

  function Times(x: real, y: real): real {
    x * y
  }

  lemma Positive(a: real, b: real)
    ensures a >= 0.0 && b >= 0.0 ==> Times(a, b) >= 0.0
    ensures a > 0.0 && b > 0.0 ==> Times(a, b) > 0.0
  {
  }

  lemma Distribute(a: real, b: real, c: real)
    ensures Times(a, b - c) == Times(a, b) - Times(a, c)
    ensures Times(a, b + c) == Times(a, b) + Times(a, c)
  {
  }

  lemma ThreeTimes(a: real)
    ensures Times(a, 3.0) == 3.0 * a
  {
  }

  lemma Negate(a: real, b: real)
    ensures Times(-a, b) == -Times(a, b) && Times(a, -b) == -Times(a, b)
  {
  }

  lemma SquareNotNegative(x: real)
    ensures Times(x, x) >= 0.0
  {
    hide Times;
    Positive(x, x);
    Positive(-x, -x);
    Negate(-x, x);
    Negate(x, x);
  }

  lemma SquareAtMostOne(x: real)
    requires -1.0 <= x <= 1.0
    ensures Times(x, x) <= 1.0
    ensures -1.0 < x < 1.0 ==> Times(x, x) < 1.0
  {
    Positive(1.0 - x, 1.0 + x);
    assert Times(1.0 - x, 1.0 + x) == 1.0 - Times(x, x);
  }

  lemma SquareOfDifference(x: real, y: real)
    ensures Times(y - x, y - x) == Times(x, x) - 2.0 * Times(x, y) + Times(y, y)
  {
  }

  lemma Ordered(a: real, b: real, scale: real)
    requires scale > 0.0
    ensures a <= b <==> Times(a, scale) <= Times(b, scale)
    ensures a < b <==> Times(a, scale) < Times(b, scale)
  {
    Difference(a, b, scale);
    hide Times;
    Positive(b - a, scale);
    Positive(a - b, scale);
    Negate(b - a, scale);
  }

  lemma Difference(a: real, b: real, scale: real)
    ensures Times(b - a, scale) == Times(b, scale) - Times(a, scale)
    ensures Times(a - b, scale) == Times(a, scale) - Times(b, scale)
  {
  }
}
