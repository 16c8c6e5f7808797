/** The cubic transmission function of the BAM codec (`_transmission` in loralink_mllc/codecs/bam.py),
    one coordinate at a time. */
module BamDynamics {
  import opened RealProducts
  import opened FixedPoint

  function Cube(x: real): real {
    Times(Times(x, x), x)
  }

  /** (delta + 1) x - delta x^3, before clipping. */
  function Cubic(delta: real, x: real): real {
    Times(delta + 1.0, x) - Times(delta, Cube(x))
  }

  function Clipped(delta: real, x: real): real {
    ClampUnit(Cubic(delta, x))
  }

  // ---------------------------------------------------------------------
  // Slopes
  // ---------------------------------------------------------------------

  function Mixed(x: real, y: real): real {
    Times(x, x) + Times(x, y) + Times(y, y)
  }

  lemma MixedBelowThree(x: real, y: real)
    requires -1.0 <= x < y <= 1.0
    ensures Mixed(x, y) < 3.0
  {
    hide Times;
    SquareOfDifference(x, y);
    Positive(y - x, y - x);
    SquareAtMostOne(x);
    SquareAtMostOne(y);
  }

  /** The slope of the cubic between two points. */
  function Slope(delta: real, x: real, y: real): real {
    1.0 + delta - Times(delta, Mixed(x, y))
  }

  lemma DifferenceOfCubes(x: real, y: real)
    ensures Times(y - x, Mixed(x, y)) == Cube(y) - Cube(x)
  {
  }

  lemma Expand(p: real, delta: real, m: real)
    ensures Times(p, 1.0 + delta - Times(delta, m)) == Times(delta + 1.0, p) - Times(delta, Times(p, m))
  {
  }

  lemma SlopeBetween(delta: real, x: real, y: real)
    ensures Cubic(delta, y) - Cubic(delta, x) == Times(y - x, Slope(delta, x, y))
  {
    hide Times, Mixed, Cube;
    DifferenceOfCubes(x, y);
    Expand(y - x, delta, Mixed(x, y));
    Distribute(delta + 1.0, y, x);
    Distribute(delta, Cube(y), Cube(x));
  }

  lemma SlopePositive(delta: real, x: real, y: real)
    requires 0.0 < delta <= 0.5 && -1.0 <= x < y <= 1.0
    ensures Slope(delta, x, y) > 0.0
  {
    hide Times;
    MixedBelowThree(x, y);
    var m := Mixed(x, y);
    Positive(delta, 3.0 - m);
    Distribute(delta, 3.0, m);
    ThreeTimes(delta);
  }

  /** Strictly increasing on [-1, 1]. */
  lemma CubicIncreases(delta: real, x: real, y: real)
    requires 0.0 < delta <= 0.5 && -1.0 <= x < y <= 1.0
    ensures Cubic(delta, x) < Cubic(delta, y)
  {
    hide Times, Cubic, Slope;
    SlopeBetween(delta, x, y);
    SlopePositive(delta, x, y);
    Positive(y - x, Slope(delta, x, y));
  }

  lemma CubicEnds(delta: real)
    ensures Cubic(delta, 1.0) == 1.0 && Cubic(delta, -1.0) == -1.0 && Cubic(delta, 0.0) == 0.0
  {
  }

  lemma CubicOdd(delta: real, x: real)
    ensures Cubic(delta, -x) == -Cubic(delta, x)
  {
    CubeOdd(x);
    hide Times, Cube;
    Negate(delta + 1.0, x);
    Negate(delta, Cube(x));
  }

  lemma CubeOdd(x: real)
    ensures Cube(-x) == -Cube(x)
  {
    assert Times(-x, -x) == Times(x, x);
    hide Times;
    Negate(x, Times(x, x));
    Negate(Times(x, x), x);
  }

  // ---------------------------------------------------------------------
  // The unit interval
  // ---------------------------------------------------------------------

  /** For 0 < delta <= 1/2 the function maps [-1, 1] into itself, so nothing is ever clipped. */
  lemma NoClipping(delta: real, x: real)
    requires 0.0 < delta <= 0.5 && -1.0 <= x <= 1.0
    ensures -1.0 <= Cubic(delta, x) <= 1.0 && Clipped(delta, x) == Cubic(delta, x)
  {
    hide Cubic;
    CubicEnds(delta);
    if x < 1.0 {
      CubicIncreases(delta, x, 1.0);
    }
    if x > -1.0 {
      CubicIncreases(delta, -1.0, x);
    }
  }

  /** Strictly increasing and odd, with clipping in place. */
  lemma ClippedIncreases(delta: real, x: real, y: real)
    requires 0.0 < delta <= 0.5 && -1.0 <= x < y <= 1.0
    ensures Clipped(delta, x) < Clipped(delta, y) && Clipped(delta, -x) == -Clipped(delta, x)
  {
    hide Cubic;
    NoClipping(delta, x);
    NoClipping(delta, y);
    NoClipping(delta, -x);
    CubicOdd(delta, x);
    CubicIncreases(delta, x, y);
  }

  /** Beyond one half there is always a value in (0, 1) that leaves the interval. */
  lemma ClipsBeyondHalf(delta: real) returns (x: real)
    requires delta > 0.5
    ensures 0.0 < x < 1.0 && Cubic(delta, x) > 1.0
  {
    var d := 3.0 * delta;
    var e := (2.0 * delta - 1.0) / d;
    assert Times(e, d) == 2.0 * delta - 1.0;
    assert Times(0.0, d) == 0.0 && Times(1.0, d) == d;
    hide Times, Cubic;
    Ordered(0.0, e, d);
    Ordered(e, 1.0, d);
    x := 1.0 - e;
    OverOne(delta, e);
  }

  lemma OverOne(delta: real, e: real)
    requires delta > 0.5 && 0.0 < e < 1.0 && Times(e, 3.0 * delta) == 2.0 * delta - 1.0
    ensures Cubic(delta, 1.0 - e) > 1.0
  {
    hide Times, Cubic, Slope;
    CubicEnds(delta);
    SlopeNegative(delta, e);
    SlopeBetween(delta, 1.0 - e, 1.0);
    Positive(e, -Slope(delta, 1.0 - e, 1.0));
    Negate(e, Slope(delta, 1.0 - e, 1.0));
  }

  lemma SlopeNegative(delta: real, e: real)
    requires delta > 0.5 && 0.0 < e && Times(e, 3.0 * delta) == 2.0 * delta - 1.0
    ensures Slope(delta, 1.0 - e, 1.0) < 0.0
  {
    MixedNearOne(e);
    hide Times, Mixed;
    Positive(e, e);
    Positive(delta, Times(e, e));
    Distribute(delta, 3.0 - 3.0 * e, Times(e, e));
    Distribute(delta, 3.0, 3.0 * e);
    ThreeTimes(delta);
    MoveThree(delta, e);
  }

  lemma MixedNearOne(e: real)
    ensures Mixed(1.0 - e, 1.0) == 3.0 - 3.0 * e + Times(e, e)
  {
  }

  lemma MoveThree(delta: real, e: real)
    ensures Times(delta, 3.0 * e) == Times(e, 3.0 * delta)
  {
  }

  // ---------------------------------------------------------------------
  // All numbers
  // ---------------------------------------------------------------------

  function Abs(x: real): real {
    if x < 0.0 then -x else x
  }

  /** The polynomial of the transmission function, written out. */
  function Polynomial(delta: real, x: real): real {
    (delta + 1.0) * x - delta * (x * x * x)
  }

  lemma CubicIsPolynomial(delta: real, x: real)
    ensures Cubic(delta, x) == Polynomial(delta, x)
  {
  }

  /** For every delta and every number, the value is the point of [-1, 1] that is nearest to the polynomial. */
  lemma ClippedIsNearest(delta: real, x: real, y: real)
    requires -1.0 <= y <= 1.0
    ensures -1.0 <= Clipped(delta, x) <= 1.0
    ensures Abs(Clipped(delta, x) - Polynomial(delta, x)) <= Abs(y - Polynomial(delta, x))
    ensures Abs(Clipped(delta, x) - Polynomial(delta, x)) == Abs(y - Polynomial(delta, x)) ==> y == Clipped(delta, x)
  {
    CubicIsPolynomial(delta, x);
    hide Cubic, Polynomial;
  }

  lemma FactorBelow(delta: real, x: real)
    ensures Polynomial(delta, x) + 1.0 == Times(x + 1.0, 1.0 - delta * x * (x - 1.0))
  {
  }

  lemma FactorAbove(delta: real, x: real)
    ensures Polynomial(delta, x) - 1.0 == Times(x - 1.0, 1.0 - delta * x * (x + 1.0))
  {
  }

  lemma SignOfProduct(a: real, b: real)
    requires a > 0.0
    ensures Times(a, b) <= 0.0 <==> b <= 0.0
    ensures Times(a, b) >= 0.0 <==> b >= 0.0
  {
  }

  /** Beyond 1 the value falls from 1 to -1: it still is 1 if and only if delta x (x + 1) <= 1, and it is -1 if and
      only if delta x (x - 1) >= 1. (The function is odd, so the same holds below -1 with the signs
      exchanged.) */
  lemma BeyondOne(delta: real, x: real)
    requires x > 1.0
    ensures Clipped(delta, x) == 1.0 <==> delta * x * (x + 1.0) <= 1.0
    ensures Clipped(delta, x) == -1.0 <==> delta * x * (x - 1.0) >= 1.0
    ensures Clipped(delta, -x) == -Clipped(delta, x)
  {
    CubicIsPolynomial(delta, x);
    CubicOdd(delta, x);
    FactorBelow(delta, x);
    FactorAbove(delta, x);
    SignOfProduct(x + 1.0, 1.0 - delta * x * (x - 1.0));
    SignOfProduct(x - 1.0, 1.0 - delta * x * (x + 1.0));
    hide Times, Cubic, Polynomial;
  }

  // ---------------------------------------------------------------------
  // Negative deltas
  // ---------------------------------------------------------------------

  /** 1 + x - 4 (x - x^3) is a square times x + 1. */
  lemma FourTimesGain(x: real)
    ensures Times(x + 1.0, Times(2.0 * x - 1.0, 2.0 * x - 1.0)) == 1.0 + x - 4.0 * Times(x, 1.0 - Times(x, x))
  {
    SquareOfTwice(x);
    CubeAsProduct(x);
    var q := Times(x, x);
    assert Times(x, 1.0 - q) == x - Times(x, q) by { Distribute(x, 1.0, q); }
    assert Times(x + 1.0, 4.0 * q - 4.0 * x + 1.0) == 4.0 * Times(x, q) - 4.0 * q + x + 4.0 * q - 4.0 * x + 1.0;
  }

  lemma SquareOfTwice(x: real)
    ensures Times(2.0 * x - 1.0, 2.0 * x - 1.0) == 4.0 * Times(x, x) - 4.0 * x + 1.0
  {
  }

  /** From -4 to 0 nothing in [0, 1] leaves the interval. */
  lemma NegativeKeeps(delta: real, x: real)
    requires -4.0 <= delta <= 0.0 && 0.0 <= x <= 1.0
    ensures -1.0 <= Cubic(delta, x) <= 1.0
  {
    Gain(delta, x);
    FourTimesGain(x);
    var gain := Times(x, 1.0 - Times(x, x));
    var square := Times(2.0 * x - 1.0, 2.0 * x - 1.0);
    SquareNotNegative(2.0 * x - 1.0);
    assert Times(delta + 4.0, gain) == Times(delta, gain) + 4.0 * gain;
    hide Times, Cubic;
    SquareAtMostOne(x);
    Positive(x, 1.0 - Times(x, x));
    Positive(x + 1.0, square);
    Positive(delta + 4.0, gain);
    Positive(-delta, gain);
    Negate(delta, gain);
  }

  /** Below -4 the value 1/2 leaves the interval. */
  lemma ClipsBelowFour(delta: real)
    requires delta < -4.0
    ensures Cubic(delta, 0.5) < -1.0
  {
  }

  /** No value of [-1, 1] is ever clipped if and only if -4 <= delta <= 1/2: at the upper end the bound the code
      checks is the right one, and at the lower end it checks none. */
  lemma NoClippingIff(delta: real)
    ensures (forall x :: -1.0 <= x <= 1.0 ==> Clipped(delta, x) == Cubic(delta, x)) <==> -4.0 <= delta <= 0.5
  {
    hide Cubic;
    if delta > 0.5 {
      var x := ClipsBeyondHalf(delta);
      assert Clipped(delta, x) != Cubic(delta, x);
    } else if delta < -4.0 {
      ClipsBelowFour(delta);
      assert Clipped(delta, 0.5) != Cubic(delta, 0.5);
    } else {
      forall x | -1.0 <= x <= 1.0 ensures Clipped(delta, x) == Cubic(delta, x) {
        if delta > 0.0 {
          NoClipping(delta, x);
        } else if x >= 0.0 {
          NegativeKeeps(delta, x);
        } else {
          NegativeKeeps(delta, -x);
          CubicOdd(delta, x);
        }
      }
    }
  }

  // ---------------------------------------------------------------------
  // Iteration
  // ---------------------------------------------------------------------

  function Iterate(delta: real, x: real, n: nat): real
    decreases n
  {
    if n == 0 then x else Iterate(delta, Clipped(delta, x), n - 1)
  }

  lemma Gain(delta: real, x: real)
    ensures Cubic(delta, x) == x + Times(delta, Times(x, 1.0 - Times(x, x)))
  {
    CubeAsProduct(x);
    assert Times(delta + 1.0, x) == Times(delta, x) + x;
    hide Times, Cube;
    Distribute(x, 1.0, Times(x, x));
    Distribute(delta, x, Cube(x));
  }

  lemma CubeAsProduct(x: real)
    ensures Times(x, Times(x, x)) == Cube(x) && Times(x, 1.0) == x
  {
  }

  lemma PositiveGain(delta: real, x: real)
    requires 0.0 < delta && 0.0 < x < 1.0
    ensures Cubic(delta, x) > x
  {
    Gain(delta, x);
    hide Times, Cubic;
    SquareAtMostOne(x);
    Positive(x, 1.0 - Times(x, x));
    Positive(delta, Times(x, 1.0 - Times(x, x)));
  }

  /** One application keeps the sign, never shrinks, and moves everything but -1, 0 and 1. */
  lemma NeverShrinks(delta: real, x: real)
    requires 0.0 < delta <= 0.5 && -1.0 <= x <= 1.0
    ensures var y := Clipped(delta, x);
            && -1.0 <= y <= 1.0
            && (x >= 0.0 ==> y >= x) && (x <= 0.0 ==> y <= x)
            && (y == x <==> x == 0.0 || x == 1.0 || x == -1.0)
  {
    hide Cubic;
    NoClipping(delta, x);
    CubicEnds(delta);
    if 0.0 < x < 1.0 {
      PositiveGain(delta, x);
    }
    if -1.0 < x < 0.0 {
      PositiveGain(delta, -x);
      CubicOdd(delta, x);
    }
  }

  /** However often it is applied, the magnitude never falls below where it started and never leaves
      the interval. */
  lemma {:induction false} IterateNeverShrinks(delta: real, x: real, n: nat)
    requires 0.0 < delta <= 0.5 && -1.0 <= x <= 1.0
    ensures Abs(x) <= Abs(Iterate(delta, x, n)) <= 1.0
    decreases n
  {
    hide Clipped;
    if n > 0 {
      NeverShrinks(delta, x);
      IterateNeverShrinks(delta, Clipped(delta, x), n - 1);
    }
  }

  /** Iteration keeps the order of different values. */
  lemma {:induction false} IterateIncreases(delta: real, x: real, y: real, n: nat)
    requires 0.0 < delta <= 0.5 && -1.0 <= x < y <= 1.0
    ensures Iterate(delta, x, n) < Iterate(delta, y, n)
    decreases n
  {
    hide Clipped;
    if n > 0 {
      NeverShrinks(delta, x);
      NeverShrinks(delta, y);
      ClippedIncreases(delta, x, y);
      IterateIncreases(delta, Clipped(delta, x), Clipped(delta, y), n - 1);
    }
  }
}
