/** Streaming mean and standard deviation (`_compute_norm_zscore` and `_apply_zscore` in
    scripts/phase2_train_bam.py), over real numbers. */
module Normalisation {
  import opened Basics
  import opened Dataset

  /** Sum of coordinate d. */
  function Sum(xs: seq<Values>, d: nat): real
    requires forall i :: 0 <= i < |xs| ==> d < |xs[i]|
  {
    if xs == [] then 0.0 else Sum(xs[..|xs| - 1], d) + xs[|xs| - 1][d]
  }

  function Square(x: real): real {
    x * x
  }

  /** Sum of the squared deviations of coordinate d from c. */
  function SquaredDeviations(xs: seq<Values>, d: nat, c: real): real
    requires forall i :: 0 <= i < |xs| ==> d < |xs[i]|
  {
    if xs == [] then 0.0
    else SquaredDeviations(xs[..|xs| - 1], d, c) + Square(xs[|xs| - 1][d] - c)
  }

  ghost predicate AllOfLength(xs: seq<Values>, len: nat) {
    forall i :: 0 <= i < |xs| ==> |xs[i]| == len
  }

  lemma SumsSnoc(xs: seq<Values>, x: Values, d: nat, c: real)
    requires (forall i :: 0 <= i < |xs| ==> d < |xs[i]|) && d < |x|
    ensures Sum(xs + [x], d) == Sum(xs, d) + x[d]
    ensures SquaredDeviations(xs + [x], d, c) == SquaredDeviations(xs, d, c) + Square(x[d] - c)
  {
    assert (xs + [x])[..|xs + [x]| - 1] == xs;
  }

  /** Moving the centre from a to c. */
  lemma {:induction false} Recentre(xs: seq<Values>, d: nat, a: real, c: real)
    requires forall i :: 0 <= i < |xs| ==> d < |xs[i]|
    ensures SquaredDeviations(xs, d, c)
            == SquaredDeviations(xs, d, a) + Shift(|xs| as real, Sum(xs, d), a, c)
  {
    hide Shift, Square;
    if xs == [] {
      NoShift(a, c);
    } else {
      var init, x := xs[..|xs| - 1], xs[|xs| - 1][d];
      Recentre(init, d, a, c);
      ShiftStep(|init| as real, Sum(init, d), x, a, c);
    }
  }

  /** By how much the sum of squared deviations of n values with sum s grows when the centre moves. */
  function Shift(n: real, s: real, a: real, c: real): real {
    2.0 * ((a - c) * (s - n * a)) + n * Square(a - c)
  }

  lemma NoShift(a: real, c: real)
    ensures Shift(0.0, 0.0, a, c) == 0.0
  {
  }

  lemma ShiftStep(n: real, s: real, x: real, a: real, c: real)
    ensures Shift(n + 1.0, s + x, a, c) + Square(x - a) == Shift(n, s, a, c) + Square(x - c)
  {
    var u, e := x - a, a - c;
    assert Square(u + e) == Square(u) + 2.0 * (e * u) + Square(e);
    assert (n + 1.0) * a == n * a + a;
    assert e * (s + x - (n * a + a)) == e * (s - n * a) + e * u;
    assert (n + 1.0) * Square(e) == n * Square(e) + Square(e);
  }

  /** The recurrence in one coordinate: n values with mean a and sum of squared deviations m2, then x. */
  lemma WelfordStep(xs: seq<Values>, x: Values, d: nat, a: real, m2: real)
    requires (forall i :: 0 <= i < |xs| ==> d < |xs[i]|) && d < |x|
    requires |xs| as real * a == Sum(xs, d) && m2 == SquaredDeviations(xs, d, a)
    ensures var n1 := (|xs| + 1) as real;
            var delta := x[d] - a;
            var b := a + delta / n1;
            && n1 * b == Sum(xs + [x], d)
            && m2 + delta * (x[d] - b) == SquaredDeviations(xs + [x], d, b)
  {
    hide Sum, SquaredDeviations, Square, Shift;
    var n, n1 := |xs| as real, (|xs| + 1) as real;
    var delta := x[d] - a;
    var q := delta / n1;
    var b := a + q;
    assert n1 * q == delta;
    SumsSnoc(xs, x, d, b);
    assert n1 * b == n1 * a + delta == n * a + a + delta;
    Recentre(xs, d, a, b);
    CentredShift(n, Sum(xs, d), a, b);
    WelfordAlgebra(n, delta, q, x[d] - b);
  }

  /** Moving the centre away from the mean. */
  lemma CentredShift(n: real, s: real, a: real, c: real)
    requires n * a == s
    ensures Shift(n, s, a, c) == n * Square(c - a)
  {
  }

  lemma WelfordAlgebra(n: real, delta: real, q: real, r: real)
    requires (n + 1.0) * q == delta && r == delta - q
    ensures n * Square(q) + Square(r) == delta * r
  {
    assert r == n * q;
    assert n * (q * q) == (n * q) * q == r * q;
    assert r * q + r * r == r * (q + r) == r * delta;
  }

  // ---------------------------------------------------------------------
  // Order does not matter
  // ---------------------------------------------------------------------

  lemma {:induction false} MoveLast(xs: seq<Values>, i: nat, d: nat, c: real)
    requires i < |xs| && forall j :: 0 <= j < |xs| ==> d < |xs[j]|
    ensures var rest := xs[..i] + xs[i + 1..];
            && (forall j :: 0 <= j < |rest| ==> d < |rest[j]|)
            && Sum(xs, d) == Sum(rest, d) + xs[i][d]
            && SquaredDeviations(xs, d, c) == SquaredDeviations(rest, d, c) + Square(xs[i][d] - c)
  {
    var n := |xs| - 1;
    hide Square;
    if i == n {
      assert xs[..i] + xs[i + 1..] == xs[..n];
    } else {
      MoveLast(xs[..n], i, d, c);
      var rest := xs[..n][..i] + xs[..n][i + 1..];
      assert xs[..i] + xs[i + 1..] == rest + [xs[n]];
      SumsSnoc(rest, xs[n], d, c);
    }
  }

  lemma {:induction false} OrderIrrelevant(xs: seq<Values>, ys: seq<Values>, len: nat, d: nat, c: real)
    requires AllOfLength(xs, len) && AllOfLength(ys, len) && d < len && multiset(xs) == multiset(ys)
    ensures |xs| == |ys| && Sum(xs, d) == Sum(ys, d) && SquaredDeviations(xs, d, c) == SquaredDeviations(ys, d, c)
    decreases |xs|
  {
    hide Square;
    SameSize(xs, ys);
    if xs != [] {
      var n := |xs| - 1;
      assert xs[n] in multiset(xs);
      assert xs[n] in multiset(ys);
      var i :| 0 <= i < |ys| && ys[i] == xs[n];
      var rest := ys[..i] + ys[i + 1..];
      Removed(xs, ys, i);
      MoveLast(ys, i, d, c);
      OrderIrrelevant(xs[..n], rest, len, d, c);
    }
  }

  lemma SameSize(xs: seq<Values>, ys: seq<Values>)
    requires multiset(xs) == multiset(ys)
    ensures |xs| == |ys|
  {
    assert |multiset(xs)| == |multiset(ys)|;
  }

  lemma Removed(xs: seq<Values>, ys: seq<Values>, i: nat)
    requires xs != [] && i < |ys| && ys[i] == xs[|xs| - 1] && multiset(xs) == multiset(ys)
    ensures multiset(xs[..|xs| - 1]) == multiset(ys[..i] + ys[i + 1..])
  {
    var x := ys[i];
    assert xs == xs[..|xs| - 1] + [x];
    assert ys == ys[..i] + [x] + ys[i + 1..];
    assert multiset(xs[..|xs| - 1]) == multiset(xs) - multiset{x};
    assert multiset(ys[..i] + ys[i + 1..]) == multiset(ys) - multiset{x};
  }

  // ---------------------------------------------------------------------
  // The program
  // ---------------------------------------------------------------------

  datatype Norm = Norm(mean: seq<real>, std: seq<real>, count: nat)

  /** Elementwise operations on vectors. */
  function Plus(a: Values, b: Values): Values
    requires |a| == |b|
  {
    seq(|a|, d requires 0 <= d < |a| => a[d] + b[d])
  }

  function Minus(a: Values, b: Values): Values
    requires |a| == |b|
  {
    seq(|a|, d requires 0 <= d < |a| => a[d] - b[d])
  }

  function Times(a: Values, b: Values): Values
    requires |a| == |b|
  {
    seq(|a|, d requires 0 <= d < |a| => a[d] * b[d])
  }

  function Over(a: Values, n: int): Values
    requires n != 0
  {
    seq(|a|, d requires 0 <= d < |a| => a[d] / n as real)
  }

  function Zeros(len: nat): Values {
    seq(len, _ => 0.0)
  }

  function Deviation(sqrt: real -> real, variance: real): real {
    sqrt(if variance >= 0.0 then variance else 0.0)
  }

  /** `mean` and `m2` are the arithmetic mean and the sum of squared deviations of `xs`. */
  ghost predicate Moments(xs: seq<Values>, len: nat, mean: Values, m2: Values) {
    && AllOfLength(xs, len) && |mean| == len && |m2| == len
    && forall d :: 0 <= d < len ==>
         |xs| as real * mean[d] == Sum(xs, d) && m2[d] == SquaredDeviations(xs, d, mean[d])
  }

  /** The two-pass definition: arithmetic mean, and the square root of the sample variance. */
  ghost predicate IsNormOf(xs: seq<Values>, len: nat, sqrt: real -> real, norm: Norm) {
    && AllOfLength(xs, len) && xs != [] && norm.count == |xs| && |norm.mean| == len && |norm.std| == len
    && forall d :: 0 <= d < len ==>
         && norm.mean[d] == Sum(xs, d) / |xs| as real
         && norm.std[d] == if |xs| == 1 then 0.0
                           else sqrt(SquaredDeviations(xs, d, norm.mean[d]) / (|xs| - 1) as real)
  }

  lemma NoMoments(len: nat)
    ensures Moments([], len, Zeros(len), Zeros(len))
  {
  }

  /** One round of the loop, in all coordinates. */
  lemma MomentsStep(xs: seq<Values>, x: Values, len: nat, mean: Values, m2: Values)
    requires Moments(xs, len, mean, m2) && |x| == len
    ensures var delta := Minus(x, mean);
            var newMean := Plus(mean, Over(delta, |xs| + 1));
            Moments(xs + [x], len, newMean, Plus(m2, Times(delta, Minus(x, newMean))))
  {
    hide Sum, SquaredDeviations;
    forall d | 0 <= d < len
      ensures var b := mean[d] + (x[d] - mean[d]) / (|xs| + 1) as real;
              && (|xs| + 1) as real * b == Sum(xs + [x], d)
              && m2[d] + (x[d] - mean[d]) * (x[d] - b) == SquaredDeviations(xs + [x], d, b)
    {
      WelfordStep(xs, x, d, mean[d], m2[d]);
    }
  }

  lemma {:induction false} DeviationsNotNegative(xs: seq<Values>, d: nat, c: real)
    requires forall i :: 0 <= i < |xs| ==> d < |xs[i]|
    ensures SquaredDeviations(xs, d, c) >= 0.0
  {
    if xs != [] {
      DeviationsNotNegative(xs[..|xs| - 1], d, c);
      assert Square(xs[|xs| - 1][d] - c) >= 0.0;
    }
  }

  method Finish(ghost xs: seq<Values>, len: nat, mean: Values, m2: Values, count: nat, sqrt: real -> real)
    returns (norm: Norm)
    requires Moments(xs, len, mean, m2) && count == |xs| > 0
    ensures IsNormOf(xs, len, sqrt, norm)
  {
    hide Sum, SquaredDeviations;
    var std := Zeros(len);
    if count >= 2 {
      var variance := Over(m2, count - 1);
      std := seq(len, d requires 0 <= d < len => Deviation(sqrt, variance[d]));
    }
    norm := Norm(mean, std, count);
    forall d | 0 <= d < len
      ensures mean[d] == Sum(xs, d) / |xs| as real
      ensures count >= 2 ==> std[d] == sqrt(SquaredDeviations(xs, d, mean[d]) / (|xs| - 1) as real)
    {
      MeanIs(|xs| as real, mean[d], Sum(xs, d));
      DeviationsNotNegative(xs, d, mean[d]);
      if count >= 2 {
        QuotientNotNegative(m2[d], (|xs| - 1) as real);
      }
    }
  }

  lemma MeanIs(n: real, mean: real, sum: real)
    requires n > 0.0 && n * mean == sum
    ensures mean == sum / n
  {
  }

  lemma QuotientNotNegative(a: real, n: real)
    requires a >= 0.0 && n > 0.0
    ensures a / n >= 0.0
  {
  }

  lemma NormReordered(xs: seq<Values>, ys: seq<Values>, len: nat, sqrt: real -> real, norm: Norm)
    requires IsNormOf(xs, len, sqrt, norm) && AllOfLength(ys, len) && multiset(xs) == multiset(ys)
    ensures IsNormOf(ys, len, sqrt, norm)
  {
    hide Sum, SquaredDeviations;
    SameSize(xs, ys);
    forall d | 0 <= d < len
      ensures Sum(xs, d) == Sum(ys, d)
      ensures SquaredDeviations(xs, d, norm.mean[d]) == SquaredDeviations(ys, d, norm.mean[d])
    {
      OrderIrrelevant(xs, ys, len, d, norm.mean[d]);
    }
  }

  /** The streaming result is the two-pass mean and standard deviation of the windows that were drawn;
      over the whole file these are all accepted windows, whatever the buffer and the random numbers. */
  method ComputeNormZscore(o: Options, lines: seq<Line>, draw: nat -> nat, sqrt: real -> real)
    returns (r: Result<Norm, DatasetError>, ghost drawn: seq<Values>, ghost error: Option<DatasetError>)
    ensures Yields(o, drawn, error, Accepted(o, lines), FirstError(o, lines))
    ensures match error
            case Some(e) => r == Err(e)
            case None => if drawn == [] then r == Err(NoWindows)
                         else r.Ok? && IsNormOf(drawn, o.expectedLen, sqrt, r.value)
    ensures o.maxSamples.None? && r.Ok? ==> IsNormOf(Accepted(o, lines), o.expectedLen, sqrt, r.value)
  {
    hide FirstError, Accepted, IsNormOf, Moments, Plus, Minus, Times, Over;
    var windows, failure := IterDatasetRecords(o, lines, draw);
    drawn, error := windows, failure;
    AcceptedLength(o, lines);
    YieldsHaveLength(windows, Accepted(o, lines), o.expectedLen);
    var count := 0;
    var mean := Zeros(o.expectedLen);
    var m2 := Zeros(o.expectedLen);
    NoMoments(o.expectedLen);
    assert windows[..0] == [];
    for i := 0 to |windows|
      invariant count == i && Moments(windows[..i], o.expectedLen, mean, m2)
    {
      MomentsLengths(windows[..i], o.expectedLen, mean, m2);
      MomentsStep(windows[..i], windows[i], o.expectedLen, mean, m2);
      assert windows[..i + 1] == windows[..i] + [windows[i]];
      count := count + 1;
      mean, m2 := Update(windows[i], mean, m2, count);
    }
    assert windows[..|windows|] == windows;
    if failure.Some? {
      r := Err(failure.value);
      return;
    }
    if count == 0 {
      r := Err(NoWindows);
      return;
    }
    var norm := Finish(windows, o.expectedLen, mean, m2, count, sqrt);
    r := Ok(norm);
    if o.maxSamples.None? {
      NormReordered(windows, Accepted(o, lines), o.expectedLen, sqrt, norm);
    }
  }

  method Update(x: Values, mean: Values, m2: Values, count: nat) returns (newMean: Values, newM2: Values)
    requires |x| == |mean| == |m2| && count >= 1
    ensures var delta := Minus(x, mean);
            && newMean == Plus(mean, Over(delta, count))
            && newM2 == Plus(m2, Times(delta, Minus(x, newMean)))
  {
    var delta := Minus(x, mean);
    newMean := Plus(mean, Over(delta, count));
    var delta2 := Minus(x, newMean);
    newM2 := Plus(m2, Times(delta, delta2));
  }

  lemma MomentsLengths(xs: seq<Values>, len: nat, mean: Values, m2: Values)
    requires Moments(xs, len, mean, m2)
    ensures |mean| == len && |m2| == len
  {
  }

  lemma YieldsHaveLength(windows: seq<Values>, all: seq<Values>, len: nat)
    requires multiset(windows) <= multiset(all) && AllOfLength(all, len)
    ensures AllOfLength(windows, len)
  {
    forall i | 0 <= i < |windows| ensures |windows[i]| == len {
      assert windows[i] in multiset(windows);
      assert windows[i] in multiset(all);
    }
  }

  // ---------------------------------------------------------------------
  // What the norm is for
  // ---------------------------------------------------------------------

  /** `_apply_zscore`; a coordinate without spread becomes zero. */
  function ApplyZscore(values: Values, mean: Values, std: Values): Option<Values> {
    if |values| != |mean| || |values| != |std| then None
    else Some(seq(|values|, d requires 0 <= d < |values| =>
                    if std[d] == 0.0 then 0.0 else (values[d] - mean[d]) / std[d]))
  }

  /** It fails exactly where lengths differ; each coordinate is moved by its mean and divided by its spread. */
  lemma ZscoreIff(values: Values, mean: Values, std: Values)
    ensures ApplyZscore(values, mean, std).Some? <==> |values| == |mean| == |std|
    ensures ApplyZscore(values, mean, std).Some? ==>
              var z := ApplyZscore(values, mean, std).value;
              && |z| == |values|
              && forall d :: 0 <= d < |z| ==>
                   if std[d] == 0.0 then z[d] == 0.0 else z[d] * std[d] == values[d] - mean[d]
  {
  }

  function Normalised(xs: seq<Values>, mean: Values, std: Values): seq<Values>
    requires |mean| == |std| && AllOfLength(xs, |mean|)
  {
    if xs == [] then []
    else Normalised(xs[..|xs| - 1], mean, std) + [ApplyZscore(xs[|xs| - 1], mean, std).value]
  }

  /** Sum and squared sum of n normalised values against sum and squared deviations of the originals. */
  ghost predicate ScaledBy(sigma: real, sum: real, squares: real, n: real, mean: real, total: real, deviations: real) {
    sigma * sum == total - n * mean && Square(sigma) * squares == deviations
  }

  lemma {:induction false} NormalisedSums(xs: seq<Values>, mean: Values, std: Values, d: nat)
    requires |mean| == |std| && AllOfLength(xs, |mean|) && d < |mean| && std[d] != 0.0
    ensures var zs := Normalised(xs, mean, std);
            && AllOfLength(zs, |mean|)
            && ScaledBy(std[d], Sum(zs, d), SquaredDeviations(zs, d, 0.0), |xs| as real, mean[d], Sum(xs, d),
                        SquaredDeviations(xs, d, mean[d]))
  {
    hide Square, ScaledBy;
    if xs == [] {
      NothingScaled(std[d], mean[d]);
    } else {
      var init, x := xs[..|xs| - 1], xs[|xs| - 1];
      NormalisedSums(init, mean, std, d);
      var zs, z := Normalised(init, mean, std), ApplyZscore(x, mean, std).value;
      SumsSnoc(zs, z, d, 0.0);
      OneMoreScaled(std[d], Sum(zs, d), SquaredDeviations(zs, d, 0.0), z[d], x[d], mean[d], |init| as real,
                    Sum(init, d), SquaredDeviations(init, d, mean[d]));
    }
  }

  lemma NothingScaled(sigma: real, mean: real)
    ensures ScaledBy(sigma, 0.0, 0.0, 0.0, mean, 0.0, 0.0)
  {
  }

  lemma OneMoreScaled(
    sigma: real, sum: real, squares: real, z: real, x: real, mean: real, n: real, total: real, deviations: real)
    requires sigma != 0.0 && z == (x - mean) / sigma && ScaledBy(sigma, sum, squares, n, mean, total, deviations)
    ensures ScaledBy(sigma, sum + z, squares + Square(z - 0.0), n + 1.0, mean, total + x, deviations + Square(x - mean))
  {
    assert sigma * z == x - mean;
    assert (n + 1.0) * mean == n * mean + mean;
    assert Square(sigma) * Square(z) == (sigma * z) * (sigma * z);
  }

  /** Normalising the windows the norm was computed from gives every coordinate with spread mean zero
      and sample variance one. */
  lemma NormalisedDataset(xs: seq<Values>, len: nat, sqrt: real -> real, norm: Norm, d: nat)
    requires IsNormOf(xs, len, sqrt, norm) && |xs| >= 2 && d < len && norm.std[d] != 0.0
    requires forall v: real :: v >= 0.0 ==> sqrt(v) * sqrt(v) == v
    ensures var zs := Normalised(xs, norm.mean, norm.std);
            && AllOfLength(zs, len)
            && Sum(zs, d) == 0.0
            && SquaredDeviations(zs, d, 0.0) == (|xs| - 1) as real
  {
    hide Sum, SquaredDeviations, Normalised;
    var n1 := (|xs| - 1) as real;
    var total := SquaredDeviations(xs, d, norm.mean[d]);
    SpreadSquared(xs, len, sqrt, norm, d);
    NormalisedSums(xs, norm.mean, norm.std, d);
    var zs := Normalised(xs, norm.mean, norm.std);
    OnlyZero(norm.std[d], Sum(zs, d));
    hide Square;
    UnitVariance(norm.std[d], SquaredDeviations(zs, d, 0.0), total, n1);
  }

  lemma SpreadSquared(xs: seq<Values>, len: nat, sqrt: real -> real, norm: Norm, d: nat)
    requires IsNormOf(xs, len, sqrt, norm) && |xs| >= 2 && d < len
    requires forall v: real :: v >= 0.0 ==> sqrt(v) * sqrt(v) == v
    ensures Square(norm.std[d]) == SquaredDeviations(xs, d, norm.mean[d]) / (|xs| - 1) as real
  {
    hide Sum, SquaredDeviations, Square;
    SpreadIs(xs, len, sqrt, norm, d);
    DeviationsNotNegative(xs, d, norm.mean[d]);
    hide IsNormOf;
    QuotientNotNegative(SquaredDeviations(xs, d, norm.mean[d]), (|xs| - 1) as real);
    RootSquared(sqrt, SquaredDeviations(xs, d, norm.mean[d]) / (|xs| - 1) as real);
  }

  lemma SpreadIs(xs: seq<Values>, len: nat, sqrt: real -> real, norm: Norm, d: nat)
    requires IsNormOf(xs, len, sqrt, norm) && |xs| >= 2 && d < len
    ensures d < |norm.std| && d < |norm.mean| && forall i :: 0 <= i < |xs| ==> d < |xs[i]|
    ensures norm.std[d] == sqrt(SquaredDeviations(xs, d, norm.mean[d]) / (|xs| - 1) as real)
  {
    hide Sum, SquaredDeviations;
  }

  lemma RootSquared(sqrt: real -> real, v: real)
    requires v >= 0.0 && forall u: real :: u >= 0.0 ==> sqrt(u) * sqrt(u) == u
    ensures Square(sqrt(v)) == v
  {
  }

  lemma SquarePositive(sigma: real)
    requires sigma != 0.0
    ensures Square(sigma) > 0.0
  {
    assert Square(sigma) >= 0.0;
    if Square(sigma) == 0.0 {
      OnlyZero(sigma, sigma);
    }
  }

  lemma OnlyZero(sigma: real, x: real)
    requires sigma != 0.0 && sigma * x == 0.0
    ensures x == 0.0
  {
  }

  lemma UnitVariance(sigma: real, squares: real, total: real, n1: real)
    requires sigma != 0.0 && n1 > 0.0 && Square(sigma) == total / n1 && Square(sigma) * squares == total
    ensures squares == n1
  {
    SquarePositive(sigma);
    assert Square(sigma) * n1 == total;
    assert Square(sigma) * (squares - n1) == Square(sigma) * squares - Square(sigma) * n1;
    hide Square;
    OnlyZero(Square(sigma), squares - n1);
  }
}
