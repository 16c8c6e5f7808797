/** The codec of any layers and any number of cycles, step by step: which matrix each vector on the way
    from a window to its latent vector, and back, has passed through. */
module BamPaths {
  import opened Basics
  import opened Bam
  import opened BamDynamics
  import Arith

  predicate InInterval(y: real) {
    -1.0 <= y <= 1.0
  }

  /** y is the point of [-1, 1] that is nearest to p. */
  ghost predicate Nearest(p: real, y: real) {
    InInterval(y) && forall z :: InInterval(z) ==> Abs(y - p) <= Abs(z - p)
  }

  /** One pass through a matrix and, unless delta is absent or zero, the transmission function. */
  ghost predicate PassesTo(delta: Option<real>, m: Matrix, x: Vector, y: Vector) {
    && m.Valid() && |x| == m.cols && |y| == |m.rows|
    && (delta.None? || delta.value == 0.0 ==> y == MatVec(m, x))
    && (delta.Some? && delta.value != 0.0 ==>
          forall i :: 0 <= i < |y| ==> Nearest(Polynomial(delta.value, MatVec(m, x)[i]), y[i]))
  }

  lemma PassesOnly(delta: Option<real>, m: Matrix, x: Vector)
    requires m.Valid() && |x| == m.cols
    ensures PassesTo(delta, m, x, Transmission(delta, MatVec(m, x)))
  {
    if delta.Some? && delta.value != 0.0 {
      var v := MatVec(m, x);
      hide MatVec;
      forall i | 0 <= i < |v| ensures Nearest(Polynomial(delta.value, v[i]), Clipped(delta.value, v[i])) {
        ClippedIsNearest(delta.value, v[i], 0.0);
        forall z | InInterval(z)
          ensures Abs(Clipped(delta.value, v[i]) - Polynomial(delta.value, v[i]))
               <= Abs(z - Polynomial(delta.value, v[i]))
        {
          ClippedIsNearest(delta.value, v[i], z);
        }
      }
    }
  }

  /** The nearest point is unique, so a pass has one outcome. */
  lemma OneOutcome(delta: Option<real>, m: Matrix, x: Vector, y: Vector)
    requires PassesTo(delta, m, x, y)
    ensures y == Transmission(delta, MatVec(m, x))
  {
    if delta.Some? && delta.value != 0.0 {
      forall i | 0 <= i < |y| ensures y[i] == Transmission(delta, MatVec(m, x))[i] {
        var v := MatVec(m, x)[i];
        ClippedIsNearest(delta.value, v, y[i]);
        assert Nearest(Polynomial(delta.value, v), y[i]) && InInterval(Clipped(delta.value, v));
        hide Clipped, Polynomial, MatVec;
      }
    }
  }

  /** The matrix of pass t on the way up, when each layer takes 1 + 2 * cycles passes: its W first, then V
      and W in turn. */
  function UpMatrix(layers: seq<Layer>, cycles: nat, t: nat): Matrix
    requires t / (1 + 2 * cycles) < |layers|
  {
    var p := 1 + 2 * cycles;
    if t % p % 2 == 0 then layers[t / p].w else layers[t / p].v
  }

  /** The matrix of pass t on the way down: last layer first, its V first, then W and V in turn. */
  function DownMatrix(layers: seq<Layer>, cycles: nat, t: nat): Matrix
    requires t / (1 + 2 * cycles) < |layers|
  {
    var p := 1 + 2 * cycles;
    var l := layers[|layers| - 1 - t / p];
    if t % p % 2 == 0 then l.v else l.w
  }

  lemma {:induction false} EncodeCyclesPath(delta: Option<real>, l: Layer, y: Vector, n: nat)
    returns (path: seq<Vector>)
    requires l.Fits(l.w.cols) && |y| == |l.w.rows|
    ensures |path| == 2 * n + 1 && path[0] == y && path[2 * n] == EncodeCycles(delta, l, y, n)
    ensures forall t :: 0 <= t < 2 * n ==>
              PassesTo(delta, if t % 2 == 0 then l.v else l.w, path[t], path[t + 1])
    decreases n
  {
    if n == 0 {
      path := [y];
    } else {
      var x := Down(delta, l, y);
      var z := Up(delta, l, x);
      var rest := EncodeCyclesPath(delta, l, z, n - 1);
      path := [y, x] + rest;
      PassesOnly(delta, l.v, y);
      PassesOnly(delta, l.w, x);
      hide MatVec, Transmission, EncodeCycles, PassesTo;
      forall t | 0 <= t < 2 * n ensures PassesTo(delta, if t % 2 == 0 then l.v else l.w, path[t], path[t + 1]) {
        if t >= 2 {
          assert path[t] == rest[t - 2] && path[t + 1] == rest[t - 1];
        }
      }
    }
  }

  lemma {:induction false} DecodeCyclesPath(delta: Option<real>, l: Layer, x: Vector, n: nat)
    returns (path: seq<Vector>)
    requires l.Fits(|x|)
    ensures |path| == 2 * n + 1 && path[0] == x && path[2 * n] == DecodeCycles(delta, l, x, n)
    ensures forall t :: 0 <= t < 2 * n ==>
              PassesTo(delta, if t % 2 == 0 then l.w else l.v, path[t], path[t + 1])
    decreases n
  {
    if n == 0 {
      path := [x];
    } else {
      var y := Up(delta, l, x);
      var z := Down(delta, l, y);
      var rest := DecodeCyclesPath(delta, l, z, n - 1);
      path := [x, y] + rest;
      PassesOnly(delta, l.w, x);
      PassesOnly(delta, l.v, y);
      hide MatVec, Transmission, DecodeCycles, PassesTo;
      forall t | 0 <= t < 2 * n ensures PassesTo(delta, if t % 2 == 0 then l.w else l.v, path[t], path[t + 1]) {
        if t >= 2 {
          assert path[t] == rest[t - 2] && path[t + 1] == rest[t - 1];
        }
      }
    }
  }

  /** The passes of one layer on the way up. */
  lemma LayerUp(delta: Option<real>, cycles: nat, l: Layer, x: Vector) returns (path: seq<Vector>)
    requires l.Fits(|x|)
    ensures |path| == 2 * cycles + 2 && path[0] == x && path[2 * cycles + 1] == EncodeLayer(delta, cycles, l, x)
    ensures forall t :: 0 <= t < 2 * cycles + 1 ==>
              PassesTo(delta, if t % 2 == 0 then l.w else l.v, path[t], path[t + 1])
  {
    var y := Up(delta, l, x);
    var rest := EncodeCyclesPath(delta, l, y, cycles);
    path := [x] + rest;
    PassesOnly(delta, l.w, x);
    hide MatVec, Transmission, EncodeCycles, PassesTo;
    forall t | 0 <= t < 2 * cycles + 1
      ensures PassesTo(delta, if t % 2 == 0 then l.w else l.v, path[t], path[t + 1])
    {
      if t >= 1 {
        assert path[t] == rest[t - 1] && path[t + 1] == rest[t];
      }
    }
  }

  lemma LayerDown(delta: Option<real>, cycles: nat, l: Layer, y: Vector) returns (path: seq<Vector>)
    requires l.Fits(l.w.cols) && |y| == |l.w.rows|
    ensures |path| == 2 * cycles + 2 && path[0] == y && path[2 * cycles + 1] == DecodeLayer(delta, cycles, l, y)
    ensures forall t :: 0 <= t < 2 * cycles + 1 ==>
              PassesTo(delta, if t % 2 == 0 then l.v else l.w, path[t], path[t + 1])
  {
    var x := Down(delta, l, y);
    var rest := DecodeCyclesPath(delta, l, x, cycles);
    path := [y] + rest;
    PassesOnly(delta, l.v, y);
    hide MatVec, Transmission, DecodeCycles, PassesTo;
    forall t | 0 <= t < 2 * cycles + 1
      ensures PassesTo(delta, if t % 2 == 0 then l.v else l.w, path[t], path[t + 1])
    {
      if t >= 1 {
        assert path[t] == rest[t - 1] && path[t + 1] == rest[t];
      }
    }
  }

  // ---------------------------------------------------------------------
  // All layers
  // ---------------------------------------------------------------------

  lemma Divides(t: nat, p: nat, n: nat)
    requires p >= 1 && t < n * p
    ensures 0 <= t / p < n
    ensures t < p ==> t / p == 0 && t % p == t
    ensures t >= p ==> (t - p) / p == t / p - 1 && (t - p) % p == t % p
  {
    var q, r := t / p, t % p;
    assert t == q * p + r;
    if q >= n {
      Arith.MulMonotone(n, q, p);
    }
    if t < p {
      Arith.DivUnique(t, p, 0, t);
    } else {
      assert (q - 1) * p == q * p - p;
      Arith.DivUnique(t - p, p, q - 1, r);
    }
  }

  lemma LastBlock(t: nat, p: nat, n: nat)
    requires p >= 1 && n >= 1 && (n - 1) * p <= t < n * p
    ensures t / p == n - 1 && t % p == t - (n - 1) * p
  {
    assert n * p == (n - 1) * p + p;
    Arith.DivUnique(t, p, n - 1, t - (n - 1) * p);
  }

  lemma MorePasses(n: nat, p: nat)
    requires n >= 1
    ensures n * p == (n - 1) * p + p && (n - 1) * p >= 0
  {
    Arith.MulNonNegative(n - 1, p);
  }

  /** A path through all the passes on the way up. */
  ghost predicate UpPath(delta: Option<real>, cycles: nat, layers: seq<Layer>, path: seq<Vector>) {
    var p := 1 + 2 * cycles;
    && |path| == |layers| * p + 1
    && forall t: nat :: t < |layers| * p ==>
         t / p < |layers| && PassesTo(delta, UpMatrix(layers, cycles, t), path[t], path[t + 1])
  }

  /** A path through all the passes on the way down. */
  ghost predicate DownPath(delta: Option<real>, cycles: nat, layers: seq<Layer>, path: seq<Vector>) {
    var p := 1 + 2 * cycles;
    && |path| == |layers| * p + 1
    && forall t: nat :: t < |layers| * p ==>
         t / p < |layers| && PassesTo(delta, DownMatrix(layers, cycles, t), path[t], path[t + 1])
  }

  lemma JoinUp(delta: Option<real>, cycles: nat, layers: seq<Layer>, first: seq<Vector>, rest: seq<Vector>)
    requires layers != [] && UpPath(delta, cycles, layers[1..], rest)
    requires |first| == 2 * cycles + 2 && first[2 * cycles + 1] == rest[0]
    requires forall t :: 0 <= t < 2 * cycles + 1 ==>
               PassesTo(delta, if t % 2 == 0 then layers[0].w else layers[0].v, first[t], first[t + 1])
    ensures UpPath(delta, cycles, layers, first[..2 * cycles + 1] + rest)
  {
    hide PassesTo;
    var p, n := 1 + 2 * cycles, |layers|;
    var path := first[..p] + rest;
    MorePasses(n, p);
    forall t: nat | t < n * p
      ensures t / p < n && PassesTo(delta, UpMatrix(layers, cycles, t), path[t], path[t + 1])
    {
      Divides(t, p, n);
      if t < p {
        assert path[t] == first[t] && path[t + 1] == first[t + 1];
      } else {
        assert path[t] == rest[t - p] && path[t + 1] == rest[t - p + 1];
        assert t - p < (n - 1) * p;
        assert UpMatrix(layers[1..], cycles, t - p) == UpMatrix(layers, cycles, t);
      }
    }
  }

  lemma JoinDown(delta: Option<real>, cycles: nat, layers: seq<Layer>, rest: seq<Vector>, last: seq<Vector>)
    requires layers != [] && DownPath(delta, cycles, layers[1..], rest)
    requires |last| == 2 * cycles + 2 && last[0] == rest[|rest| - 1]
    requires forall t :: 0 <= t < 2 * cycles + 1 ==>
               PassesTo(delta, if t % 2 == 0 then layers[0].v else layers[0].w, last[t], last[t + 1])
    ensures DownPath(delta, cycles, layers, rest[..|rest| - 1] + last)
  {
    hide PassesTo;
    var p, n := 1 + 2 * cycles, |layers|;
    MorePasses(n, p);
    var m := (n - 1) * p;
    var path := rest[..m] + last;
    forall t: nat | t < n * p
      ensures t / p < n && PassesTo(delta, DownMatrix(layers, cycles, t), path[t], path[t + 1])
    {
      if t < m {
        Divides(t, p, n - 1);
        assert path[t] == rest[t] && path[t + 1] == rest[t + 1];
        assert DownMatrix(layers[1..], cycles, t) == DownMatrix(layers, cycles, t);
      } else {
        LastBlock(t, p, n);
        assert path[t] == last[t - m] && path[t + 1] == last[t - m + 1];
      }
    }
  }

  lemma {:induction false} ForwardPath(delta: Option<real>, cycles: nat, layers: seq<Layer>, x: Vector, out: nat)
    returns (path: seq<Vector>)
    requires Chained(layers, |x|, out)
    ensures UpPath(delta, cycles, layers, path)
    ensures path[0] == x && path[|path| - 1] == Forward(delta, cycles, layers, x, out)
    decreases |layers|
  {
    if layers == [] {
      path := [x];
    } else {
      var first := LayerUp(delta, cycles, layers[0], x);
      var y := EncodeLayer(delta, cycles, layers[0], x);
      var rest := ForwardPath(delta, cycles, layers[1..], y, out);
      JoinUp(delta, cycles, layers, first, rest);
      hide UpPath, EncodeLayer, PassesTo;
      path := first[..2 * cycles + 1] + rest;
    }
  }

  lemma {:induction false} BackwardPath(delta: Option<real>, cycles: nat, layers: seq<Layer>, y: Vector, n: nat)
    returns (path: seq<Vector>)
    requires Chained(layers, n, |y|)
    ensures DownPath(delta, cycles, layers, path)
    ensures path[0] == y && path[|path| - 1] == Backward(delta, cycles, layers, y, n)
    decreases |layers|
  {
    if layers == [] {
      path := [y];
    } else {
      var rest := BackwardPath(delta, cycles, layers[1..], y, |layers[0].w.rows|);
      var z := Backward(delta, cycles, layers[1..], y, |layers[0].w.rows|);
      var last := LayerDown(delta, cycles, layers[0], z);
      JoinDown(delta, cycles, layers, rest, last);
      hide DecodeLayer, PassesTo;
      path := rest[..|rest| - 1] + last;
    }
  }

  /** The latent vector is the end of a path that starts at the normalised window and passes, layer by layer,
      through W, and then e times through V and W. */
  lemma LatentPath(c: Codec, window: Vector) returns (path: seq<Vector>)
    requires Loaded(c) && |window| == c.inputLen
    ensures c.encodeCycles >= 0 && UpPath(c.delta, c.encodeCycles, c.layers, path)
    ensures path[0] == ApplyNorm(c.norm, window) && path[|path| - 1] == Latent(c, window)
  {
    assert c.encodeCycles >= 0;
    hide Forward, ApplyNorm, UpPath;
    path := ForwardPath(c.delta, c.encodeCycles, c.layers, ApplyNorm(c.norm, window), c.latentDim);
  }

  /** The reconstruction starts at the latent vector and passes, last layer first, through V and then d times
      through W and V; the end of the path is denormalised. */
  lemma ReconstructionPath(c: Codec, y: Vector) returns (path: seq<Vector>)
    requires Loaded(c) && |y| == c.latentDim
    ensures c.decodeCycles >= 0 && DownPath(c.delta, c.decodeCycles, c.layers, path)
    ensures path[0] == y && |path[|path| - 1]| == c.inputLen
    ensures Reconstruct(c, y) == InvertNorm(c.norm, path[|path| - 1])
  {
    assert c.decodeCycles >= 0;
    hide Backward, InvertNorm, DownPath;
    path := BackwardPath(c.delta, c.decodeCycles, c.layers, y, c.inputLen);
  }
}
