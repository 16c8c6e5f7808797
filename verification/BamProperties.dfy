/** What the BAM codec guarantees: bounded latents that pack without saturating, cycles that iterate
    the transmission function, and an exact inverse where the layers are inverse to each other. */
module BamProperties {
  import opened Basics
  import opened RealProducts
  import opened FixedPoint
  import opened BamDynamics
  import opened Bam

  // ---------------------------------------------------------------------
  // What the matrices and the normalisation compute
  // ---------------------------------------------------------------------

  function Plus(x: Vector, y: Vector): (z: Vector)
    requires |x| == |y|
    ensures |z| == |x|
  {
    seq(|x|, i requires 0 <= i < |x| => x[i] + y[i])
  }

  function Scaled(k: real, x: Vector): (z: Vector)
    ensures |z| == |x|
  {
    seq(|x|, i requires 0 <= i < |x| => k * x[i])
  }

  lemma {:induction false} DotLinear(a: Vector, x: Vector, y: Vector, k: real)
    requires |a| == |x| == |y|
    ensures Dot(a, Plus(Scaled(k, x), y)) == k * Dot(a, x) + Dot(a, y)
  {
    hide Times;
    if a != [] {
      var z := Plus(Scaled(k, x), y);
      PlusTail(x, y, k);
      DotLinear(a[1..], x[1..], y[1..], k);
      Combined(a[0], k, x[0], y[0], z[0]);
      Regrouped(k, Times(a[0], x[0]), Times(a[0], y[0]), Dot(a[1..], x[1..]), Dot(a[1..], y[1..]),
                Times(a[0], z[0]), Dot(a[1..], z[1..]));
    }
  }

  lemma Regrouped(k: real, a: real, b: real, u: real, v: real, p: real, q: real)
    requires p == k * a + b && q == k * u + v
    ensures p + q == k * (a + u) + (b + v)
  {
  }

  lemma PlusTail(x: Vector, y: Vector, k: real)
    requires |x| == |y| && x != []
    ensures Plus(Scaled(k, x), y)[1..] == Plus(Scaled(k, x[1..]), y[1..])
  {
    var a, b := Plus(Scaled(k, x), y)[1..], Plus(Scaled(k, x[1..]), y[1..]);
    forall i | 0 <= i < |b| ensures a[i] == b[i] {
      assert x[1..][i] == x[i + 1] && y[1..][i] == y[i + 1];
    }
  }

  lemma Combined(a: real, k: real, x: real, y: real, z: real)
    requires z == k * x + y
    ensures Times(a, z) == k * Times(a, x) + Times(a, y)
  {
  }

  lemma {:induction false} DotSwaps(a: Vector, b: Vector)
    requires |a| == |b|
    ensures Dot(a, b) == Dot(b, a)
  {
    if a != [] {
      DotSwaps(a[1..], b[1..]);
    }
  }

  /** A matrix acts linearly, and maps unit vector j to its column j; there is only one such function. */
  lemma MatrixActs(m: Matrix, x: Vector, y: Vector, k: real, j: nat, i: nat)
    requires m.Valid() && |x| == |y| == m.cols && j < m.cols && i < |m.rows|
    ensures MatVec(m, Plus(Scaled(k, x), y))[i] == k * MatVec(m, x)[i] + MatVec(m, y)[i]
    ensures MatVec(m, Unit(m.cols, j))[i] == m.rows[i][j]
  {
    DotLinear(m.rows[i], x, y, k);
    DotUnit(Unit(m.cols, j), j, m.rows[i]);
    DotSwaps(m.rows[i], Unit(m.cols, j));
    hide Dot;
  }

  /** Each coordinate is moved by its mean and divided by its spread; without spread it becomes zero. */
  lemma NormActs(norm: Norm, x: Vector, i: nat)
    requires |norm.mean| == |norm.std| == |x| && i < |x|
    ensures norm.std[i] != 0.0 ==> ApplyNorm(Some(norm), x)[i] * norm.std[i] == x[i] - norm.mean[i]
    ensures norm.std[i] == 0.0 ==> ApplyNorm(Some(norm), x)[i] == 0.0
    ensures InvertNorm(Some(norm), x)[i] - norm.mean[i] == if norm.std[i] == 0.0 then 0.0 else x[i] * norm.std[i]
    ensures ApplyNorm(None, x) == x == InvertNorm(None, x)
  {
  }

  // ---------------------------------------------------------------------
  // Errors
  // ---------------------------------------------------------------------

  /** What the constructor refuses. */
  lemma DynamicsErrorIff(c: Codec)
    ensures ValidateDynamics(c) == Err(CyclesNegative) <==> c.encodeCycles < 0 || c.decodeCycles < 0
    ensures ValidateDynamics(c) == Err(DeltaTooLarge) <==>
              && c.encodeCycles >= 0 && c.decodeCycles >= 0 && c.encodeCycles + c.decodeCycles > 0
              && c.delta.Some? && c.delta.value >= 0.5
    ensures ValidateDynamics(c).Err? ==> ValidateDynamics(c).error in {CyclesNegative, DeltaTooLarge}
  {
  }

  /** Packing and unpacking fail exactly without a positive scale, and packing a vector of the wrong length. */
  lemma PackErrorIff(c: Codec, y: Vector, payload: bytes)
    requires |payload| == c.latentDim * Width(c.packing)
    ensures Pack(c, y) == Err(LatentLength) <==> |y| != c.latentDim
    ensures Pack(c, y) == Err(ScaleMissing) <==> |y| == c.latentDim && c.scale.None?
    ensures Pack(c, y) == Err(ScaleNotPositive) <==> |y| == c.latentDim && c.scale.Some? && c.scale.value <= 0.0
    ensures Pack(c, y).Ok? <==> |y| == c.latentDim && c.scale.Some? && c.scale.value > 0.0
    ensures Unpack(c, payload) == Err(ScaleMissing) <==> c.scale.None?
    ensures Unpack(c, payload) == Err(ScaleNotPositive) <==> c.scale.Some? && c.scale.value <= 0.0
    ensures Unpack(c, payload).Ok? <==> c.scale.Some? && c.scale.value > 0.0
  {
    hide Packed, Unpacked;
  }

  // ---------------------------------------------------------------------
  // One layer
  // ---------------------------------------------------------------------

  lemma OneLayerForward(delta: Option<real>, l: Layer, x: Vector, out: nat)
    requires Chained([l], |x|, out)
    ensures Forward(delta, 0, [l], x, out) == Up(delta, l, x)
  {
    hide MatVec, Transmission;
    assert [l][1..] == [];
    assert EncodeLayer(delta, 0, l, x) == Up(delta, l, x);
    assert Forward(delta, 0, [], Up(delta, l, x), out) == Up(delta, l, x);
  }

  /** A codec of one layer without cycles, on windows of any numbers: each component of the latent vector is the
      point of [-1, 1] nearest to the polynomial of the weighted sum of the normalised window. */
  lemma OneLayerLatent(c: Codec, window: Vector, i: nat, y: real)
    requires Loaded(c) && |window| == c.inputLen && |c.layers| == 1 && c.encodeCycles == 0 && Active(c.delta)
    requires i < c.latentDim && -1.0 <= y <= 1.0
    ensures c.layers[0].w.Valid() && c.layers[0].w.cols == |window| && |c.layers[0].w.rows| == c.latentDim
    ensures var p := Polynomial(c.delta.value, MatVec(c.layers[0].w, ApplyNorm(c.norm, window))[i]);
            var latent := Latent(c, window)[i];
            && -1.0 <= latent <= 1.0 && Abs(latent - p) <= Abs(y - p)
            && (Abs(latent - p) == Abs(y - p) ==> y == latent)
  {
    var l, x := c.layers[0], ApplyNorm(c.norm, window);
    assert c.layers == [l];
    OneLayerForward(c.delta, l, x, c.latentDim);
    ClippedIsNearest(c.delta.value, MatVec(l.w, x)[i], y);
    hide Clipped, Polynomial, MatVec, ApplyNorm;
  }

  /** For the value 3 and delta = 1/10 the component is 6/10, packed as 19660. */
  lemma OutsideTheInterval()
    ensures var c := IdentityCodec(1, 1, Some(0.1), 0, 0, Int16, Some(32767.0));
            Loaded(c) && Pack(c, Latent(c, [3.0])) == Ok([204, 76])
  {
    var c := IdentityCodec(1, 1, Some(0.1), 0, 0, Int16, Some(32767.0));
    IdentityCodecLoads(1, 1, Some(0.1), 0, 0, Int16, Some(32767.0));
    IdentityActs(1);
    var l := c.layers[0];
    assert c.layers == [l] && MatVec(l.w, [3.0]) == [3.0];
    OneLayerForward(c.delta, l, [3.0], 1);
    CubicIsPolynomial(0.1, 3.0);
    var y := Latent(c, [3.0]);
    assert y == [0.6];
    PacksAlone(0.6, 32767.0, 19660);
    hide Packed, Stored, Latent;
    assert Int16Bytes(19660) == [204, 76];
  }

  lemma PacksAlone(x: real, scale: real, n: int)
    requires NearestEven(x * scale, n) && -32768 <= n <= 32767
    ensures Packed(Int16, [x], scale) == Int16Bytes(n)
  {
    QuantiseIs(x, scale, n);
    hide Quantise, NearestEven, Int16Bytes;
    assert [x][..0] == [];
    assert Packed(Int16, [x], scale) == Packed(Int16, [], scale) + Stored(Int16, x, scale);
  }

  // ---------------------------------------------------------------------
  // Bounded latents
  // ---------------------------------------------------------------------

  predicate InUnit(x: Vector) {
    forall i :: 0 <= i < |x| ==> -1.0 <= x[i] <= 1.0
  }

  lemma TransmissionInUnit(delta: Option<real>, x: Vector)
    requires Active(delta)
    ensures InUnit(Transmission(delta, x))
  {
    hide Cubic;
  }

  lemma {:induction false} CyclesInUnit(delta: Option<real>, l: Layer, y: Vector, n: nat)
    requires Active(delta) && l.Fits(l.w.cols) && |y| == |l.w.rows| && InUnit(y)
    ensures InUnit(EncodeCycles(delta, l, y, n))
    decreases n
  {
    hide InUnit, Transmission, MatVec;
    if n > 0 {
      TransmissionInUnit(delta, MatVec(l.w, Down(delta, l, y)));
      CyclesInUnit(delta, l, Up(delta, l, Down(delta, l, y)), n - 1);
    }
  }

  lemma {:induction false} ForwardInUnit(delta: Option<real>, cycles: int, layers: seq<Layer>, x: Vector, out: nat)
    requires Active(delta) && Chained(layers, |x|, out) && (layers == [] ==> InUnit(x))
    ensures InUnit(Forward(delta, cycles, layers, x, out))
    decreases |layers|
  {
    hide InUnit, Transmission, MatVec, EncodeCycles;
    if layers != [] {
      var l := layers[0];
      TransmissionInUnit(delta, MatVec(l.w, x));
      CyclesInUnit(delta, l, Up(delta, l, x), Max(cycles, 0));
      ForwardInUnit(delta, cycles, layers[1..], EncodeLayer(delta, cycles, l, x), out);
    }
  }

  /** With any nonzero delta every component of the latent vector lies in [-1, 1], whatever the weights,
      the normalisation, the window and the number of cycles. */
  lemma LatentBounded(c: Codec, window: Vector)
    requires Loaded(c) && |window| == c.inputLen && Active(c.delta)
    ensures InUnit(Latent(c, window))
  {
    hide InUnit;
    ForwardInUnit(c.delta, c.encodeCycles, c.layers, ApplyNorm(c.norm, window), c.latentDim);
  }

  /** A codec that the constructor has accepted with cycles and a positive delta never clips a value of
      the unit interval. */
  lemma CheckedDynamicsNeverClip(c: Codec, x: real)
    requires Loaded(c) && (c.encodeCycles != 0 || c.decodeCycles != 0) && c.delta.Some? && c.delta.value > 0.0
    requires -1.0 <= x <= 1.0
    ensures Clipped(c.delta.value, x) == Cubic(c.delta.value, x)
  {
    hide Clipped, Cubic;
    NoClipping(c.delta.value, x);
  }

  // ---------------------------------------------------------------------
  // Packing
  // ---------------------------------------------------------------------

  /** The value a packed number comes back as. */
  function Back(p: Packing, x: real, scale: real): real
    requires scale != 0.0
  {
    match p
    case Int8 => QuantiseInt8(x, scale) as real / scale
    case Int16 => Quantise(x, scale) as real / scale
  }

  lemma StoredReturns(p: Packing, x: real, scale: real)
    requires scale != 0.0
    ensures Restored(p, Stored(p, x, scale), scale) == Back(p, x, scale)
  {
    hide Quantise, QuantiseInt8, Int16Bytes, Int16Of, Int8Byte, Int8Of;
    match p {
      case Int8 =>
        QuantiseInt8Range(x, scale);
        Int8RoundTrip(QuantiseInt8(x, scale));
      case Int16 =>
        QuantiseRange(x, scale);
        Int16RoundTrip(Quantise(x, scale));
    }
  }

  /** Each number is rounded to the nearest level, ties to even, and kept within the packing's range. */
  lemma StoredIs(p: Packing, x: real, scale: real, n: int)
    requires NearestEven(x * scale, n)
    ensures p.Int8? ==> Stored(p, x, scale)[0] as int == Max(-128, Min(127, n)) % 256
    ensures p.Int16? ==> Stored(p, x, scale)[0] as int + 256 * Stored(p, x, scale)[1] as int
                         == Max(-32768, Min(32767, n)) % 65536
  {
    QuantiseIs(x, scale, n);
    QuantiseRange(x, scale);
    QuantiseInt8Range(x, scale);
    Int16LittleEndian(Quantise(x, scale));
    Int8TwosComplement(QuantiseInt8(x, scale));
    hide Quantise, QuantiseInt8, NearestEven, Int16Bytes, Int8Byte;
  }

  /** Unpacking what was packed returns every number as its stored level. */
  lemma {:induction false} PackedReturns(p: Packing, y: Vector, scale: real, i: nat)
    requires scale != 0.0 && i < |y|
    ensures Unpacked(p, Packed(p, y, scale), |y|, scale)[i] == Back(p, y[i], scale)
    decreases |y|
  {
    hide Stored, Restored, Back;
    var n := |y| - 1;
    var init := y[..n];
    var m := n * Width(p);
    var b := Packed(p, y, scale);
    assert b[..m] == Packed(p, init, scale) && b[m..] == Stored(p, y[n], scale);
    StoredReturns(p, y[n], scale);
    if i < n {
      PackedReturns(p, init, scale, i);
    }
  }

  /** The largest magnitude either packing can hold on both sides. */
  function Limit(p: Packing): int {
    if p.Int8? then 127 else 32767
  }

  lemma UnitReturns(p: Packing, x: real, scale: real)
    requires 0.0 < scale <= Limit(p) as real && -1.0 <= x <= 1.0
    ensures -1.0 / (2.0 * scale) <= Back(p, x, scale) - x <= 1.0 / (2.0 * scale)
  {
    hide Round, Times;
    UnitFits(x, scale, Limit(p));
    RoundIsNear(Times(x, scale));
    ErrorOfRound(x, scale);
  }

  lemma ErrorOfRound(x: real, scale: real)
    requires scale > 0.0
    ensures -1.0 / (2.0 * scale) <= Round(Times(x, scale)) as real / scale - x <= 1.0 / (2.0 * scale)
  {
    hide Round;
    RoundIsNear(Times(x, scale));
    ErrorOver(Round(Times(x, scale)) as real, x, scale);
  }

  /** With a nonzero delta and a scale of at most 127 or 32767, packing a latent vector never saturates,
      and every component comes back within half a step. */
  lemma LatentRoundTrip(c: Codec, window: Vector, i: nat)
    requires Loaded(c) && |window| == c.inputLen && Active(c.delta)
    requires c.scale.Some? && 0.0 < c.scale.value <= Limit(c.packing) as real && i < c.latentDim
    ensures var y := Latent(c, window);
            var scale := c.scale.value;
            && Pack(c, y).Ok?
            && Unpack(c, Pack(c, y).value).Ok?
            && -1.0 / (2.0 * scale) <= Unpack(c, Pack(c, y).value).value[i] - y[i] <= 1.0 / (2.0 * scale)
  {
    hide Packed, Unpacked, Latent, Back;
    var y := Latent(c, window);
    LatentBounded(c, window);
    PackedReturns(c.packing, y, c.scale.value, i);
    UnitReturns(c.packing, y[i], c.scale.value);
  }

  // ---------------------------------------------------------------------
  // Identity layers
  // ---------------------------------------------------------------------

  function Iterates(delta: Option<real>, x: Vector, n: nat): (y: Vector)
    ensures |y| == |x|
    decreases n
  {
    if n == 0 then x else Iterates(delta, Transmission(delta, x), n - 1)
  }

  lemma {:induction false} IteratesAdd(delta: Option<real>, x: Vector, m: nat, n: nat)
    ensures Iterates(delta, Iterates(delta, x, m), n) == Iterates(delta, x, m + n)
    decreases m
  {
    hide Transmission;
    if m > 0 {
      IteratesAdd(delta, Transmission(delta, x), m - 1, n);
    }
  }

  /** Componentwise it is the iteration of the cubic. */
  lemma {:induction false} IteratesComponent(delta: Option<real>, x: Vector, n: nat, i: nat)
    requires Active(delta) && i < |x|
    ensures Iterates(delta, x, n)[i] == Iterate(delta.value, x[i], n)
    decreases n
  {
    if n > 0 {
      IteratesComponent(delta, Transmission(delta, x), n - 1, i);
    }
  }

  ghost predicate IsIdentity(l: Layer, n: nat) {
    ActsAsIdentity(l.w, n) && ActsAsIdentity(l.v, n)
  }

  lemma IdentityUp(delta: Option<real>, l: Layer, x: Vector)
    requires IsIdentity(l, |x|)
    ensures l.Fits(|x|) && l.w.cols == |x| == |l.w.rows|
    ensures Up(delta, l, x) == Transmission(delta, x) && Down(delta, l, x) == Transmission(delta, x)
  {
    hide MatVec, Transmission;
  }

  lemma {:induction false} IdentityEncodeCycles(delta: Option<real>, l: Layer, y: Vector, n: nat)
    requires IsIdentity(l, |y|)
    ensures l.Fits(|y|) && l.w.cols == |y| == |l.w.rows|
    ensures EncodeCycles(delta, l, y, n) == Iterates(delta, y, 2 * n)
    decreases n
  {
    hide Transmission, IsIdentity, Up, Down;
    IdentityUp(delta, l, y);
    if n > 0 {
      var x := Transmission(delta, y);
      IdentityUp(delta, l, x);
      IdentityEncodeCycles(delta, l, Transmission(delta, x), n - 1);
    }
  }

  lemma {:induction false} IdentityDecodeCycles(delta: Option<real>, l: Layer, x: Vector, n: nat)
    requires IsIdentity(l, |x|)
    ensures l.Fits(|x|) && l.w.cols == |x| == |l.w.rows|
    ensures DecodeCycles(delta, l, x, n) == Iterates(delta, x, 2 * n)
    decreases n
  {
    hide Transmission, IsIdentity, Up, Down;
    IdentityUp(delta, l, x);
    if n > 0 {
      var y := Transmission(delta, x);
      IdentityUp(delta, l, y);
      IdentityDecodeCycles(delta, l, Transmission(delta, y), n - 1);
    }
  }

  ghost predicate AllIdentity(layers: seq<Layer>, n: nat) {
    forall i :: 0 <= i < |layers| ==> IsIdentity(layers[i], n)
  }

  /** How often n layers with some cycles each apply the transmission function. */
  function Passes(n: nat, cycles: nat): nat {
    n * (1 + 2 * cycles)
  }

  lemma NoPasses(cycles: nat)
    ensures Passes(0, cycles) == 0
  {
  }

  lemma PassesStep(n: nat, cycles: nat)
    requires n >= 1
    ensures Passes(n, cycles) == Passes(n - 1, cycles) + (1 + 2 * cycles)
  {
  }

  lemma {:induction false} IdentityForward(delta: Option<real>, cycles: nat, layers: seq<Layer>, x: Vector)
    requires AllIdentity(layers, |x|)
    ensures Chained(layers, |x|, |x|)
    ensures Forward(delta, cycles, layers, x, |x|) == Iterates(delta, x, Passes(|layers|, cycles))
    decreases |layers|
  {
    hide Transmission, IsIdentity, EncodeCycles, Up;
    NoPasses(cycles);
    hide Passes;
    if layers != [] {
      var l, t := layers[0], Transmission(delta, x);
      IdentityUp(delta, l, x);
      IdentityEncodeCycles(delta, l, t, cycles);
      var y := Iterates(delta, t, 2 * cycles);
      IdentityForward(delta, cycles, layers[1..], y);
      IteratesAdd(delta, x, 1 + 2 * cycles, Passes(|layers| - 1, cycles));
      assert Iterates(delta, x, 1 + 2 * cycles) == y;
      PassesStep(|layers|, cycles);
    }
  }

  lemma {:induction false} IdentityBackward(delta: Option<real>, cycles: nat, layers: seq<Layer>, y: Vector)
    requires AllIdentity(layers, |y|)
    ensures Chained(layers, |y|, |y|)
    ensures Backward(delta, cycles, layers, y, |y|) == Iterates(delta, y, Passes(|layers|, cycles))
    decreases |layers|
  {
    hide Transmission, IsIdentity, DecodeCycles, Down;
    NoPasses(cycles);
    hide Passes;
    if layers != [] {
      var l := layers[0];
      IdentityBackward(delta, cycles, layers[1..], y);
      var z := Iterates(delta, y, Passes(|layers| - 1, cycles));
      var t := Transmission(delta, z);
      IdentityUp(delta, l, z);
      IdentityDecodeCycles(delta, l, t, cycles);
      IteratesAdd(delta, y, Passes(|layers| - 1, cycles), 1 + 2 * cycles);
      assert Iterates(delta, z, 1 + 2 * cycles) == Iterates(delta, t, 2 * cycles);
      PassesStep(|layers|, cycles);
    }
  }

  /** How often encoding and decoding through n layers do so together. */
  function Applications(n: nat, e: nat, d: nat): nat {
    n * (2 + 2 * e + 2 * d)
  }

  lemma CycleCount(n: nat, e: nat, d: nat)
    ensures Passes(n, e) + Passes(n, d) == Applications(n, e, d)
  {
  }

  lemma DynamicsValid(c: Codec)
    requires Loaded(c)
    ensures c.encodeCycles >= 0 && c.decodeCycles >= 0 && Chained(c.layers, c.inputLen, c.latentDim)
  {
  }

  lemma IdentityLatent(c: Codec, window: Vector)
    requires Loaded(c) && |window| == c.inputLen && c.norm.None? && AllIdentity(c.layers, c.inputLen)
    ensures c.latentDim == c.inputLen && c.encodeCycles >= 0
    ensures Latent(c, window) == Iterates(c.delta, window, Passes(|c.layers|, c.encodeCycles))
  {
    DynamicsValid(c);
    hide AllIdentity, Iterates, ValidateDynamics, Passes;
    IdentityForward(c.delta, c.encodeCycles, c.layers, window);
    ChainedOnce(c.layers, c.inputLen, c.latentDim, c.inputLen);
  }

  lemma IdentityReconstruct(c: Codec, y: Vector)
    requires Loaded(c) && |y| == c.latentDim == c.inputLen && c.norm.None? && AllIdentity(c.layers, c.inputLen)
    ensures c.decodeCycles >= 0
    ensures Reconstruct(c, y) == Iterates(c.delta, y, Passes(|c.layers|, c.decodeCycles))
  {
    DynamicsValid(c);
    hide AllIdentity, Iterates, ValidateDynamics, Passes;
    IdentityBackward(c.delta, c.decodeCycles, c.layers, y);
  }

  lemma Compose(delta: Option<real>, x: Vector, y: Vector, z: Vector, n: nat, e: nat, d: nat)
    requires y == Iterates(delta, x, Passes(n, e)) && z == Iterates(delta, y, Passes(n, d))
    ensures z == Iterates(delta, x, Applications(n, e, d))
  {
    CycleCount(n, e, d);
    hide Passes, Applications, Iterates;
    IteratesAdd(delta, x, Passes(n, e), Passes(n, d));
  }

  /** A codec of identity layers. */
  function IdentityCodec(
    n: nat, layers: nat, delta: Option<real>, e: int, d: int, packing: Packing, scale: Option<real>): Codec
  {
    var l := Layer(IdentityMatrix(n), IdentityMatrix(n));
    Codec(seq(layers, i => l), None, delta, e, d, packing, scale, n, n)
  }

  /** It exists for every size, number of layers, and dynamics that the constructor accepts. */
  lemma IdentityCodecLoads(
    n: nat, layers: nat, delta: Option<real>, e: int, d: int, packing: Packing, scale: Option<real>)
    requires layers >= 1
    ensures var c := IdentityCodec(n, layers, delta, e, d, packing, scale);
            && AllIdentity(c.layers, n)
            && (Loaded(c) <==> e >= 0 && d >= 0 && (e == d == 0 || delta.None? || delta.value < 0.5))
  {
    hide Forward, Iterates;
    var c := IdentityCodec(n, layers, delta, e, d, packing, scale);
    IdentityActs(n);
    IdentityForward(delta, 0, c.layers, seq(n, i => 0.0));
  }

  /** Identity layers, e encoding and d decoding cycles: reconstructing a latent vector applies the
      transmission function 2 + 2e + 2d times per layer. */
  lemma IdentityLayersIterate(c: Codec, window: Vector)
    requires Loaded(c) && |window| == c.inputLen && c.norm.None? && AllIdentity(c.layers, c.inputLen)
    ensures c.latentDim == c.inputLen && c.encodeCycles >= 0 && c.decodeCycles >= 0
    ensures Reconstruct(c, Latent(c, window))
            == Iterates(c.delta, window, Applications(|c.layers|, c.encodeCycles, c.decodeCycles))
  {
    hide Loaded, AllIdentity, Latent, Reconstruct, Passes, Applications, Iterates;
    IdentityLatent(c, window);
    var y := Latent(c, window);
    IdentityReconstruct(c, y);
    Compose(c.delta, window, y, Reconstruct(c, y), |c.layers|, c.encodeCycles, c.decodeCycles);
  }

  /** So no component of such a reconstruction is smaller in magnitude than the window's, and none
      leaves the interval. */
  lemma IdentityLayersNeverShrink(c: Codec, window: Vector, i: nat)
    requires Loaded(c) && |window| == c.inputLen && c.norm.None? && AllIdentity(c.layers, c.inputLen)
    requires Active(c.delta) && 0.0 < c.delta.value <= 0.5 && i < |window| && -1.0 <= window[i] <= 1.0
    ensures c.latentDim == c.inputLen
    ensures Abs(window[i]) <= Abs(Reconstruct(c, Latent(c, window))[i]) <= 1.0
  {
    hide Loaded, AllIdentity, Iterates, Iterate, Latent, Reconstruct, Abs, Applications;
    IdentityLayersIterate(c, window);
    var k := Applications(|c.layers|, c.encodeCycles, c.decodeCycles);
    IteratesComponent(c.delta, window, k, i);
    IterateNeverShrinks(c.delta.value, window[i], k);
  }

  lemma {:induction false} ChainedOnce(layers: seq<Layer>, n: nat, a: nat, b: nat)
    requires Chained(layers, n, a) && Chained(layers, n, b)
    ensures a == b
    decreases |layers|
  {
    if layers != [] {
      ChainedOnce(layers[1..], |layers[0].w.rows|, a, b);
    }
  }

  // ---------------------------------------------------------------------
  // Layers that undo each other
  // ---------------------------------------------------------------------

  lemma {:induction false} LinearEncodeCycles(delta: Option<real>, l: Layer, x: Vector, n: nat)
    requires !Active(delta) && l.Fits(|x|) && Undoes(l.v, l.w)
    ensures EncodeCycles(delta, l, MatVec(l.w, x), n) == MatVec(l.w, x)
    decreases n
  {
    hide MatVec;
    if n > 0 {
      LinearEncodeCycles(delta, l, x, n - 1);
    }
  }

  lemma {:induction false} LinearDecodeCycles(delta: Option<real>, l: Layer, x: Vector, n: nat)
    requires !Active(delta) && l.Fits(|x|) && Undoes(l.v, l.w)
    ensures DecodeCycles(delta, l, x, n) == x
    decreases n
  {
    hide MatVec;
    if n > 0 {
      LinearDecodeCycles(delta, l, x, n - 1);
    }
  }

  lemma {:induction false} LinearRoundTrip(
    delta: Option<real>, e: int, d: int, layers: seq<Layer>, x: Vector, out: nat)
    requires !Active(delta) && Chained(layers, |x|, out)
    requires forall i :: 0 <= i < |layers| ==> Undoes(layers[i].v, layers[i].w)
    ensures Backward(delta, d, layers, Forward(delta, e, layers, x, out), |x|) == x
    decreases |layers|
  {
    hide MatVec, EncodeCycles, DecodeCycles;
    if layers != [] {
      var l := layers[0];
      LinearEncodeCycles(delta, l, x, Max(e, 0));
      LinearDecodeCycles(delta, l, x, Max(d, 0));
      LinearRoundTrip(delta, e, d, layers[1..], EncodeLayer(delta, e, l, x), out);
    }
  }

  lemma NormInverts(norm: Option<Norm>, x: Vector, i: nat)
    requires norm.Some? ==> |norm.value.mean| == |norm.value.std| == |x|
    requires i < |x|
    ensures InvertNorm(norm, ApplyNorm(norm, x))[i]
            == if norm.Some? && norm.value.std[i] == 0.0 then norm.value.mean[i] else x[i]
  {
    if norm.Some? && norm.value.std[i] != 0.0 {
      var s := norm.value.std[i];
      assert ((x[i] - norm.value.mean[i]) / s) * s == x[i] - norm.value.mean[i];
    }
  }

  /** Without dynamics, and with V undoing W in every layer, reconstruction is exact for any number of
      layers and cycles; only coordinates without spread are replaced by their mean. */
  lemma LinearReconstruction(c: Codec, window: Vector, i: nat)
    requires Loaded(c) && |window| == c.inputLen && !Active(c.delta) && i < |window|
    requires forall j :: 0 <= j < |c.layers| ==> Undoes(c.layers[j].v, c.layers[j].w)
    ensures Reconstruct(c, Latent(c, window))[i]
            == if c.norm.Some? && c.norm.value.std[i] == 0.0 then c.norm.value.mean[i] else window[i]
  {
    hide Forward, Backward, ApplyNorm, InvertNorm, Undoes;
    LinearRoundTrip(c.delta, c.encodeCycles, c.decodeCycles, c.layers, ApplyNorm(c.norm, window), c.latentDim);
    NormInverts(c.norm, window, i);
  }
}
