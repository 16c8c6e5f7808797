/** The BAM codec (loralink_mllc/codecs/bam.py): normalisation, layers with recurrent cycles, and
    integer packing of the latent vector. Floats are real numbers. */
module Bam {
  import opened Basics
  import opened RealProducts
  import opened FixedPoint
  import opened BamDynamics

  type Vector = seq<real>

  // ---------------------------------------------------------------------
  // Matrices
  // ---------------------------------------------------------------------

  datatype Matrix = Matrix(cols: nat, rows: seq<Vector>)
  {
    predicate Valid() {
      forall i :: 0 <= i < |rows| ==> |rows[i]| == cols
    }
  }

  function Dot(a: Vector, b: Vector): real
    requires |a| == |b|
  {
    if a == [] then 0.0 else Times(a[0], b[0]) + Dot(a[1..], b[1..])
  }

  function MatVec(m: Matrix, x: Vector): (y: Vector)
    requires m.Valid() && |x| == m.cols
    ensures |y| == |m.rows|
  {
    seq(|m.rows|, i requires 0 <= i < |m.rows| => Dot(m.rows[i], x))
  }

  /** m changes nothing. */
  ghost predicate ActsAsIdentity(m: Matrix, n: nat) {
    m.Valid() && m.cols == n && |m.rows| == n && forall x: Vector :: |x| == n ==> MatVec(m, x) == x
  }

  /** v undoes w. */
  ghost predicate Undoes(v: Matrix, w: Matrix) {
    && v.Valid() && w.Valid() && v.cols == |w.rows| && |v.rows| == w.cols
    && forall x: Vector :: |x| == w.cols ==> MatVec(v, MatVec(w, x)) == x
  }

  function Unit(n: nat, i: int): Vector {
    seq(n, j => if j == i then 1.0 else 0.0)
  }

  function IdentityMatrix(n: nat): Matrix {
    Matrix(n, seq(n, i => Unit(n, i)))
  }

  lemma {:induction false} DotUnit(a: Vector, i: nat, b: Vector)
    requires |a| == |b| && i < |a| && forall j :: 0 <= j < |a| ==> a[j] == if j == i then 1.0 else 0.0
    ensures Dot(a, b) == b[i]
  {
    if i == 0 {
      DotZero(a[1..], b[1..]);
    } else {
      DotUnit(a[1..], i - 1, b[1..]);
    }
  }

  lemma {:induction false} DotZero(a: Vector, b: Vector)
    requires |a| == |b| && forall j :: 0 <= j < |a| ==> a[j] == 0.0
    ensures Dot(a, b) == 0.0
  {
    if a != [] {
      DotZero(a[1..], b[1..]);
    }
  }

  /** The identity matrix is one. */
  lemma IdentityActs(n: nat)
    ensures ActsAsIdentity(IdentityMatrix(n), n)
  {
    var m := IdentityMatrix(n);
    forall x: Vector | |x| == n ensures MatVec(m, x) == x {
      forall i | 0 <= i < n ensures MatVec(m, x)[i] == x[i] {
        DotUnit(m.rows[i], i, x);
      }
    }
  }

  // ---------------------------------------------------------------------
  // The codec
  // ---------------------------------------------------------------------

  datatype Layer = Layer(w: Matrix, v: Matrix)
  {
    /** W maps n values to some, V maps them back. */
    predicate Fits(n: nat) {
      w.Valid() && v.Valid() && w.cols == n && |v.rows| == n && v.cols == |w.rows|
    }
  }

  datatype Norm = Norm(mean: Vector, std: Vector)

  datatype Packing = Int8 | Int16

  datatype BamError =
    | CyclesNegative
    | DeltaTooLarge
    | WindowLength
    | LatentLength
    | PayloadLength
    | ScaleMissing
    | ScaleNotPositive

  datatype Codec = Codec(
    layers: seq<Layer>, norm: Option<Norm>, delta: Option<real>, encodeCycles: int, decodeCycles: int,
    packing: Packing, scale: Option<real>, inputLen: nat, latentDim: nat)

  /** `_validate_dynamics`. */
  function ValidateDynamics(c: Codec): Result<(), BamError> {
    if c.encodeCycles < 0 || c.decodeCycles < 0 then Err(CyclesNegative)
    else if (c.encodeCycles != 0 || c.decodeCycles != 0) && c.delta.Some? && c.delta.value >= 0.5 then
      Err(DeltaTooLarge)
    else Ok(())
  }

  /** The layers chain from n inputs to `out` outputs. */
  predicate Chained(layers: seq<Layer>, n: nat, out: nat) {
    if layers == [] then n == out
    else layers[0].Fits(n) && Chained(layers[1..], |layers[0].w.rows|, out)
  }

  /** What the constructor has checked when it returns. */
  ghost predicate Loaded(c: Codec) {
    && ValidateDynamics(c).Ok?
    && c.layers != [] && Chained(c.layers, c.inputLen, c.latentDim)
    && (c.norm.Some? ==> |c.norm.value.mean| == |c.norm.value.std| == c.inputLen)
  }

  predicate Active(delta: Option<real>) {
    delta.Some? && delta.value != 0.0
  }

  function Transmission(delta: Option<real>, x: Vector): (y: Vector)
    ensures |y| == |x|
  {
    if !Active(delta) then x
    else seq(|x|, i requires 0 <= i < |x| => Clipped(delta.value, x[i]))
  }

  function Up(delta: Option<real>, l: Layer, x: Vector): Vector
    requires l.Fits(|x|)
  {
    Transmission(delta, MatVec(l.w, x))
  }

  function Down(delta: Option<real>, l: Layer, y: Vector): Vector
    requires l.Fits(l.w.cols) && |y| == |l.w.rows|
  {
    Transmission(delta, MatVec(l.v, y))
  }

  /** n cycles down and up again. */
  function EncodeCycles(delta: Option<real>, l: Layer, y: Vector, n: nat): (r: Vector)
    requires l.Fits(l.w.cols) && |y| == |l.w.rows|
    ensures |r| == |y|
    decreases n
  {
    if n == 0 then y else EncodeCycles(delta, l, Up(delta, l, Down(delta, l, y)), n - 1)
  }

  /** n cycles up and down again. */
  function DecodeCycles(delta: Option<real>, l: Layer, x: Vector, n: nat): (r: Vector)
    requires l.Fits(|x|)
    ensures |r| == |x|
    decreases n
  {
    if n == 0 then x else DecodeCycles(delta, l, Down(delta, l, Up(delta, l, x)), n - 1)
  }

  function EncodeLayer(delta: Option<real>, cycles: int, l: Layer, x: Vector): (y: Vector)
    requires l.Fits(|x|)
    ensures |y| == |l.w.rows|
  {
    EncodeCycles(delta, l, Up(delta, l, x), Max(cycles, 0))
  }

  function DecodeLayer(delta: Option<real>, cycles: int, l: Layer, y: Vector): (x: Vector)
    requires l.Fits(l.w.cols) && |y| == |l.w.rows|
    ensures |x| == l.w.cols
  {
    DecodeCycles(delta, l, Down(delta, l, y), Max(cycles, 0))
  }

  function Forward(delta: Option<real>, cycles: int, layers: seq<Layer>, x: Vector, out: nat): (y: Vector)
    requires Chained(layers, |x|, out)
    ensures |y| == out
  {
    if layers == [] then x
    else Forward(delta, cycles, layers[1..], EncodeLayer(delta, cycles, layers[0], x), out)
  }

  /** The layers in reverse. */
  function Backward(delta: Option<real>, cycles: int, layers: seq<Layer>, y: Vector, n: nat): (x: Vector)
    requires Chained(layers, n, |y|)
    ensures |x| == n
  {
    if layers == [] then y
    else DecodeLayer(delta, cycles, layers[0], Backward(delta, cycles, layers[1..], y, |layers[0].w.rows|))
  }

  function ApplyNorm(norm: Option<Norm>, x: Vector): (z: Vector)
    requires norm.Some? ==> |norm.value.mean| == |norm.value.std| == |x|
    ensures |z| == |x|
  {
    if norm.None? then x
    else seq(|x|, i requires 0 <= i < |x| =>
               if norm.value.std[i] == 0.0 then 0.0 else (x[i] - norm.value.mean[i]) / norm.value.std[i])
  }

  function InvertNorm(norm: Option<Norm>, z: Vector): (x: Vector)
    requires norm.Some? ==> |norm.value.mean| == |norm.value.std| == |z|
    ensures |x| == |z|
  {
    if norm.None? then z
    else seq(|z|, i requires 0 <= i < |z| =>
               if norm.value.std[i] == 0.0 then norm.value.mean[i] else z[i] * norm.value.std[i] + norm.value.mean[i])
  }

  /** The latent vector of a window, and the window a latent vector stands for. */
  function Latent(c: Codec, window: Vector): (y: Vector)
    requires Loaded(c) && |window| == c.inputLen
    ensures |y| == c.latentDim
  {
    Forward(c.delta, c.encodeCycles, c.layers, ApplyNorm(c.norm, window), c.latentDim)
  }

  function Reconstruct(c: Codec, y: Vector): (window: Vector)
    requires Loaded(c) && |y| == c.latentDim
    ensures |window| == c.inputLen
  {
    InvertNorm(c.norm, Backward(c.delta, c.decodeCycles, c.layers, y, c.inputLen))
  }

  // ---------------------------------------------------------------------
  // Packing
  // ---------------------------------------------------------------------

  function Width(p: Packing): nat {
    if p.Int8? then 1 else 2
  }

  /** One number as bytes, rounded and saturated. */
  function Stored(p: Packing, x: real, scale: real): (b: bytes)
    ensures |b| == Width(p)
  {
    match p
    case Int8 => [Int8Byte(QuantiseInt8(x, scale))]
    case Int16 => Int16Bytes(Quantise(x, scale))
  }

  function Restored(p: Packing, b: bytes, scale: real): real
    requires |b| == Width(p) && scale != 0.0
  {
    match p
    case Int8 => Int8Of(b[0]) as real / scale
    case Int16 => Int16Of(b) as real / scale
  }

  function Packed(p: Packing, y: Vector, scale: real): (b: bytes)
    ensures |b| == |y| * Width(p)
  {
    if y == [] then [] else Packed(p, y[..|y| - 1], scale) + Stored(p, y[|y| - 1], scale)
  }

  function Unpacked(p: Packing, b: bytes, n: nat, scale: real): (y: Vector)
    requires |b| == n * Width(p) && scale != 0.0
    ensures |y| == n
  {
    if n == 0 then []
    else
      var m := (n - 1) * Width(p);
      Unpacked(p, b[..m], n - 1, scale) + [Restored(p, b[m..], scale)]
  }

  function RequireScale(c: Codec): Result<real, BamError> {
    if c.scale.None? then Err(ScaleMissing)
    else if c.scale.value <= 0.0 then Err(ScaleNotPositive)
    else Ok(c.scale.value)
  }

  /** `_pack`. */
  function Pack(c: Codec, y: Vector): Result<bytes, BamError> {
    if |y| != c.latentDim then Err(LatentLength)
    else
      match RequireScale(c)
      case Err(e) => Err(e)
      case Ok(scale) => Ok(Packed(c.packing, y, scale))
  }

  /** `_unpack` of a payload of the expected length. */
  function Unpack(c: Codec, payload: bytes): Result<Vector, BamError>
    requires |payload| == c.latentDim * Width(c.packing)
  {
    match RequireScale(c)
    case Err(e) => Err(e)
    case Ok(scale) => Ok(Unpacked(c.packing, payload, c.latentDim, scale))
  }

  // ---------------------------------------------------------------------
  // The loops
  // ---------------------------------------------------------------------

  /** The body of the layer loop of `encode`. */
  method RunEncodeLayer(delta: Option<real>, cycles: int, layer: Layer, vector: Vector) returns (r: Vector)
    requires layer.Fits(|vector|)
    ensures r == EncodeLayer(delta, cycles, layer, vector)
  {
    var y0 := Transmission(delta, MatVec(layer.w, vector));
    if cycles <= 0 {
      return y0;
    }
    var yc := y0;
    var xc := vector;
    for i := 0 to cycles
      invariant |yc| == |layer.w.rows|
      invariant EncodeCycles(delta, layer, yc, cycles - i) == EncodeCycles(delta, layer, y0, cycles)
    {
      xc := Transmission(delta, MatVec(layer.v, yc));
      yc := Transmission(delta, MatVec(layer.w, xc));
    }
    return yc;
  }

  method RunDecodeLayer(delta: Option<real>, cycles: int, layer: Layer, vector: Vector) returns (r: Vector)
    requires layer.Fits(layer.w.cols) && |vector| == |layer.w.rows|
    ensures r == DecodeLayer(delta, cycles, layer, vector)
  {
    var x0 := Transmission(delta, MatVec(layer.v, vector));
    if cycles <= 0 {
      return x0;
    }
    var xc := x0;
    var yc := vector;
    for i := 0 to cycles
      invariant |xc| == layer.w.cols
      invariant DecodeCycles(delta, layer, xc, cycles - i) == DecodeCycles(delta, layer, x0, cycles)
    {
      yc := Transmission(delta, MatVec(layer.w, xc));
      xc := Transmission(delta, MatVec(layer.v, yc));
    }
    return xc;
  }

  method Encode(c: Codec, window: Vector) returns (r: Result<bytes, BamError>)
    requires Loaded(c)
    ensures |window| != c.inputLen ==> r == Err(WindowLength)
    ensures |window| == c.inputLen ==> r == Pack(c, Latent(c, window))
  {
    hide EncodeLayer, ValidateDynamics;
    if |window| != c.inputLen {
      return Err(WindowLength);
    }
    var vector := ApplyNorm(c.norm, window);
    ghost var z := vector;
    for i := 0 to |c.layers|
      invariant Chained(c.layers[i..], |vector|, c.latentDim)
      invariant Forward(c.delta, c.encodeCycles, c.layers[i..], vector, c.latentDim)
             == Forward(c.delta, c.encodeCycles, c.layers, z, c.latentDim)
    {
      assert c.layers[i..][0] == c.layers[i] && c.layers[i..][1..] == c.layers[i + 1..];
      vector := RunEncodeLayer(c.delta, c.encodeCycles, c.layers[i], vector);
    }
    r := Pack(c, vector);
  }

  method Decode(c: Codec, payload: bytes) returns (r: Result<Vector, BamError>)
    requires Loaded(c)
    ensures |payload| != c.latentDim * Width(c.packing) ==> r == Err(PayloadLength)
    ensures |payload| == c.latentDim * Width(c.packing) ==>
              match Unpack(c, payload)
              case Err(e) => r == Err(e)
              case Ok(y) => |y| == c.latentDim && r == Ok(Reconstruct(c, y))
  {
    hide DecodeLayer, ValidateDynamics;
    if |payload| != c.latentDim * Width(c.packing) {
      return Err(PayloadLength);
    }
    var unpacked := Unpack(c, payload);
    if unpacked.Err? {
      return Err(unpacked.error);
    }
    var vector := unpacked.value;
    ghost var y := vector;
    var i := |c.layers|;
    ChainedTail(c.layers, c.inputLen, c.latentDim, i);
    assert c.layers[i..] == [];
    while i > 0
      invariant i <= |c.layers| && |vector| == DimAt(c.layers, c.inputLen, i)
      invariant Chained(c.layers[i..], |vector|, |y|)
      invariant vector == Backward(c.delta, c.decodeCycles, c.layers[i..], y, |vector|)
    {
      i := i - 1;
      ChainedTail(c.layers, c.inputLen, c.latentDim, i);
      assert c.layers[i..][0] == c.layers[i] && c.layers[i..][1..] == c.layers[i + 1..];
      vector := RunDecodeLayer(c.delta, c.decodeCycles, c.layers[i], vector);
    }
    assert c.layers[0..] == c.layers;
    vector := InvertNorm(c.norm, vector);
    return Ok(vector);
  }

  /** How many values go into layer i. */
  function DimAt(layers: seq<Layer>, n: nat, i: nat): nat
    requires i <= |layers|
  {
    if i == 0 then n else |layers[i - 1].w.rows|
  }

  lemma {:induction false} ChainedTail(layers: seq<Layer>, n: nat, out: nat, i: nat)
    requires Chained(layers, n, out) && i <= |layers|
    ensures Chained(layers[i..], DimAt(layers, n, i), out)
    ensures i < |layers| ==> layers[i].Fits(DimAt(layers, n, i))
  {
    if i == 0 {
      assert layers[0..] == layers;
    } else {
      ChainedTail(layers[1..], |layers[0].w.rows|, out, i - 1);
      assert layers[1..][i - 1..] == layers[i..];
    }
  }
}
