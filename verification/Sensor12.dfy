/** The packed codec for twelve sensor fields (loralink_mllc/codecs/sensor12_packed.py). */
module Sensor12 {
  import opened Basics
  import opened RealProducts
  import opened FixedPoint

  /** 32-bit floats are not interpreted: four bytes that round-trip. */
  datatype Float32 = Float32(pack: real -> bytes, unpack: bytes -> real)
  {
    ghost predicate Valid() {
      && (forall x :: |pack(x)| == 4)
      && (forall x :: pack(unpack(pack(x))) == pack(x))
      && unpack([0, 0, 0, 0]) == 0.0
    }
  }

  datatype Scales = Scales(accel: real, gyro: real, rpy: real, f32: Float32)
  {
    ghost predicate Valid() {
      accel > 0.0 && gyro > 0.0 && rpy > 0.0 && f32.Valid()
    }
  }

  datatype CodecError = WindowLength | PayloadLength | WindowCount

  const FIELDS: nat := 12
  const STEP: nat := 30

  /** Three floats, then nine 16-bit integers. */
  function Size(k: nat): nat {
    if k < 3 then 4 else 2
  }

  /** Where field k of a step begins. */
  function Offset(k: nat): nat {
    if k < 3 then 4 * k else 6 + 2 * k
  }

  function ScaleOf(c: Scales, k: nat): real {
    if k < 6 then c.accel else if k < 9 then c.gyro else c.rpy
  }

  function FieldBytes(c: Scales, k: nat, x: real): bytes {
    if k < 3 then c.f32.pack(x) else Int16Bytes(Quantise(x, ScaleOf(c, k)))
  }

  function FieldValue(c: Scales, k: nat, b: bytes): real
    requires c.accel != 0.0 && c.gyro != 0.0 && c.rpy != 0.0
    requires k < 3 || |b| == 2
  {
    if k < 3 then c.f32.unpack(b) else Int16Of(b) as real / ScaleOf(c, k)
  }

  /** Where field i of a window begins. */
  function Position(i: nat): nat {
    STEP * (i / FIELDS) + Offset(i % FIELDS)
  }

  lemma PositionStep(i: nat)
    ensures Position(i + 1) == Position(i) + Size(i % FIELDS)
  {
    if i % FIELDS == 11 {
      assert (i + 1) / FIELDS == i / FIELDS + 1;
    }
  }

  lemma PositionOfStep(i: nat)
    requires i % FIELDS == 0
    ensures FIELDS * Position(i) == STEP * i
  {
  }

  lemma {:induction false} PositionMonotone(i: nat, j: nat)
    requires i <= j
    ensures Position(i) <= Position(j)
    ensures i < j ==> Position(i) + Size(i % FIELDS) <= Position(j)
    decreases j
  {
    if i < j {
      PositionMonotone(i, j - 1);
      PositionStep(j - 1);
    }
  }

  // ---------------------------------------------------------------------
  // Encoding
  // ---------------------------------------------------------------------

  /** The bytes of the first n fields. */
  function Packed(c: Scales, window: seq<real>, n: nat): bytes
    requires n <= |window|
  {
    if n == 0 then [] else Packed(c, window, n - 1) + FieldBytes(c, (n - 1) % FIELDS, window[n - 1])
  }

  lemma FieldBytesSize(c: Scales, k: nat, x: real)
    requires c.Valid() && k < FIELDS
    ensures |FieldBytes(c, k, x)| == Size(k)
  {
    QuantiseRange(x, ScaleOf(c, k));
  }

  lemma {:induction false} PackedLength(c: Scales, window: seq<real>, n: nat)
    requires c.Valid() && n <= |window|
    ensures |Packed(c, window, n)| == Position(n)
  {
    hide FieldBytes, Position;
    if n == 0 {
      NoPosition();
    } else {
      PackedLength(c, window, n - 1);
      FieldBytesSize(c, (n - 1) % FIELDS, window[n - 1]);
      PositionStep(n - 1);
    }
  }

  lemma NoPosition()
    ensures Position(0) == 0
  {
  }

  /** Field i occupies its own place and no other. */
  lemma {:induction false} FieldAt(c: Scales, window: seq<real>, n: nat, i: nat)
    requires c.Valid() && i < n <= |window|
    ensures Position(i) + Size(i % FIELDS) <= |Packed(c, window, n)|
    ensures Packed(c, window, n)[Position(i)..Position(i) + Size(i % FIELDS)]
            == FieldBytes(c, i % FIELDS, window[i])
  {
    hide FieldBytes, Position;
    PackedLength(c, window, n);
    PackedLength(c, window, n - 1);
    PositionMonotone(i, n);
    FieldBytesSize(c, i % FIELDS, window[i]);
    if i < n - 1 {
      FieldAt(c, window, n - 1, i);
      PositionMonotone(i, n - 1);
    }
  }

  lemma PackedNext(c: Scales, window: seq<real>, steps: nat, k: nat)
    requires k < FIELDS && FIELDS * steps + k < |window|
    ensures Packed(c, window, FIELDS * steps + k + 1)
            == Packed(c, window, FIELDS * steps + k) + FieldBytes(c, k, window[FIELDS * steps + k])
  {
    hide FieldBytes;
    WithinStep(FIELDS * steps, k);
  }

  method Encode(c: Scales, window: seq<real>) returns (r: Result<bytes, CodecError>)
    requires c.Valid()
    ensures |window| % FIELDS != 0 ==> r == Err(WindowLength)
    ensures |window| % FIELDS == 0 ==> r == Ok(Packed(c, window, |window|)) && FIELDS * |r.value| == STEP * |window|
  {
    if |window| % 12 != 0 {
      return Err(WindowLength);
    }
    PackedLength(c, window, |window|);
    PositionOfStep(|window|);
    var n := |window| / 12;
    assert |window| == FIELDS * n;
    hide Scales.Valid, Position, Packed;
    var out: bytes := [];
    NothingPacked(c, window);
    for step := 0 to n
      invariant out == Packed(c, window, FIELDS * step)
    {
      out := PackStep(c, window, step, out);
    }
    return Ok(out);
  }

  lemma NothingPacked(c: Scales, window: seq<real>)
    ensures Packed(c, window, 0) == []
  {
  }

  /** `struct.pack` of the twelve fields of one step. */
  method PackStep(c: Scales, window: seq<real>, step: nat, before: bytes) returns (out: bytes)
    requires c.Valid() && FIELDS * (step + 1) <= |window| && before == Packed(c, window, FIELDS * step)
    ensures out == Packed(c, window, FIELDS * (step + 1))
  {
    hide FieldBytes, Packed, Scales.Valid;
    out := before;
    for k := 0 to 12
      invariant out == Packed(c, window, FIELDS * step + k)
    {
      PackedNext(c, window, step, k);
      out := out + FieldBytes(c, k, window[FIELDS * step + k]);
    }
  }

  lemma WithinStep(i: nat, k: nat)
    requires i % FIELDS == 0 && k < FIELDS
    ensures (i + k) % FIELDS == k && (i + k) / FIELDS == i / FIELDS
  {
  }

  // ---------------------------------------------------------------------
  // Decoding
  // ---------------------------------------------------------------------

  /** The values of the first n fields of a payload. */
  function Unpacked(c: Scales, payload: bytes, n: nat): seq<real>
    requires c.accel != 0.0 && c.gyro != 0.0 && c.rpy != 0.0 && Position(n) <= |payload|
  {
    if n == 0 then []
    else
      PositionStep(n - 1);
      var at := Position(n - 1);
      var k := (n - 1) % FIELDS;
      Unpacked(c, payload, n - 1) + [FieldValue(c, k, payload[at..at + Size(k)])]
  }

  lemma {:induction false} UnpackedAt(c: Scales, payload: bytes, n: nat, i: nat)
    requires c.Valid() && Position(n) <= |payload| && i < n
    ensures |Unpacked(c, payload, n)| == n && Position(i) + Size(i % FIELDS) <= |payload|
    ensures Unpacked(c, payload, n)[i]
            == FieldValue(c, i % FIELDS, payload[Position(i)..Position(i) + Size(i % FIELDS)])
  {
    hide FieldValue, Position;
    PositionStep(n - 1);
    PositionMonotone(i, n);
    if n - 1 > 0 {
      UnpackedAt(c, payload, n - 1, if i < n - 1 then i else 0);
    }
  }

  lemma UnpackedNext(c: Scales, payload: bytes, steps: nat, k: nat)
    requires c.Valid() && k < FIELDS && STEP * (steps + 1) <= |payload|
    ensures Position(FIELDS * steps + k) == STEP * steps + Offset(k)
    ensures Position(FIELDS * steps + k + 1) == STEP * steps + Offset(k) + Size(k) <= |payload|
    ensures Unpacked(c, payload, FIELDS * steps + k + 1)
            == Unpacked(c, payload, FIELDS * steps + k)
               + [FieldValue(c, k, payload[STEP * steps + Offset(k)..STEP * steps + Offset(k) + Size(k)])]
  {
    hide FieldValue, Position;
    PositionInStep(steps, k);
    PositionStep(FIELDS * steps + k);
  }

  method Decode(c: Scales, payload: bytes) returns (r: Result<seq<real>, CodecError>)
    requires c.Valid()
    ensures |payload| % STEP != 0 ==> r == Err(PayloadLength)
    ensures |payload| % STEP == 0 ==>
              var n := FIELDS * (|payload| / STEP);
              Position(n) == |payload| && r == Ok(Unpacked(c, payload, n))
  {
    if |payload| % 30 != 0 {
      return Err(PayloadLength);
    }
    var n := |payload| / 30;
    assert |payload| == STEP * n;
    PositionOfSteps(n);
    PositionOfSteps(0);
    NothingUnpacked(c, payload);
    hide Position, Unpacked;
    var out: seq<real> := [];
    for step := 0 to n
      invariant Position(FIELDS * step) == STEP * step && out == Unpacked(c, payload, FIELDS * step)
    {
      PositionOfSteps(step + 1);
      out := UnpackStep(c, payload, step, out);
    }
    return Ok(out);
  }

  lemma NothingUnpacked(c: Scales, payload: bytes)
    requires c.Valid()
    ensures Position(0) == 0 && Unpacked(c, payload, 0) == []
  {
  }

  /** `struct.unpack_from` at one step. */
  method UnpackStep(c: Scales, payload: bytes, step: nat, before: seq<real>) returns (out: seq<real>)
    requires c.Valid() && STEP * (step + 1) <= |payload| && Position(FIELDS * step) == STEP * step
    requires before == Unpacked(c, payload, FIELDS * step)
    ensures Position(FIELDS * (step + 1)) <= |payload| && out == Unpacked(c, payload, FIELDS * (step + 1))
  {
    hide FieldValue, Position, Unpacked;
    out := before;
    for k := 0 to 12
      invariant Position(FIELDS * step + k) <= |payload| && out == Unpacked(c, payload, FIELDS * step + k)
    {
      UnpackedNext(c, payload, step, k);
      var at := 30 * step + Offset(k);
      out := out + [FieldValue(c, k, payload[at..at + Size(k)])];
    }
  }

  lemma PositionInStep(steps: nat, k: nat)
    requires k < FIELDS
    ensures (FIELDS * steps + k) % FIELDS == k
    ensures Position(FIELDS * steps + k) == STEP * steps + Offset(k)
  {
    WithinStep(FIELDS * steps, k);
  }

  lemma PositionOfSteps(steps: nat)
    ensures Position(FIELDS * steps) == STEP * steps
  {
    PositionOfStep(FIELDS * steps);
  }

  // ---------------------------------------------------------------------
  // What comes back
  // ---------------------------------------------------------------------

  /** The value of field i after a round trip through the packed form. */
  function Returned(c: Scales, window: seq<real>, i: nat): real
    requires c.accel != 0.0 && c.gyro != 0.0 && c.rpy != 0.0 && i < |window|
  {
    if i % FIELDS < 3 then c.f32.unpack(c.f32.pack(window[i]))
    else Quantise(window[i], ScaleOf(c, i % FIELDS)) as real / ScaleOf(c, i % FIELDS)
  }

  /** Every field comes back as itself: floats as their 32-bit selves, integers as their levels. */
  lemma FieldReturns(c: Scales, window: seq<real>, i: nat)
    requires c.Valid() && i < |window|
    ensures var payload := Packed(c, window, |window|);
            && Position(|window|) == |payload|
            && |Unpacked(c, payload, |window|)| == |window|
            && Unpacked(c, payload, |window|)[i] == Returned(c, window, i)
  {
    hide Position, Quantise, Int16Bytes, Int16Of;
    PackedLength(c, window, |window|);
    var payload := Packed(c, window, |window|);
    UnpackedAt(c, payload, |window|, i);
    FieldAt(c, window, |window|, i);
    if i % FIELDS >= 3 {
      QuantiseRange(window[i], ScaleOf(c, i % FIELDS));
      Int16RoundTrip(Quantise(window[i], ScaleOf(c, i % FIELDS)));
    }
  }

  /** An integer field comes back within half a step of its scale, or saturates at the limit of 16 bits
      it lies beyond. */
  lemma FieldError(c: Scales, window: seq<real>, i: nat)
    requires c.Valid() && i < |window| && i % FIELDS >= 3
    ensures var scale := ScaleOf(c, i % FIELDS);
            var level := Round(Times(window[i], scale));
            var back := Returned(c, window, i);
            && (level > INT16_MAX ==> back == INT16_MAX as real / scale)
            && (level < INT16_MIN ==> back == INT16_MIN as real / scale)
            && (INT16_MIN <= level <= INT16_MAX ==> -1.0 / (2.0 * scale) <= back - window[i] <= 1.0 / (2.0 * scale))
  {
    hide Round, Quantise;
    QuantiseError(window[i], ScaleOf(c, i % FIELDS));
  }

  /** Encoding what was decoded from an encoding gives the same bytes. */
  lemma EncodeIsStable(c: Scales, window: seq<real>)
    requires c.Valid()
    ensures var payload := Packed(c, window, |window|);
            && Position(|window|) == |payload|
            && |Unpacked(c, payload, |window|)| == |window|
            && Packed(c, Unpacked(c, payload, |window|), |window|) == payload
  {
    hide Position, FieldBytes, Returned;
    PackedLength(c, window, |window|);
    var again := Unpacked(c, Packed(c, window, |window|), |window|);
    UnpackedLength(c, Packed(c, window, |window|), |window|);
    forall i | 0 <= i < |window| ensures FieldBytes(c, i % FIELDS, again[i]) == FieldBytes(c, i % FIELDS, window[i]) {
      FieldReturns(c, window, i);
      ReturnedBytes(c, window, i);
    }
    SameFields(c, again, window, |window|);
  }

  lemma {:induction false} UnpackedLength(c: Scales, payload: bytes, n: nat)
    requires c.Valid() && Position(n) <= |payload|
    ensures |Unpacked(c, payload, n)| == n
  {
    if n > 0 {
      UnpackedAt(c, payload, n, 0);
    }
  }

  lemma ReturnedBytes(c: Scales, window: seq<real>, i: nat)
    requires c.Valid() && i < |window|
    ensures FieldBytes(c, i % FIELDS, Returned(c, window, i)) == FieldBytes(c, i % FIELDS, window[i])
  {
    hide Quantise, Int16Bytes;
    var scale := ScaleOf(c, i % FIELDS);
    if i % FIELDS >= 3 {
      QuantiseRange(window[i], scale);
      QuantiseAgain(Quantise(window[i], scale), scale);
    }
  }

  lemma {:induction false} SameFields(c: Scales, a: seq<real>, b: seq<real>, n: nat)
    requires n <= |a| == |b|
    requires forall i :: 0 <= i < n ==> FieldBytes(c, i % FIELDS, a[i]) == FieldBytes(c, i % FIELDS, b[i])
    ensures Packed(c, a, n) == Packed(c, b, n)
  {
    hide FieldBytes;
    if n > 0 {
      SameFields(c, a, b, n - 1);
    }
  }

  // ---------------------------------------------------------------------
  // The layout in numbers
  // ---------------------------------------------------------------------

  /** Latitude, longitude and altitude of step t: four bytes each at the front of its thirty. */
  lemma FloatsAt(c: Scales, window: seq<real>, t: nat, k: nat)
    requires c.Valid() && 12 * t + k < |window| && k < 3
    ensures var b := Packed(c, window, |window|);
            30 * t + 4 * k + 4 <= |b| && b[30 * t + 4 * k..30 * t + 4 * k + 4] == c.f32.pack(window[12 * t + k])
  {
    hide Position, Packed;
    FieldAt(c, window, |window|, 12 * t + k);
    PositionInStep(t, k);
  }

  /** The nine integers of step t behind them, two bytes each, lower byte first in two's complement: three
      accelerations, three rates and three angles, each scaled by its own scale, rounded to the nearest
      integer with ties to even, and kept within 16 bits. */
  lemma IntegersAt(c: Scales, window: seq<real>, t: nat, k: nat, scale: real, n: int)
    requires c.Valid() && 12 * t + 3 + k < |window| && k < 9
    requires k < 3 ==> scale == c.accel
    requires 3 <= k < 6 ==> scale == c.gyro
    requires 6 <= k ==> scale == c.rpy
    requires NearestEven(window[12 * t + 3 + k] * scale, n)
    ensures var b := Packed(c, window, |window|);
            && 30 * t + 12 + 2 * k + 2 <= |b|
            && b[30 * t + 12 + 2 * k] as int + 256 * b[30 * t + 12 + 2 * k + 1] as int
               == Max(-32768, Min(32767, n)) % 65536
  {
    hide Position, Packed, Quantise, Int16Bytes;
    var x, at := window[12 * t + 3 + k], 30 * t + 12 + 2 * k;
    QuantiseIs(x, scale, n);
    hide NearestEven;
    IntegerBytesAt(c, window, t, k, scale);
    QuantiseRange(x, scale);
    Int16LittleEndian(Quantise(x, scale));
    var b := Packed(c, window, |window|);
    assert b[at..at + 2][0] == b[at] && b[at..at + 2][1] == b[at + 1];
  }

  lemma IntegerBytesAt(c: Scales, window: seq<real>, t: nat, k: nat, scale: real)
    requires c.Valid() && 12 * t + 3 + k < |window| && k < 9 && scale == ScaleOf(c, 3 + k)
    ensures var b, at := Packed(c, window, |window|), 30 * t + 12 + 2 * k;
            && at + 2 <= |b| && INT16_MIN <= Quantise(window[12 * t + 3 + k], scale) <= INT16_MAX
            && b[at..at + 2] == Int16Bytes(Quantise(window[12 * t + 3 + k], scale))
  {
    hide Position, Packed, Quantise, Int16Bytes;
    QuantiseRange(window[12 * t + 3 + k], scale);
    FieldAt(c, window, |window|, 12 * t + (3 + k));
    PositionInStep(t, 3 + k);
  }

  /** And read back: such bytes are that many steps of the scale. */
  lemma IntegersFrom(c: Scales, payload: bytes, t: nat, k: nat, scale: real, q: int)
    requires c.Valid() && |payload| % 30 == 0 && 30 * t + 30 <= |payload| && k < 9 && -32768 <= q <= 32767
    requires k < 3 ==> scale == c.accel
    requires 3 <= k < 6 ==> scale == c.gyro
    requires 6 <= k ==> scale == c.rpy
    requires payload[30 * t + 12 + 2 * k] as int + 256 * payload[30 * t + 12 + 2 * k + 1] as int == q % 65536
    ensures Position(12 * (|payload| / 30)) == |payload|
    ensures var x := Unpacked(c, payload, 12 * (|payload| / 30));
            |x| == 12 * (|payload| / 30) && x[12 * t + 3 + k] == q as real / scale
  {
    var n, at := 12 * (|payload| / 30), 30 * t + 12 + 2 * k;
    PositionOfSteps(|payload| / 30);
    PositionInStep(t, 3 + k);
    UnpackedAt(c, payload, n, 12 * t + 3 + k);
    Int16OfBytes(payload[at..at + 2], q);
    hide Position, Unpacked, Int16Of;
  }
}
