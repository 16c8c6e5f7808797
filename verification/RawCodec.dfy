/** The raw codec (loralink_mllc/codecs/raw.py): every value clamped to [-1, 1] and stored as a 16-bit
    integer at a fixed scale. */
module RawCodec {
  import opened Basics
  import opened RealProducts
  import opened FixedPoint

  function Level(x: real, scale: real): int {
    Quantise(ClampUnit(x), scale)
  }

  /** Two bytes per value. */
  function Encoded(window: seq<real>, scale: real): bytes {
    if window == [] then []
    else
      var q := Level(window[|window| - 1], scale);
      Encoded(window[..|window| - 1], scale) + Int16Bytes(q)
  }

  datatype RawError = OddLength

  function Decoded(payload: bytes, scale: real): seq<real>
    requires |payload| % 2 == 0 && scale > 0.0
  {
    seq(|payload| / 2, i requires 0 <= 2 * i + 1 < |payload| =>
      Int16Of([payload[2 * i], payload[2 * i + 1]]) as real / scale)
  }

  function Decode(payload: bytes, scale: real): Result<seq<real>, RawError>
    requires scale > 0.0
  {
    if |payload| % 2 != 0 then Err(OddLength) else Ok(Decoded(payload, scale))
  }

  /** The loop over the values, then the packing of all of them. */
  method Encode(window: seq<real>, scale: real) returns (payload: bytes)
    ensures payload == Encoded(window, scale)
  {
    hide Int16Bytes, Round, Level, ClampUnit, Times;
    var values: seq<int> := [];
    for i := 0 to |window|
      invariant |values| == i && forall j :: 0 <= j < i ==> values[j] == Level(window[j], scale)
    {
      var clamped := ClampUnit(window[i]);
      var q := Round(Times(clamped, scale));
      if q < -32768 {
        q := -32768;
      }
      if q > 32767 {
        q := 32767;
      }
      LevelIs(window[i], scale);
      values := values + [q];
    }
    payload := Pack(values, window, scale);
  }

  /** `struct.pack` of all values. */
  method Pack(values: seq<int>, ghost window: seq<real>, ghost scale: real) returns (payload: bytes)
    requires |values| == |window| && forall j :: 0 <= j < |values| ==> values[j] == Level(window[j], scale)
    ensures payload == Encoded(window, scale)
  {
    hide Int16Bytes, Round;
    payload := [];
    for i := 0 to |values|
      invariant payload == Encoded(window[..i], scale)
    {
      hide Level;
      assert window[..i + 1][..i] == window[..i];
      LevelInRange(window[i], scale);
      payload := payload + Int16Bytes(values[i]);
    }
    assert window[..|window|] == window;
  }

  lemma LevelIs(x: real, scale: real)
    ensures Level(x, scale) == Clamp(Round(Times(ClampUnit(x), scale)), -32768, 32767)
  {
    hide ClampUnit;
  }

  lemma LevelInRange(x: real, scale: real)
    ensures INT16_MIN <= Level(x, scale) <= INT16_MAX
  {
  }

  lemma {:induction false} EncodedAt(window: seq<real>, scale: real, i: nat)
    requires i < |window|
    ensures |Encoded(window, scale)| == 2 * |window|
    ensures Encoded(window, scale)[2 * i..2 * i + 2] == Int16Bytes(Level(window[i], scale))
  {
    var n := |window| - 1;
    var init := window[..n];
    if n > 0 {
      EncodedAt(init, scale, if i < n then i else 0);
    }
    if i < n {
      assert Encoded(window, scale)[2 * i..2 * i + 2] == Encoded(init, scale)[2 * i..2 * i + 2];
    }
  }

  lemma {:induction false} EncodedLength(window: seq<real>, scale: real)
    ensures |Encoded(window, scale)| == 2 * |window|
  {
    if window != [] {
      EncodedAt(window, scale, 0);
    }
  }

  /** The i-th decoded value is the i-th level over the scale. */
  lemma DecodedAt(window: seq<real>, scale: real, i: nat)
    requires scale > 0.0 && i < |window|
    ensures |Encoded(window, scale)| == 2 * |window|
    ensures |Decoded(Encoded(window, scale), scale)| == |window|
    ensures Decoded(Encoded(window, scale), scale)[i] == Level(window[i], scale) as real / scale
  {
    hide Int16Bytes, Int16Of;
    EncodedAt(window, scale, i);
    var p := Encoded(window, scale);
    assert [p[2 * i], p[2 * i + 1]] == p[2 * i..2 * i + 2];
    Int16RoundTrip(Level(window[i], scale));
  }

  /** A level that lies beyond the scale is the rounded scale itself, so clamping it again and
      rounding again finds it. */
  lemma LevelAgain(x: real, scale: real)
    requires scale > 0.0
    ensures Level(Level(x, scale) as real / scale, scale) == Level(x, scale)
  {
    hide Quantise;
    LevelInRange(x, scale);
    var q := Level(x, scale);
    var y := q as real / scale;
    DivideBack(q as real, scale);
    if -1.0 <= y <= 1.0 {
      QuantiseAgain(q, scale);
    } else if y > 1.0 {
      AboveScale(ClampUnit(x), scale, y);
    } else {
      BelowScale(ClampUnit(x), scale, y);
    }
  }

  lemma QuantiseMonotone(x: real, y: real, scale: real)
    requires scale > 0.0 && x <= y
    ensures Quantise(x, scale) <= Quantise(y, scale)
  {
    hide Round;
    ScaleMonotone(x, y, scale);
    RoundMonotone(x * scale, y * scale);
  }

  lemma QuantiseDecoded(c: real, scale: real, y: real)
    requires scale > 0.0 && y * scale == Quantise(c, scale) as real
    ensures Quantise(y, scale) == Quantise(c, scale)
  {
    hide Round;
    RoundOfInt(Quantise(c, scale));
  }

  lemma AboveScale(c: real, scale: real, y: real)
    requires scale > 0.0 && c <= 1.0 && y > 1.0 && y * scale == Quantise(c, scale) as real
    ensures Quantise(1.0, scale) == Quantise(c, scale)
  {
    QuantiseDecoded(c, scale, y);
    hide Quantise;
    QuantiseMonotone(c, 1.0, scale);
    QuantiseMonotone(1.0, y, scale);
  }

  lemma BelowScale(c: real, scale: real, y: real)
    requires scale > 0.0 && -1.0 <= c && y < -1.0 && y * scale == Quantise(c, scale) as real
    ensures Quantise(-1.0, scale) == Quantise(c, scale)
  {
    QuantiseDecoded(c, scale, y);
    hide Quantise;
    QuantiseMonotone(-1.0, c, scale);
    QuantiseMonotone(y, -1.0, scale);
  }

  /** Encoding what was decoded from an encoding gives the same bytes, at every positive scale. */
  lemma EncodeIsStable(window: seq<real>, scale: real)
    requires scale > 0.0
    ensures |Encoded(window, scale)| % 2 == 0
    ensures Encoded(Decoded(Encoded(window, scale), scale), scale) == Encoded(window, scale)
  {
    EncodedLength(window, scale);
    var again := Decoded(Encoded(window, scale), scale);
    forall i | 0 <= i < |window| ensures Level(again[i], scale) == Level(window[i], scale) {
      DecodedAt(window, scale, i);
      LevelAgain(window[i], scale);
    }
    SameLevels(again, window, scale);
  }

  lemma {:induction false} SameLevels(a: seq<real>, b: seq<real>, scale: real)
    requires |a| == |b| && forall i :: 0 <= i < |a| ==> Level(a[i], scale) == Level(b[i], scale)
    ensures Encoded(a, scale) == Encoded(b, scale)
  {
    if a != [] {
      SameLevels(a[..|a| - 1], b[..|b| - 1], scale);
    }
  }

  /** At scales up to 32767 nothing saturates: every value in [-1, 1] comes back within half a step. */
  lemma DecodeError(window: seq<real>, scale: real, i: nat)
    requires 0.0 < scale <= 32767.0 && i < |window| && -1.0 <= window[i] <= 1.0
    ensures |Encoded(window, scale)| == 2 * |window|
    ensures -1.0 / (2.0 * scale) <= Decoded(Encoded(window, scale), scale)[i] - window[i] <= 1.0 / (2.0 * scale)
  {
    hide Round, Quantise, Encoded, Decoded, Times;
    DecodedAt(window, scale, i);
    UnitFits(window[i], scale, 32767);
    QuantiseError(window[i], scale);
  }

  /** What the bytes are: the point of [-1, 1] nearest to the value, scaled, rounded to the nearest integer with
      ties to even, kept within 16 bits, lower byte first in two's complement. */
  lemma BytesOfValue(window: seq<real>, scale: real, i: nat, c: real, n: int)
    requires i < |window| && -1.0 <= c <= 1.0
    requires (window[i] > 1.0 ==> c == 1.0) && (window[i] < -1.0 ==> c == -1.0)
    requires -1.0 <= window[i] <= 1.0 ==> c == window[i]
    requires NearestEven(c * scale, n)
    ensures |Encoded(window, scale)| == 2 * |window|
    ensures Encoded(window, scale)[2 * i] as int + 256 * Encoded(window, scale)[2 * i + 1] as int
         == Max(-32768, Min(32767, n)) % 65536
  {
    QuantiseIs(c, scale, n);
    LevelInRange(window[i], scale);
    Int16LittleEndian(Level(window[i], scale));
    EncodedAt(window, scale, i);
    hide Encoded, Quantise, Int16Bytes, NearestEven;
    var p := Encoded(window, scale);
    assert p[2 * i..2 * i + 2][0] == p[2 * i] && p[2 * i..2 * i + 2][1] == p[2 * i + 1];
  }

  /** Two bytes, lower one first, in two's complement, are a value of that many steps. */
  lemma ValueOfBytes(payload: bytes, scale: real, i: nat, q: int)
    requires |payload| % 2 == 0 && scale > 0.0 && 2 * i + 1 < |payload| && -32768 <= q <= 32767
    requires payload[2 * i] as int + 256 * payload[2 * i + 1] as int == q % 65536
    ensures |Decoded(payload, scale)| == |payload| / 2 && Decoded(payload, scale)[i] == q as real / scale
  {
    Int16OfBytes([payload[2 * i], payload[2 * i + 1]], q);
    hide Int16Of;
  }
}
