/** The codec that cuts or pads the packed form to a fixed payload length
    (loralink_mllc/codecs/sensor12_packed_truncate.py). */
module Sensor12Truncate {
  import opened Basics
  import opened FixedPoint
  import opened Sensor12

  function Zeros(n: nat): bytes {
    seq(n, _ => 0)
  }

  /** Cut or padded with zeros to n bytes. */
  function Fit(b: bytes, n: nat): (r: bytes)
    ensures |r| == n
  {
    if |b| > n then b[..n] else b + Zeros(n - |b|)
  }

  /** The truncating codec: a fixed payload length and a fixed number of steps. */
  datatype Truncating = Truncating(inner: Scales, payloadBytes: nat, windowW: nat)
  {
    ghost predicate Valid() {
      inner.Valid() && 1 <= payloadBytes <= 255 && windowW >= 1
    }

    method Encode(window: seq<real>) returns (r: Result<bytes, CodecError>)
      requires Valid()
      ensures |window| % FIELDS != 0 ==> r == Err(WindowLength)
      ensures |window| % FIELDS == 0 && |window| / FIELDS != windowW ==> r == Err(WindowCount)
      ensures |window| == FIELDS * windowW ==> r == Ok(Fit(Packed(inner, window, |window|), payloadBytes))
    {
      if |window| % 12 != 0 {
        return Err(WindowLength);
      }
      if |window| / 12 != windowW {
        return Err(WindowCount);
      }
      var full := Sensor12.Encode(inner, window);
      if |full.value| > payloadBytes {
        return Ok(full.value[..payloadBytes]);
      }
      if |full.value| < payloadBytes {
        return Ok(full.value + Zeros(payloadBytes - |full.value|));
      }
      assert full.value + Zeros(0) == full.value;
      return full;
    }

    method Decode(payload: bytes) returns (r: Result<seq<real>, CodecError>)
      requires Valid()
      ensures Position(FIELDS * windowW) == STEP * windowW
      ensures r == Ok(Unpacked(inner, Fit(payload, STEP * windowW), FIELDS * windowW))
    {
      PositionOfSteps(windowW);
      var fullLen := 30 * windowW;
      var p := payload;
      if |p| > fullLen {
        p := p[..fullLen];
      }
      if |p| < fullLen {
        p := p + Zeros(fullLen - |p|);
      }
      assert p == Fit(payload, fullLen) by {
        assert payload + Zeros(0) == payload;
      }
      assert |p| / STEP == windowW && |p| % STEP == 0;
      r := Sensor12.Decode(inner, p);
    }
  }

  /** What becomes of a slice of b when b is cut or padded to p bytes and then back to |b| bytes. */
  lemma RefittedSlice(b: bytes, p: nat, from: nat, to: nat)
    requires from <= to <= |b|
    ensures to <= p ==> Fit(Fit(b, p), |b|)[from..to] == b[from..to]
    ensures p <= from ==> Fit(Fit(b, p), |b|)[from..to] == Zeros(to - from)
  {
  }

  /** Through the truncating codec with payload length p, a field wholly inside the first p bytes comes
      back as through the full codec, and a field wholly beyond them comes back as zero. */
  lemma TruncatedField(t: Truncating, window: seq<real>, i: nat)
    requires t.Valid() && |window| == FIELDS * t.windowW && i < |window|
    ensures var full := Packed(t.inner, window, |window|);
            var back := Fit(Fit(full, t.payloadBytes), STEP * t.windowW);
            && Position(|window|) == |full| == STEP * t.windowW
            && |Unpacked(t.inner, back, |window|)| == |window|
            && (Position(i) + Size(i % FIELDS) <= t.payloadBytes ==>
                  Unpacked(t.inner, back, |window|)[i] == Returned(t.inner, window, i))
            && (Position(i) >= t.payloadBytes ==> Unpacked(t.inner, back, |window|)[i] == 0.0)
  {
    hide Position, Fit, FieldValue, Returned;
    var full := Packed(t.inner, window, |window|);
    var back := Fit(Fit(full, t.payloadBytes), STEP * t.windowW);
    PositionOfSteps(t.windowW);
    PackedLength(t.inner, window, |window|);
    FieldReturns(t.inner, window, i);
    UnpackedAt(t.inner, full, |window|, i);
    UnpackedAt(t.inner, back, |window|, i);
    RefittedSlice(full, t.payloadBytes, Position(i), Position(i) + Size(i % FIELDS));
    ZeroField(t.inner, i % FIELDS);
  }

  lemma ZeroField(c: Scales, k: nat)
    requires c.Valid() && k < FIELDS
    ensures FieldValue(c, k, Zeros(Size(k))) == 0.0
  {
    assert Zeros(4) == [0, 0, 0, 0];
    assert Int16Of(Zeros(2)) == 0;
  }

  /** A payload of at least thirty bytes per step loses nothing. */
  lemma LongPayloadIsLossless(t: Truncating, window: seq<real>)
    requires t.Valid() && |window| == FIELDS * t.windowW && t.payloadBytes >= STEP * t.windowW
    ensures var full := Packed(t.inner, window, |window|);
            Fit(Fit(full, t.payloadBytes), STEP * t.windowW) == full
  {
    PackedLength(t.inner, window, |window|);
    PositionOfSteps(t.windowW);
    var full := Packed(t.inner, window, |window|);
    RefittedSlice(full, t.payloadBytes, 0, |full|);
    assert full[0..|full|] == full;
  }

  /** A field that the cut splits after one byte keeps its low byte as a value of its own. */
  lemma SplitField(t: Truncating, window: seq<real>, i: nat)
    requires t.Valid() && |window| == FIELDS * t.windowW && i < |window|
    requires i % FIELDS >= 3 && Position(i) + 1 == t.payloadBytes
    ensures var full := Packed(t.inner, window, |window|);
            var back := Fit(Fit(full, t.payloadBytes), STEP * t.windowW);
            var scale := ScaleOf(t.inner, i % FIELDS);
            && Position(|window|) == |full| == STEP * t.windowW
            && |Unpacked(t.inner, back, |window|)| == |window|
            && Unpacked(t.inner, back, |window|)[i] == (Quantise(window[i], scale) % 256) as real / scale
  {
    hide Position, Fit, Quantise, Packed, Unpacked, Int16Bytes, Int16Of, Zeros;
    var full := Packed(t.inner, window, |window|);
    var back := Fit(Fit(full, t.payloadBytes), STEP * t.windowW);
    PositionOfSteps(t.windowW);
    PackedLength(t.inner, window, |window|);
    FieldAt(t.inner, window, |window|, i);
    UnpackedAt(t.inner, back, |window|, i);
    var at := Position(i);
    RefittedSlice(full, t.payloadBytes, at, at + 1);
    RefittedSlice(full, t.payloadBytes, at + 1, at + 2);
    var q := Quantise(window[i], ScaleOf(t.inner, i % FIELDS));
    QuantiseRange(window[i], ScaleOf(t.inner, i % FIELDS));
    LowByteKept(full, back, at, q);
  }

  lemma LowByteKept(full: bytes, back: bytes, at: nat, q: int)
    requires INT16_MIN <= q <= INT16_MAX && at + 2 <= |full| == |back|
    requires full[at..at + 2] == Int16Bytes(q) && back[at..at + 1] == full[at..at + 1]
    requires back[at + 1..at + 2] == Zeros(1)
    ensures Int16Of(back[at..at + 2]) == q % 256
  {
    hide Int16Of, Int16Bytes;
    assert back[at] == back[at..at + 1][0] == full[at..at + 1][0] == full[at..at + 2][0];
    assert back[at + 1] == back[at + 1..at + 2][0];
    LowByte(q, back[at..at + 2]);
  }

  lemma LowByte(q: int, b: bytes)
    requires INT16_MIN <= q <= INT16_MAX && |b| == 2 && b[0] == Int16Bytes(q)[0] && b[1] == 0
    ensures Int16Of(b) == q % 256
  {
  }
}
