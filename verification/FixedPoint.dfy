/** Rounding, saturation and little-endian integers, shared by the codecs. Floats are real numbers. */
module FixedPoint {
  import opened Basics
  import opened RealProducts

  /** Round half to even, as Python's `round` and numpy's `rint`. */
  function Round(x: real): int {
    var f := x.Floor;
    var rest := x - f as real;
    if rest < 0.5 then f
    else if rest > 0.5 then f + 1
    else if f % 2 == 0 then f
    else f + 1
  }

  lemma RoundIsNear(x: real)
    ensures x - 0.5 <= Round(x) as real <= x + 0.5
  {
  }

  /** n is the integer nearest to x, and if two are equally near, the even one of them. */
  predicate NearestEven(x: real, n: int) {
    var off := n as real - x;
    -0.5 < off < 0.5 || ((off == 0.5 || off == -0.5) && n % 2 == 0)
  }

  /** Exactly one integer is. */
  lemma RoundIff(x: real, n: int)
    ensures Round(x) == n <==> NearestEven(x, n)
  {
  }

  lemma RoundOfInt(n: int)
    ensures Round(n as real) == n
  {
    assert (n as real).Floor == n;
  }

  lemma RoundMonotone(x: real, y: real)
    requires x <= y
    ensures Round(x) <= Round(y)
  {
  }

  /** Rounding a number between two integers stays between them. */
  lemma RoundWithin(x: real, lo: int, hi: int)
    requires lo as real <= x <= hi as real
    ensures lo <= Round(x) <= hi
  {
    RoundOfInt(lo);
    RoundOfInt(hi);
    RoundMonotone(lo as real, x);
    RoundMonotone(x, hi as real);
  }

  function Clamp(x: int, lo: int, hi: int): int {
    if x < lo then lo else if x > hi then hi else x
  }

  const INT16_MIN: int := -32768
  const INT16_MAX: int := 32767
  const INT8_MIN: int := -128
  const INT8_MAX: int := 127

  function ClampInt16(x: int): int {
    Clamp(x, INT16_MIN, INT16_MAX)
  }

  /** The value nearest to x*scale that 16 bits can hold. */
  function Quantise(x: real, scale: real): int {
    ClampInt16(Round(Times(x, scale)))
  }

  function QuantiseInt8(x: real, scale: real): int {
    Clamp(Round(Times(x, scale)), INT8_MIN, INT8_MAX)
  }

  lemma QuantiseRange(x: real, scale: real)
    ensures INT16_MIN <= Quantise(x, scale) <= INT16_MAX
  {
  }

  lemma QuantiseInt8Range(x: real, scale: real)
    ensures INT8_MIN <= QuantiseInt8(x, scale) <= INT8_MAX
  {
  }

  /** Rounded to the nearest level, ties to even, and kept within 16 bits or 8 bits. */
  lemma QuantiseIs(x: real, scale: real, n: int)
    requires NearestEven(x * scale, n)
    ensures Quantise(x, scale) == Max(-32768, Min(32767, n))
    ensures QuantiseInt8(x, scale) == Max(-128, Min(127, n))
  {
    RoundIff(x * scale, n);
    hide Round, NearestEven;
  }

  // ---------------------------------------------------------------------
  // Bytes
  // ---------------------------------------------------------------------

  function Int16Bytes(q: int): bytes
    requires INT16_MIN <= q <= INT16_MAX
  {
    var u := if q < 0 then q + 65536 else q;
    [u % 256, u / 256]
  }

  function Int16Of(b: bytes): int
    requires |b| == 2
  {
    var u: int := b[0] as int + 256 * b[1] as int;
    if u >= 32768 then u - 65536 else u
  }

  /** Two bytes, the lower one first, in two's complement. */
  lemma Int16LittleEndian(q: int)
    requires -32768 <= q <= 32767
    ensures var b := Int16Bytes(q); |b| == 2 && b[0] as int + 256 * b[1] as int == q % 65536
  {
  }

  lemma Int16RoundTrip(q: int)
    requires INT16_MIN <= q <= INT16_MAX
    ensures |Int16Bytes(q)| == 2 && Int16Of(Int16Bytes(q)) == q
  {
  }

  lemma Int16OfBytes(b: bytes, q: int)
    requires |b| == 2 && -32768 <= q <= 32767 && b[0] as int + 256 * b[1] as int == q % 65536
    ensures Int16Of(b) == q
  {
  }

  function Int8Byte(q: int): byte
    requires INT8_MIN <= q <= INT8_MAX
  {
    if q < 0 then q + 256 else q
  }

  function Int8Of(b: byte): int {
    if b >= 128 then b as int - 256 else b
  }

  lemma Int8TwosComplement(q: int)
    requires -128 <= q <= 127
    ensures Int8Byte(q) as int == q % 256
  {
  }

  lemma Int8RoundTrip(q: int)
    requires INT8_MIN <= q <= INT8_MAX
    ensures Int8Of(Int8Byte(q)) == q
  {
  }

  // ---------------------------------------------------------------------
  // Quantisation error
  // ---------------------------------------------------------------------

  lemma DivideBack(q: real, scale: real)
    requires scale > 0.0
    ensures (q / scale) * scale == q
  {
  }

  lemma ScaleMonotone(a: real, b: real, scale: real)
    requires scale > 0.0
    ensures a <= b <==> a * scale <= b * scale
  {
    assert b * scale - a * scale == (b - a) * scale;
    if a <= b {
      assert (b - a) * scale >= 0.0;
    } else {
      assert (a - b) * scale > 0.0;
      assert (a - b) * scale == a * scale - b * scale;
    }
  }

  lemma ErrorOver(a: real, x: real, scale: real)
    requires scale > 0.0 && -0.5 <= a - x * scale <= 0.5
    ensures -1.0 / (2.0 * scale) <= a / scale - x <= 1.0 / (2.0 * scale)
  {
    HalfSteps(1.0 / (2.0 * scale), -1.0 / (2.0 * scale), scale);
    DivideBack(a, scale);
    MinusTimes(a / scale, x, scale);
    Below(-1.0 / (2.0 * scale), a / scale - x, -0.5, a - x * scale, scale);
    Below(a / scale - x, 1.0 / (2.0 * scale), a - x * scale, 0.5, scale);
  }

  lemma HalfSteps(h: real, l: real, scale: real)
    requires scale > 0.0 && h == 1.0 / (2.0 * scale) && l == -1.0 / (2.0 * scale)
    ensures h * scale == 0.5 && l * scale == -0.5
  {
    DivideBack(1.0, 2.0 * scale);
    DivideBack(-1.0, 2.0 * scale);
  }

  lemma MinusTimes(u: real, x: real, scale: real)
    ensures (u - x) * scale == u * scale - x * scale
  {
  }

  lemma Below(a: real, b: real, p: real, q: real, scale: real)
    requires scale > 0.0 && a * scale == p && b * scale == q && p <= q
    ensures a <= b
  {
    ScaleMonotone(a, b, scale);
  }

  /** A value comes back within half a step, or saturates at the limit it lies beyond. */
  lemma QuantiseError(x: real, scale: real)
    requires scale > 0.0
    ensures var q, level := Quantise(x, scale), Round(Times(x, scale));
            && INT16_MIN <= q <= INT16_MAX
            && (level > INT16_MAX ==> q == INT16_MAX)
            && (level < INT16_MIN ==> q == INT16_MIN)
            && (INT16_MIN <= level <= INT16_MAX ==>
                  -1.0 / (2.0 * scale) <= q as real / scale - x <= 1.0 / (2.0 * scale))
  {
    hide Round;
    RoundIsNear(Times(x, scale));
    if INT16_MIN <= Round(Times(x, scale)) <= INT16_MAX {
      ErrorOver(Quantise(x, scale) as real, x, scale);
    }
  }

  /** Quantising a quantised value changes nothing. */
  lemma QuantiseAgain(q: int, scale: real)
    requires scale > 0.0 && INT16_MIN <= q <= INT16_MAX
    ensures Quantise(q as real / scale, scale) == q
  {
    DivideBack(q as real, scale);
    RoundOfInt(q);
  }

  // ---------------------------------------------------------------------
  // The unit interval
  // ---------------------------------------------------------------------

  function ClampUnit(x: real): real {
    if x > 1.0 then 1.0 else if x < -1.0 then -1.0 else x
  }

  lemma AtMostScale(x: real, scale: real)
    requires 0.0 < scale && x <= 1.0
    ensures Times(x, scale) <= scale
  {
    ScaleMonotone(x, 1.0, scale);
  }

  lemma UnitScaled(x: real, scale: real)
    requires 0.0 < scale && -1.0 <= x <= 1.0
    ensures -scale <= Times(x, scale) <= scale
  {
    AtMostScale(x, scale);
    AtMostScale(-x, scale);
    assert Times(-x, scale) == -Times(x, scale);
  }

  /** Values of the unit interval do not saturate n at scales up to n. */
  lemma UnitFits(x: real, scale: real, n: int)
    requires 0.0 < scale <= n as real && -1.0 <= x <= 1.0
    ensures -n <= Round(Times(x, scale)) <= n
  {
    UnitScaled(x, scale);
    hide Round, Times;
    RoundWithin(Times(x, scale), -n, n);
  }
}
