/** LoRa time on air and the acknowledgement timeout derived from it (loralink_mllc/runtime/toa.py),
    in exact arithmetic. */
module TimeOnAir {
  import opened Basics

  /** The radio settings that enter the formula. `ldro` absent means automatic. */
  datatype Phy = Phy(
    sf: int, bwHz: int, cr: int, preamble: int, crcOn: bool, explicitHeader: bool, ldro: Option<bool>)

  datatype ToaError = LengthOutOfRange | SfOutOfRange | BandwidthNotPositive | CodingRateUnknown | MarginNegative

  /** The coding rate is given as an index 1..4 or as a denominator 5..8. */
  function CrIndex(cr: int): Result<int, ToaError> {
    if 1 <= cr <= 4 then Ok(cr)
    else if 5 <= cr <= 8 then Ok(cr - 4)
    else Err(CodingRateUnknown)
  }

  function Pow2(n: nat): nat {
    if n == 0 then 1 else 2 * Pow2(n - 1)
  }

  function CeilDiv(a: nat, d: int): nat
    requires d > 0
  {
    (a + d - 1) / d
  }

  function Ceil(x: real): int {
    -((-x).Floor)
  }

  /** Settings the formula accepts. */
  predicate Accepts(p: Phy) {
    5 <= p.sf <= 12 && p.bwHz > 0 && 1 <= p.cr <= 8
  }

  /** Symbol time in seconds. */
  function SymbolTime(p: Phy): real
    requires Accepts(p)
  {
    Pow2(p.sf) as real / p.bwHz as real
  }

  /** Low data rate optimisation: 1 if it is on. */
  function Optimised(p: Phy): int
    requires Accepts(p)
  {
    if p.sf <= 6 then 0
    else
      match p.ldro
      case None => if SymbolTime(p) >= 0.01638 then 1 else 0
      case Some(on) => if on then 1 else 0
  }

  function Numerator(p: Phy, n: int): int {
    8 * n + (if p.crcOn then 16 else 0) - 4 * p.sf + (if p.sf <= 6 then 0 else 8) + (if p.explicitHeader then 20 else 0)
  }

  function Denominator(p: Phy): int
    requires Accepts(p)
  {
    4 * (p.sf - 2 * Optimised(p))
  }

  function PayloadSymbols(p: Phy, n: int): int
    requires Accepts(p)
  {
    8 + CeilDiv(Max(Numerator(p, n), 0), Denominator(p)) * (CrIndex(p.cr).value + 4)
  }

  function Symbols(p: Phy, n: int): real
    requires Accepts(p)
  {
    p.preamble as real + (if p.sf <= 6 then 6.25 else 4.25) + PayloadSymbols(p, n) as real
  }

  function InMilliseconds(symbols: real, symbolTime: real): real {
    symbols * symbolTime * 1000.0
  }

  function EstimateToaMs(p: Phy, n: int): Result<real, ToaError> {
    if n < 0 || n > 255 then Err(LengthOutOfRange)
    else if p.sf < 5 || p.sf > 12 then Err(SfOutOfRange)
    else if p.bwHz <= 0 then Err(BandwidthNotPositive)
    else
      match CrIndex(p.cr)
      case Err(e) => Err(e)
      case Ok(_) => Ok(InMilliseconds(Symbols(p, n), SymbolTime(p)))
  }

  function EstimateAckTimeoutMs(p: Phy, dataBytes: int, ackBytes: int, marginMs: int): Result<int, ToaError> {
    if marginMs < 0 then Err(MarginNegative)
    else
      match EstimateToaMs(p, dataBytes)
      case Err(e) => Err(e)
      case Ok(data) =>
        match EstimateToaMs(p, ackBytes)
        case Err(e) => Err(e)
        case Ok(ack) => Ok(Ceil(data + ack + marginMs as real))
  }

  // ---------------------------------------------------------------------
  // Arithmetic
  // ---------------------------------------------------------------------

  lemma CeilDivCovers(a: nat, d: int)
    requires d > 0
    ensures CeilDiv(a, d) * d >= a
  {
    assert a + d - 1 == CeilDiv(a, d) * d + (a + d - 1) % d;
  }

  lemma CeilDivLeast(a: nat, d: int, q: nat)
    requires d > 0 && q * d >= a
    ensures CeilDiv(a, d) <= q
  {
    var c, r := CeilDiv(a, d), (a + d - 1) % d;
    assert a + d - 1 == c * d + r;
    assert (q + 1) * d == q * d + d;
    if c >= q + 1 {
      TimesMonotone(q + 1, c, d, d);
    }
  }

  lemma CeilDivMonotone(a: nat, b: nat, d: int, e: int)
    requires a <= b && 0 < e <= d
    ensures CeilDiv(a, d) <= CeilDiv(b, e)
  {
    hide CeilDiv;
    CeilDivCovers(b, e);
    var f := CeilDiv(b, e);
    TimesMonotone(f, f, e, d);
    CeilDivLeast(a, d, f);
  }

  /** Four bits fewer over a denominator at most four larger: at least half as many, less one half. */
  lemma CeilDivHalves(a: nat, b: nat, d: int, e: int)
    requires b >= a - 4 && d >= 20 && 0 < e <= d + 4
    ensures 2 * CeilDiv(b, e) + 1 >= CeilDiv(a, d)
  {
    hide CeilDiv;
    CeilDivCovers(b, e);
    var f := CeilDiv(b, e);
    TimesMonotone(f, f, e, d + 4);
    assert f * (d + 4) == f * d + 4 * f;
    assert (2 * f + 1) * d == 2 * (f * d) + d;
    TimesMonotone(f, f, 20, d);
    CeilDivLeast(a, d, 2 * f + 1);
  }

  lemma TimesMonotone(a: int, b: int, k: int, l: int)
    requires 0 <= a <= b && 0 <= k <= l
    ensures a * k <= b * l
  {
    assert a * k <= b * k <= b * l;
  }

  lemma RealTimesMonotone(a: real, b: real, k: real, l: real)
    requires 0.0 <= a <= b && 0.0 <= k <= l
    ensures a * k <= b * l
    ensures a < b && 0.0 < k ==> a * k < b * l
    ensures 0.0 < a && k < l ==> a * k < b * l
  {
    assert b * l - a * k == (b - a) * k + b * (l - k);
    assert (b - a) * k >= 0.0 && b * (l - k) >= 0.0;
    if a < b && 0.0 < k {
      assert (b - a) * k > 0.0;
    }
    if 0.0 < a && k < l {
      assert b * (l - k) > 0.0;
    }
  }

  lemma DivideByMore(x: real, a: real, b: real)
    requires x > 0.0 && 0.0 < a < b
    ensures 0.0 < x / b < x / a
  {
    assert (x / a) * a == x && (x / b) * b == x;
    if x / b >= x / a {
      RealTimesMonotone(x / a, x / b, a, b);
    }
  }

  lemma Pow2Positive(n: nat)
    ensures Pow2(n) >= 1
  {
  }

  lemma SymbolTimePositive(p: Phy)
    requires Accepts(p)
    ensures SymbolTime(p) > 0.0
  {
    Pow2Positive(p.sf);
    var x, y := Pow2(p.sf) as real, p.bwHz as real;
    assert (x / y) * y == x;
  }

  lemma SymbolsPositive(p: Phy, n: int)
    requires Accepts(p) && p.preamble >= 0
    ensures Symbols(p, n) >= 12.25
  {
    TimesMonotone(0, CeilDiv(Max(Numerator(p, n), 0), Denominator(p)), 0, CrIndex(p.cr).value + 4);
  }

  // ---------------------------------------------------------------------
  // Where the estimate is defined
  // ---------------------------------------------------------------------

  /** The estimate exists exactly for lengths of one byte and accepted settings, and is positive. */
  lemma DefinedIff(p: Phy, n: int)
    ensures EstimateToaMs(p, n).Ok? <==> 0 <= n <= 255 && Accepts(p)
    ensures EstimateToaMs(p, n).Ok? && p.preamble >= 0 ==> EstimateToaMs(p, n).value > 0.0
  {
    if 0 <= n <= 255 && Accepts(p) {
      SymbolTimePositive(p);
      if p.preamble >= 0 {
        SymbolsPositive(p, n);
        RealTimesMonotone(1.0, Symbols(p, n), SymbolTime(p), SymbolTime(p));
      }
    }
  }

  /** Bits behind the eight symbols that every payload starts with, as the equations of the Semtech
      SX1261/2 data sheet (section 6.1.4, "LoRa Time-on-Air") count them. */
  function BitsAfterHeader(sf: int, n: int, crcOn: bool, explicitHeader: bool): int {
    var base := 8 * n - 4 * sf + (if crcOn then 16 else 0) + (if explicitHeader then 20 else 0);
    if sf <= 6 then base else base + 8
  }

  /** The estimate satisfies the data sheet's equations: the payload needs the fewest blocks of 4 (SF - 2 DE)
      bits that hold all bits, each block takes CR + 4 symbols, and the preamble has 6.25 extra symbols
      for SF 5 and 6 and 4.25 otherwise. DE is on only from SF 7, by request or from a symbol time of
      16.38 ms. */
  lemma DatasheetEquations(p: Phy, n: int) returns (blocks: nat, de: int, cr: int)
    requires Accepts(p) && 0 <= n <= 255
    ensures de == if p.sf >= 7 && (p.ldro == Some(true)
                                   || (p.ldro == None && Pow2(p.sf) as real / p.bwHz as real >= 0.01638)) then 1 else 0
    ensures 1 <= cr <= 4 && (p.cr == cr || p.cr == cr + 4)
    ensures var bits := BitsAfterHeader(p.sf, n, p.crcOn, p.explicitHeader);
            && blocks * (4 * (p.sf - 2 * de)) >= bits
            && (blocks >= 1 ==> (blocks - 1) * (4 * (p.sf - 2 * de)) < bits)
    ensures EstimateToaMs(p, n)
            == Ok(InMilliseconds(
                    p.preamble as real + (if p.sf <= 6 then 6.25 else 4.25) + 8.0 + (blocks * (cr + 4)) as real,
                    Pow2(p.sf) as real / p.bwHz as real))
  {
    de, cr := Optimised(p), CrIndex(p.cr).value;
    var bits := Max(Numerator(p, n), 0);
    blocks := CeilDiv(bits, Denominator(p));
    CeilDivCovers(bits, Denominator(p));
    CeilDivTight(bits, Denominator(p));
    SymbolsSplit(p, n, blocks);
    hide InMilliseconds, Symbols;
  }

  lemma SymbolsSplit(p: Phy, n: int, blocks: nat)
    requires Accepts(p) && blocks == CeilDiv(Max(Numerator(p, n), 0), Denominator(p))
    ensures Symbols(p, n)
            == p.preamble as real + (if p.sf <= 6 then 6.25 else 4.25) + 8.0
               + (blocks * (CrIndex(p.cr).value + 4)) as real
  {
    hide CeilDiv, Numerator, Denominator;
  }

  lemma CeilDivTight(a: nat, d: int)
    requires d > 0
    ensures CeilDiv(a, d) >= 1 ==> (CeilDiv(a, d) - 1) * d < a
    ensures a == 0 ==> CeilDiv(a, d) == 0
  {
    var q := CeilDiv(a, d);
    assert a + d - 1 == q * d + (a + d - 1) % d;
    assert (q - 1) * d == q * d - d;
    if a == 0 {
      CeilDivLeast(a, d, 0);
    }
  }

  /** An empty payload at SF 5 and 125 kHz behind eight preamble symbols, without CRC and header. */
  lemma ShortestFrame()
    ensures EstimateToaMs(Phy(5, 125000, 5, 8, false, false, None), 0) == Ok(5.696)
  {
    var p := Phy(5, 125000, 5, 8, false, false, None);
    ShortestSymbols(p);
    hide Symbols, SymbolTime;
  }

  lemma ShortestSymbols(p: Phy)
    requires p == Phy(5, 125000, 5, 8, false, false, None)
    ensures Symbols(p, 0) == 22.25 && SymbolTime(p) == 0.000256
  {
    assert Pow2(5) == 32;
    CeilDivLeast(0, 20, 0);
    assert PayloadSymbols(p, 0) == 8;
  }

  // ---------------------------------------------------------------------
  // Order
  // ---------------------------------------------------------------------

  function Bit(b: bool): int {
    if b then 1 else 0
  }

  /** q asks for at least as much as p in every setting except spreading factor and bandwidth. */
  predicate AsksMore(p: Phy, q: Phy)
    requires Accepts(p) && Accepts(q)
  {
    && p.sf == q.sf && p.preamble <= q.preamble && CrIndex(p.cr).value <= CrIndex(q.cr).value
    && Bit(p.crcOn) <= Bit(q.crcOn) && Bit(p.explicitHeader) <= Bit(q.explicitHeader)
    && Optimised(p) <= Optimised(q)
  }

  lemma MoreSymbols(p: Phy, n: int, q: Phy, m: int)
    requires Accepts(p) && Accepts(q) && AsksMore(p, q) && n <= m
    ensures Symbols(p, n) <= Symbols(q, m)
  {
    hide CeilDiv, Optimised;
    var a, b := Max(Numerator(p, n), 0), Max(Numerator(q, m), 0);
    SmallerDenominator(p, q);
    CeilDivMonotone(a, b, Denominator(p), Denominator(q));
    TimesMonotone(CeilDiv(a, Denominator(p)), CeilDiv(b, Denominator(q)),
                  CrIndex(p.cr).value + 4, CrIndex(q.cr).value + 4);
  }

  lemma SmallerDenominator(p: Phy, q: Phy)
    requires Accepts(p) && Accepts(q) && p.sf == q.sf && Optimised(p) <= Optimised(q)
    ensures 0 < Denominator(q) <= Denominator(p)
  {
  }

  /** Time on air does not decrease with length, preamble, coding-rate index, CRC, explicit header or
      low data rate optimisation, alone or together; more bandwidth makes it strictly shorter, also
      where it switches the automatic optimisation off. */
  lemma MoreTakesLonger(p: Phy, n: int, q: Phy, m: int)
    requires Accepts(p) && Accepts(q) && AsksMore(p, q)
    requires 0 <= n <= m <= 255 && p.bwHz >= q.bwHz && p.preamble >= 0
    ensures EstimateToaMs(p, n).value <= EstimateToaMs(q, m).value
    ensures p.bwHz > q.bwHz ==> EstimateToaMs(p, n).value < EstimateToaMs(q, m).value
  {
    hide Symbols, SymbolTime;
    MoreSymbols(p, n, q, m);
    SymbolsPositive(p, n);
    WiderIsFaster(p, q);
    SymbolTimePositive(p);
    RealTimesMonotone(Symbols(p, n), Symbols(q, m), SymbolTime(p), SymbolTime(q));
  }

  lemma WiderIsFaster(p: Phy, q: Phy)
    requires Accepts(p) && Accepts(q) && p.sf == q.sf && p.bwHz >= q.bwHz
    ensures SymbolTime(p) <= SymbolTime(q)
    ensures p.bwHz > q.bwHz ==> SymbolTime(p) < SymbolTime(q)
  {
    Pow2Positive(p.sf);
    if p.bwHz > q.bwHz {
      DivideByMore(Pow2(p.sf) as real, q.bwHz as real, p.bwHz as real);
    }
  }

  /** Strictly decreasing in bandwidth, everything else as it is. */
  lemma StrictlyDecreasingInBandwidth(p: Phy, bwHz: int, n: int)
    requires Accepts(p) && 0 <= n <= 255 && p.preamble >= 0 && bwHz > p.bwHz
    ensures EstimateToaMs(p.(bwHz := bwHz), n).value < EstimateToaMs(p, n).value
  {
    WiderIsFaster(p.(bwHz := bwHz), p);
    MoreTakesLonger(p.(bwHz := bwHz), n, p, n);
  }

  lemma DoubleOver(x: real, y: real)
    requires y > 0.0
    ensures (2.0 * x) / y == 2.0 * (x / y)
  {
  }

  lemma SlowerSymbol(p: Phy)
    requires Accepts(p) && p.sf <= 11
    ensures SymbolTime(p.(sf := p.sf + 1)) == 2.0 * SymbolTime(p)
    ensures Optimised(p) <= Optimised(p.(sf := p.sf + 1))
  {
    SymbolTimePositive(p);
    DoubleOver(Pow2(p.sf) as real, p.bwHz as real);
    assert Pow2(p.sf + 1) as real == 2.0 * Pow2(p.sf) as real;
    OptimisedWhenSlower(p, p.(sf := p.sf + 1));
  }

  lemma OptimisedWhenSlower(p: Phy, q: Phy)
    requires Accepts(p) && Accepts(q) && p.sf <= q.sf && p.ldro == q.ldro && SymbolTime(p) <= SymbolTime(q)
    ensures Optimised(p) <= Optimised(q)
  {
    hide SymbolTime;
  }

  /** One spreading factor more never halves the number of symbols. */
  lemma NotHalved(p: Phy, n: int)
    requires Accepts(p) && p.sf <= 11 && p.preamble >= 0
    ensures 2.0 * Symbols(p.(sf := p.sf + 1), n) > Symbols(p, n)
  {
    hide CeilDiv, Optimised;
    var q := p.(sf := p.sf + 1);
    var a, b := Max(Numerator(p, n), 0), Max(Numerator(q, n), 0);
    DenominatorRange(p);
    CeilDivHalves(a, b, Denominator(p), Denominator(q));
    var c, f, k := CeilDiv(a, Denominator(p)), CeilDiv(b, Denominator(q)), CrIndex(p.cr).value + 4;
    TimesMonotone(c, 2 * f + 1, k, k);
    assert (2 * f + 1) * k == 2 * (f * k) + k;
  }

  lemma DenominatorRange(p: Phy)
    requires Accepts(p) && p.sf <= 11
    ensures Denominator(p) >= 20 && 0 < Denominator(p.(sf := p.sf + 1)) <= Denominator(p) + 4
  {
    SlowerSymbol(p);
  }

  /** Strictly increasing in the spreading factor over 5..12, across the change of formula between 6
      and 7 and across the automatic switching of the low data rate optimisation. */
  lemma {:induction false} StrictlyIncreasingInSf(p: Phy, sf: int, n: int)
    requires Accepts(p) && p.sf < sf <= 12 && 0 <= n <= 255 && p.preamble >= 0
    ensures EstimateToaMs(p, n).value < EstimateToaMs(p.(sf := sf), n).value
    decreases sf - p.sf
  {
    hide Symbols, SymbolTime;
    var q := p.(sf := p.sf + 1);
    NotHalved(p, n);
    SlowerSymbol(p);
    SymbolTimePositive(p);
    SymbolsPositive(p, n);
    RealTimesMonotone(Symbols(p, n), 2.0 * Symbols(q, n), SymbolTime(p), SymbolTime(p));
    assert 2.0 * Symbols(q, n) * SymbolTime(p) == Symbols(q, n) * SymbolTime(q);
    if q.sf < sf {
      StrictlyIncreasingInSf(q, sf, n);
    }
  }

  // ---------------------------------------------------------------------
  // The acknowledgement timeout
  // ---------------------------------------------------------------------

  lemma CeilBounds(x: real)
    ensures x <= Ceil(x) as real < x + 1.0
  {
  }

  /** The timeout is defined exactly when both times on air are and the margin is not negative; it is
      the least whole number of milliseconds that covers data, acknowledgement and margin. */
  lemma TimeoutCovers(p: Phy, dataBytes: int, ackBytes: int, marginMs: int)
    ensures var r := EstimateAckTimeoutMs(p, dataBytes, ackBytes, marginMs);
            && (r.Ok? <==> marginMs >= 0 && Accepts(p) && 0 <= dataBytes <= 255 && 0 <= ackBytes <= 255)
            && (r.Ok? ==>
                  var total := EstimateToaMs(p, dataBytes).value + EstimateToaMs(p, ackBytes).value + marginMs as real;
                  total <= r.value as real < total + 1.0)
  {
    DefinedIff(p, dataBytes);
    DefinedIff(p, ackBytes);
    if marginMs >= 0 && Accepts(p) && 0 <= dataBytes <= 255 && 0 <= ackBytes <= 255 {
      CeilBounds(EstimateToaMs(p, dataBytes).value + EstimateToaMs(p, ackBytes).value + marginMs as real);
    }
  }

  /** Which error the estimate and the timeout meet: the first check that fails, the data frame before the answer. */
  lemma ErrorIff(p: Phy, n: int, ackBytes: int, marginMs: int, e: ToaError)
    ensures EstimateToaMs(p, n) == Err(e) <==>
              match e
              case LengthOutOfRange => !(0 <= n <= 255)
              case SfOutOfRange => 0 <= n <= 255 && !(5 <= p.sf <= 12)
              case BandwidthNotPositive => 0 <= n <= 255 && 5 <= p.sf <= 12 && p.bwHz <= 0
              case CodingRateUnknown => 0 <= n <= 255 && 5 <= p.sf <= 12 && p.bwHz > 0 && !(1 <= p.cr <= 8)
              case MarginNegative => false
    ensures EstimateAckTimeoutMs(p, n, ackBytes, marginMs) == Err(e) <==>
              match e
              case MarginNegative => marginMs < 0
              case LengthOutOfRange =>
                marginMs >= 0 && (!(0 <= n <= 255) || (Accepts(p) && !(0 <= ackBytes <= 255)))
              case _ => marginMs >= 0 && EstimateToaMs(p, n) == Err(e)
  {
    hide InMilliseconds, Symbols, SymbolTime, Ceil;
  }

  // ---------------------------------------------------------------------
  // Derived timeouts and the SEQ byte
  // ---------------------------------------------------------------------

  /** No frame takes more than 69 times as long as any other one, and a three-byte frame at most
      three times as long. */
  lemma SymbolSpread(p: Phy, n: int, m: int)
    requires Accepts(p) && p.preamble >= 0 && 0 <= n <= 255 && 0 <= m
    ensures Symbols(p, n) <= 69.0 * Symbols(p, m)
    ensures n <= 3 ==> Symbols(p, n) <= 3.0 * Symbols(p, m)
  {
    AtTwenty();
    hide CeilDiv;
    var a, d, k := Max(Numerator(p, n), 0), Denominator(p), CrIndex(p.cr).value + 4;
    CeilDivMonotone(a, 2060, d, 20);
    TimesMonotone(CeilDiv(a, d), 103, k, 8);
    if n <= 3 {
      CeilDivMonotone(a, 40, d, 20);
      TimesMonotone(CeilDiv(a, d), 2, k, 8);
    }
    TimesMonotone(0, CeilDiv(Max(Numerator(p, m), 0), d), 0, k);
  }

  lemma AtTwenty()
    ensures CeilDiv(2060, 20) == 103 && CeilDiv(40, 20) == 2
  {
  }

  lemma ToaSpread(p: Phy, n: int, m: int)
    requires Accepts(p) && p.preamble >= 0 && 0 <= n <= 255 && 0 <= m <= 255
    ensures EstimateToaMs(p, n).value <= 69.0 * EstimateToaMs(p, m).value
    ensures n <= 3 ==> EstimateToaMs(p, n).value <= 3.0 * EstimateToaMs(p, m).value
  {
    hide Symbols, SymbolTime;
    SymbolSpread(p, n, m);
    SymbolsPositive(p, n);
    SymbolTimePositive(p);
    var x, y, z := Symbols(p, n), Symbols(p, m), SymbolTime(p);
    RealTimesMonotone(x, 69.0 * y, z, z);
    assert 69.0 * y * z == 69.0 * (y * z);
    if n <= 3 {
      RealTimesMonotone(x, 3.0 * y, z, z);
      assert 3.0 * y * z == 3.0 * (y * z);
    }
  }

  /** With the default margin, a derived timeout is at most 256 times the spacing of any frame, as long
      as that spacing is at least a millisecond: no entry outlives a full turn of the SEQ byte. */
  lemma DerivedTimeoutFits(p: Phy, n: int, m: int, guardMs: nat)
    requires Accepts(p) && p.preamble >= 0 && 0 <= n <= 255 && 0 <= m <= 255
    requires (EstimateToaMs(p, m).value + guardMs as real).Floor >= 1
    ensures EstimateAckTimeoutMs(p, n, 3, 40).value <= 256 * (EstimateToaMs(p, m).value + guardMs as real).Floor
  {
    hide EstimateToaMs;
    TimeoutCovers(p, n, 3, 40);
    ToaSpread(p, n, m);
    ToaSpread(p, 3, m);
  }
}
