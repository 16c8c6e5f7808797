/** Soundness of acknowledgements with the radio's own times on air and timeouts. */
module ArqExample {
  import opened Basics
  import opened Windows
  import opened ArqModel
  import opened ArqAckSound
  import opened ArqSampling
  import opened ArqStaleAck
  import opened ArqDerivedTimeouts
  import opened TimeOnAir
  import opened ArqFirstPair
  import opened ArqOverlap
  import RawCodec

  /** For every accepted radio setting, whether the timeout is given or derived, the exact condition is a
      matter of the run specification and the codec alone. */
  lemma RadioAckSoundIff(p: Phy, spec: Spec, dims: nat)
    requires SpecValid(p, spec)
    ensures RunsSound(ConfigOf(p, spec), dims)
            <==> || (spec.maxWindows.Some? && spec.maxWindows.value <= 256)
                 || (spec.maxInflight == 1 && spec.maxRetries >= 1)
                 || !Tells(ConfigOf(p, spec), dims)
  {
    hide RunsSound;
    ConfigIsValid(p, spec);
    AckSoundIff(ConfigOf(p, spec), dims);
  }

  /** The radio settings of the example configurations. */
  const ExamplePhy := Phy(7, 125000, 5, 8, true, true, None)

  /** The raw codec at its default scale. */
  function RawOrNothing(window: seq<real>): bytes {
    if 2 * |window| <= 238 then RawCodec.Encoded(window, 32767.0) else []
  }

  /** The example configuration with the raw codec and without a limit on the number of windows. */
  const ExampleSpec := Spec(None, 20, 0, 1, None, 238, 0, WindowSpec(1, 1), RawOrNothing)

  lemma ExampleIsValid()
    ensures SpecValid(ExamplePhy, ExampleSpec)
  {
    hide RawCodec.Encoded;
    forall w ensures |RawOrNothing(w)| <= 238 {
      RawCodec.EncodedLength(w, 32767.0);
    }
  }

  lemma LevelsDiffer()
    ensures RawCodec.Level(0.0, 32767.0) == 0 && RawCodec.Level(1.0, 32767.0) == 32767
  {
    assert (0.0).Floor == 0 && (32767.0).Floor == 32767;
  }

  function Twelve(x: real): Row {
    seq(12, i => x)
  }

  lemma EncodingsDiffer()
    ensures RawOrNothing(Twelve(0.0)) != RawOrNothing(Twelve(1.0))
  {
    hide RawCodec.Encoded, RawCodec.Level;
    RawCodec.EncodedAt(Twelve(0.0), 32767.0, 0);
    RawCodec.EncodedAt(Twelve(1.0), 32767.0, 0);
    LevelsDiffer();
  }

  lemma OneRow(row: Row)
    ensures Flatten([row]) == row
  {
    assert [row][1..] == [];
  }

  lemma ExampleTells()
    ensures ExampleSpec.window.Valid() && Tells(ConfigOf(ExamplePhy, ExampleSpec), 12)
  {
    hide RawOrNothing, ToaOf, TimeoutOf, Flatten, Tells;
    TellsIff(ConfigOf(ExamplePhy, ExampleSpec), 12);
    OneRow(Twelve(0.0));
    OneRow(Twelve(1.0));
    EncodingsDiffer();
    assert Fit([Twelve(0.0)], 12) && Fit([Twelve(1.0)], 12);
  }

  /** On such a link, with nothing dropped, there is a run in which window 256 is reported acknowledged while
      the receiver has not received it. */
  lemma ExampleIsUnsound() returns (env: Env, plan: nat -> Pause, n: nat)
    ensures SpecValid(ExamplePhy, ExampleSpec)
    ensures RowsFit(env, 12) && forall i: nat :: !env.dropAb(i) && !env.dropBa(i)
    ensures var cfg := ConfigOf(ExamplePhy, ExampleSpec);
            cfg.window.Valid() && !AcksSound(cfg, Loop(cfg, env, Init(0), plan, 0, n))
  {
    hide Tells, Loop, AcksSound, RowsFit, ToaOf, TimeoutOf;
    ExampleIsValid();
    ConfigIsValid(ExamplePhy, ExampleSpec);
    ExampleTells();
    env, plan, n := UnsoundUnlessSafe(ConfigOf(ExamplePhy, ExampleSpec), 12);
  }

  // ---------------------------------------------------------------------
  // Frames of one length
  // ---------------------------------------------------------------------

  /** Windows of one row of twelve values: all frames are 26 bytes long. */
  lemma ExampleIsUniform(spec: Spec)
    requires spec.window == WindowSpec(1, 1) && spec.encode == RawOrNothing
    ensures spec.window.Valid() && Uniform(ConfigOf(ExamplePhy, spec), 12, 26)
  {
    hide RawCodec.Encoded, Flatten, ToaOf, TimeoutOf;
    forall rows: seq<Row> | |rows| == 1 && Fit(rows, 12) ensures 2 + |RawOrNothing(Flatten(rows))| == 26 {
      assert rows == [rows[0]];
      OneRow(rows[0]);
      RawCodec.EncodedLength(rows[0], 32767.0);
    }
  }

  /** 60.25 symbols of 1.024 ms each. */
  lemma ExampleTimeOnAir()
    ensures EstimateToaMs(ExamplePhy, 26) == Ok(61.696)
  {
    assert Pow2(7) == 128;
    assert SymbolTime(ExamplePhy) == 0.001024;
    assert CeilDiv(224, 28) == 8;
    assert Numerator(ExamplePhy, 26) == 224 && Denominator(ExamplePhy) == 28;
    assert Symbols(ExamplePhy, 26) == 60.25;
  }

  /** The example configuration without a guard time and with the default table of one: transmissions overlap if the
      link delivers within 30 milliseconds. */
  lemma ExampleOverlaps(spec: Spec)
    requires spec == ExampleSpec.(guardMs := 0, latencyMs := spec.latencyMs) && spec.latencyMs <= 30
    ensures SpecValid(ExamplePhy, spec) && SomeOverlap(ConfigOf(ExamplePhy, spec), 12)
  {
    hide EstimateToaMs, EstimateAckTimeoutMs, RawOrNothing, SomeOverlap;
    ExampleIsValid();
    ConfigIsValid(ExamplePhy, spec);
    var cfg := ConfigOf(ExamplePhy, spec);
    ExampleTimeOnAir();
    ExampleIsUniform(spec);
    var rows := [Twelve(0.0)];
    assert Length(cfg, rows) == 26;
    assert Slot(cfg, 26) == 61 && Fractional(cfg, 12, rows) && CanFollowAtOnce(cfg, 26);
    OverlapIff(cfg, 12);
  }
}
