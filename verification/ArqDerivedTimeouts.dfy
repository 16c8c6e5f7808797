/** The link with time on air and acknowledgement timeouts taken from the radio settings, as the
    transmit node takes them when the run specification gives no timeout. */
module ArqDerivedTimeouts {
  import opened Basics
  import opened Windows
  import opened ArqModel
  import opened ArqSeqWrap
  import opened ArqPatience
  import opened TimeOnAir

  /** What a run specification says besides the radio settings. `ackTimeoutMs` absent means derived. */
  datatype Spec = Spec(
    ackTimeoutMs: Option<int>, guardMs: nat, maxRetries: nat, maxInflight: nat, maxWindows: Option<nat>,
    maxPayload: int, latencyMs: nat, window: WindowSpec, encode: seq<real> -> bytes)

  /** Time on air, continued by zero beyond the lengths the estimate accepts. */
  function ToaOf(p: Phy, n: nat): real {
    match EstimateToaMs(p, n)
    case Ok(ms) => ms
    case Err(_) => 0.0
  }

  function TimeoutOf(p: Phy, spec: Spec, n: nat): int {
    if spec.ackTimeoutMs.Some? then spec.ackTimeoutMs.value
    else
      match EstimateAckTimeoutMs(p, n, 3, 40)
      case Ok(ms) => ms
      case Err(_) => 0
  }

  function ConfigOf(p: Phy, spec: Spec): Config {
    Config((n: nat) => ToaOf(p, n), (n: nat) => TimeoutOf(p, spec, n), spec.guardMs, spec.maxRetries,
           spec.maxInflight, spec.maxWindows, spec.maxPayload, spec.latencyMs, spec.window, spec.encode)
  }

  ghost predicate SpecValid(p: Phy, spec: Spec) {
    && Accepts(p) && p.preamble >= 0
    && 1 <= spec.maxPayload <= 253 && spec.maxInflight >= 1 && spec.window.Valid()
    && (spec.ackTimeoutMs.Some? ==> spec.ackTimeoutMs.value > 0)
    && forall w :: |spec.encode(w)| <= spec.maxPayload
  }

  /** Accepted settings make a valid configuration: for every frame up to 255 bytes the time on air is
      defined and not negative, and the timeout is positive. */
  lemma ConfigIsValid(p: Phy, spec: Spec)
    requires SpecValid(p, spec)
    ensures ConfigOf(p, spec).Valid()
    ensures var cfg := ConfigOf(p, spec);
            && cfg.guardMs == spec.guardMs && cfg.maxRetries == spec.maxRetries && cfg.maxInflight == spec.maxInflight
            && cfg.maxWindows == spec.maxWindows && cfg.maxPayload == spec.maxPayload
            && cfg.latencyMs == spec.latencyMs && cfg.window == spec.window && cfg.encode == spec.encode
  {
    hide EstimateToaMs, EstimateAckTimeoutMs;
    var cfg := ConfigOf(p, spec);
    forall n: nat | n <= 255 ensures cfg.toaMs(n) >= 0.0 && cfg.ackTimeoutMs(n) > 0 {
      DefinedIff(p, n);
      DefinedIff(p, 3);
      TimeoutCovers(p, n, 3, 40);
    }
  }

  /** The timeout of a frame of n bytes is the one given, or else the least whole number of milliseconds that covers
      the time on air of that frame, that of a three-byte answer, and 40 ms; and the time on air the gate is
      told is the estimate for n bytes. */
  lemma TimeoutIsLeast(p: Phy, spec: Spec, n: nat, m: int)
    requires SpecValid(p, spec) && n <= 255
    ensures EstimateToaMs(p, n).Ok? && EstimateToaMs(p, 3).Ok?
    ensures ConfigOf(p, spec).toaMs(n) == EstimateToaMs(p, n).value
    ensures forall given :: spec.ackTimeoutMs == Some(given) ==> ConfigOf(p, spec).ackTimeoutMs(n) == given
    ensures spec.ackTimeoutMs == None ==>
              var total := EstimateToaMs(p, n).value + EstimateToaMs(p, 3).value + 40.0;
              && total <= ConfigOf(p, spec).ackTimeoutMs(n) as real
              && (total <= m as real ==> ConfigOf(p, spec).ackTimeoutMs(n) <= m)
  {
    hide EstimateToaMs, EstimateAckTimeoutMs;
    DefinedIff(p, n);
    DefinedIff(p, 3);
    TimeoutCovers(p, n, 3, 40);
  }

  /** In every run with derived timeouts: a window is neither resent nor reported failed before its own time on air, the
      time on air of an answer, and 40 ms have passed since each of its transmissions. */
  lemma AnswersHaveTime(p: Phy, spec: Spec, env: Env, s: Sys, i: nat, j: nat)
    requires SpecValid(p, spec) && spec.ackTimeoutMs.None? && Reachable(ConfigOf(p, spec), env, s)
    requires i < j < |s.log| && s.log[i].TxSent?
    requires || (s.log[j].TxSent? && s.log[j].id == s.log[i].id)
             || (s.log[j].TxFailed? && s.log[j].window == Some(s.log[i].id))
    ensures EstimateToaMs(p, 2 + |s.log[i].payload|).Ok? && EstimateToaMs(p, 3).Ok?
    ensures (s.log[j].ts - s.log[i].ts) as real
            >= EstimateToaMs(p, 2 + |s.log[i].payload|).value + EstimateToaMs(p, 3).value + 40.0
  {
    hide EstimateToaMs, ConfigOf, Reachable;
    ConfigIsValid(p, spec);
    WaitsForAnswers(ConfigOf(p, spec), env, s, i, j);
    TimeoutIsLeast(p, spec, 2 + |s.log[i].payload|, 0);
  }

  /** Derived timeouts are never longer than 256 times the shortest spacing between two frames,
      provided that spacing is at least a millisecond. */
  lemma DerivedTimeoutsFit(p: Phy, spec: Spec, env: Env)
    requires SpecValid(p, spec) && spec.ackTimeoutMs.None? && ConfigOf(p, spec).Spacing(2) >= 1
    ensures TimeoutsWithin(ConfigOf(p, spec), env, ConfigOf(p, spec).Spacing(2), 256)
  {
    hide EstimateToaMs, EstimateAckTimeoutMs;
    var cfg := ConfigOf(p, spec);
    forall rows: seq<Row> ensures FrameWithin(cfg, cfg.Spacing(2), 256, 2 + |cfg.encode(Flatten(rows))|) {
      var n := 2 + |cfg.encode(Flatten(rows))|;
      DefinedIff(p, 2);
      DefinedIff(p, n);
      TimeoutCovers(p, n, 3, 40);
      MoreTakesLonger(p, 2, p, n);
      DerivedTimeoutFit(p, spec, n);
    }
  }

  lemma DerivedTimeoutFit(p: Phy, spec: Spec, n: nat)
    requires SpecValid(p, spec) && spec.ackTimeoutMs.None? && ConfigOf(p, spec).Spacing(2) >= 1 && n <= 255
    ensures ConfigOf(p, spec).ackTimeoutMs(n) <= 256 * ConfigOf(p, spec).Spacing(2)
  {
    hide EstimateToaMs, EstimateAckTimeoutMs;
    DefinedIff(p, 2);
    DefinedIff(p, n);
    TimeoutCovers(p, n, 3, 40);
    DerivedTimeoutFits(p, n, 2, spec.guardMs);
  }

  /** Without retries and with derived timeouts, no SEQ is ever reused in flight, in runs of any
      length and with any table size, on every accepted radio setting. */
  lemma DefaultTimeoutsNeverWrap(p: Phy, spec: Spec, env: Env, s: Sys)
    requires SpecValid(p, spec) && spec.ackTimeoutMs.None? && spec.maxRetries == 0
    requires ConfigOf(p, spec).Spacing(2) >= 1
    requires Reachable(ConfigOf(p, spec), env, s)
    ensures s.lost == {}
  {
    hide ConfigOf, Reachable;
    ConfigIsValid(p, spec);
    DerivedTimeoutsFit(p, spec, env);
    ConfigCarries(p, spec);
    PeriodsInTime(ConfigOf(p, spec), env, ConfigOf(p, spec).Spacing(2));
    SeqWrapIsSafe(ConfigOf(p, spec), env, s);
  }

  lemma ConfigCarries(p: Phy, spec: Spec)
    ensures ConfigOf(p, spec).maxRetries == spec.maxRetries
  {
  }
}
