/** `run_pair` over a link that drops nothing also completes; and with a table of one entry and
    retries allowed, dropping nothing is exactly what completion needs. */
module ArqCompletion {
  import opened Basics
  import opened ArqModel
  import opened ArqRuns
  import opened LogCounts
  import opened ArqInvariants
  import opened ArqSampling
  import opened ArqLiveness
  import opened ArqLossFree
  import opened ArqStuck
  import opened ArqSeqWrap
  import opened LogFile
  import opened LogReplay
  import opened ArqPhases
  import ArqReplay

  /** Rounds until the oldest answer is read, or milliseconds until the gate opens. */
  function Wait(cfg: Config, p: Pace, s: Sys, ph: Phase): nat
    requires p.Valid()
  {
    if s.gate.ackedCount < s.sent && s.gate.ackedCount < |ph.stamp| then
      Max(0, Trip(cfg, p) + 1 - (ph.round - ph.stamp[s.gate.ackedCount]))
    else if s.gate.lastTxMs.Some? then Max(0, PaceDeadline(cfg, s.gate) - s.now)
    else 0
  }

  /** No window in flight is older than a round trip when a round starts. */
  lemma OldestIsYoung(cfg: Config, p: Pace, s: Sys, ph: Phase)
    requires p.Valid() && RoundStart(cfg, p, s, ph)
    ensures s.gate.ackedCount <= s.sent == |ph.stamp|
    ensures s.gate.ackedCount < s.sent ==> ph.round - ph.stamp[s.gate.ackedCount] <= Trip(cfg, p)
  {
    hide DataAt, AckAt, Table, Clean, Hop;
  }

  /** Reading answers and sending either make progress or leave the table alone, with the gate shut
      or the queue empty. */
  lemma HalfAdvances(cfg: Config, env: Env, s: Sys)
    ensures var t := SendPending(cfg, env, HandleIncoming(cfg, s));
            || Advances(s, t)
            || (Stands(s, t) && t.sent == s.sent && (s.pending == [] || !CanSend(cfg, s.gate, s.now)))
  {
    hide HandleIncoming, SendNext, CanSend;
    HandleIncomingShrinks(cfg, s);
    HandleIncomingKeepsSent(cfg, s);
    var b := HandleIncoming(cfg, s);
    ShrinkingAdvancesOrStands(s, b);
    if b.pending != [] && CanSend(cfg, b.gate, b.now) {
      SendNextKeepsSampler(cfg, env, b);
    } else if Stands(s, b) {
      SameGateSameAnswer(cfg, s, b);
    }
  }

  lemma SameGateSameAnswer(cfg: Config, s: Sys, t: Sys)
    requires Stands(s, t) && t.now == s.now
    ensures CanSend(cfg, s.gate, s.now) == CanSend(cfg, t.gate, t.now)
  {
  }

  lemma {:induction false} HandleIncomingKeepsSent(cfg: Config, s: Sys)
    ensures HandleIncoming(cfg, s).sent == s.sent
    decreases |s.link.toA|
  {
    hide ParseReply, Drop, AckEvent;
    if Deliverable(s.link.toA, s.now) {
      HandleIncomingKeepsSent(cfg, HandleFrame(cfg, s));
    }
  }

  /** A round that builds, sends and resolves nothing brings the next event nearer. */
  lemma WaitShrinks(cfg: Config, env: Env, p: Pace, s: Sys, v: Sys, ph: Phase, nh: Phase)
    requires Calm(cfg, env, p) && Reachable(cfg, env, s) && Reachable(cfg, env, v)
    requires RoundStart(cfg, p, s, ph) && RoundStart(cfg, p, v, nh)
    requires Stands(s, v) && v.sent == s.sent && v.now == s.now + p.step
    requires nh.round == ph.round + 1 && (nh.stamp == ph.stamp || nh.stamp == ph.stamp + [ph.round])
    requires s.pending != [] || s.gate.inflight != map[]
    requires s.pending == [] || !CanSend(cfg, s.gate, s.now)
    ensures Wait(cfg, p, v, nh) < Wait(cfg, p, s, ph)
  {
    hide Reachable, TableInv, DataInv, CountInv, Patient, NoLoss, Trip, PairInv, AtStart;
    CoreOf(cfg, env, s);
    CoreOf(cfg, env, v);
    PairIsClean(cfg, p, s, ph);
    PairIsClean(cfg, p, v, nh);
    InflightCount(cfg, s);
    InflightCount(cfg, v);
    OldestIsYoung(cfg, p, s, ph);
    OldestIsYoung(cfg, p, v, nh);
    if s.gate.ackedCount == s.sent {
      EmptyTable(s.gate.inflight);
    }
  }

  lemma EmptyTable<K, V>(m: map<K, V>)
    requires |m| == 0
    ensures m == map[]
  {
  }

  lemma PairIsClean(cfg: Config, p: Pace, s: Sys, ph: Phase)
    requires p.Valid() && RoundStart(cfg, p, s, ph)
    ensures Clean(s)
  {
    hide Clean, Queues, Table;
  }

  /** The run is done after finitely many rounds. */
  lemma {:induction false} PairTerminates(cfg: Config, env: Env, p: Pace, s: Sys, ph: Phase, last: nat) returns (n: nat)
    requires Calm(cfg, env, p) && SamplerSuffices(cfg, env) && Reachable(cfg, env, s) && RoundStart(cfg, p, s, ph)
    requires SamplingEndsBy(cfg, env, last)
    ensures n >= 1 && forall m: nat :: m >= n ==> IsDone(cfg, RunPair(cfg, env, s, p.step, m))
    decreases Max(0, last - s.samplesTaken), Budget(cfg, s), |s.gate.inflight|, Wait(cfg, p, s, ph)
  {
    hide SamplerSuffices, Calm, Reachable, RoundStart, Budget, Wait, TxProcessOnce, RxProcessOnce, IsDone,
      QueueWindow, HandleIncoming, SendPending, PairInv, WantsSample, AfterReading;
    CalmIsValid(cfg, env, p);
    var qh, nh := PairRound(cfg, env, p, s, ph);
    var u := TxProcessOnce(cfg, env, s);
    var mh := TxHalf(cfg, env, p, s, ph);
    var t := RxProcessOnce(cfg, env, u);
    RxManyKeepsTransmitter(cfg, env, u, 1);
    assert RxMany(cfg, env, u, 1) == t by { assert RxMany(cfg, env, t, 0) == t; }
    if IsDone(cfg, t) {
      n := 1;
      return;
    }
    var v := Tick(t, p.step);
    TxProcessOnceReachable(cfg, env, s);
    RxProcessOnceReachable(cfg, env, u);
    StepReachable(cfg, env, t, Ticking(p.step));
    SamplingProgress(cfg, env, s);
    if !WantsSample(cfg, s) {
      QueueWindowKeeps(cfg, env, s);
      HalfAdvances(cfg, env, s);
      BudgetShrinks(cfg, env, s, v);
      if !Advances(s, u) {
        WantsSame(cfg, s, t);
        DoneWhenEmpty(cfg, env, t);
        WaitShrinks(cfg, env, p, s, v, ph, nh);
      }
    }
    var rest := PairTerminates(cfg, env, p, v, nh, last);
    n := rest + 1;
  }

  lemma CalmIsValid(cfg: Config, env: Env, p: Pace)
    requires Calm(cfg, env, p)
    ensures cfg.Valid() && p.Valid() && p.step >= 1
  {
  }

  /** Done, with every window that could be built acknowledged on its only transmission. */
  ghost predicate CompletedClean(cfg: Config, env: Env, s: Sys)
    requires cfg.window.Valid()
  {
    && IsDone(cfg, s) && IsTotal(cfg, env, s.generated)
    && s.gate.sentCount == s.gate.ackedCount == s.generated
    && (s.generated >= 1 ==> Pdr(s.gate) == 1.0 && Etx(s.gate) == 1.0)
  }

  /** Over a link that drops nothing, `run_pair` completes for every retry limit and every sampler that
      suffices: all windows are acknowledged, in order, with one transmission each, so PDR and ETX are
      both one. */
  lemma LossFreeCompletes(cfg: Config, env: Env, p: Pace) returns (n: nat)
    requires Calm(cfg, env, p) && SamplerSuffices(cfg, env)
    ensures forall m: nat :: m >= n ==> CompletedClean(cfg, env, RunPair(cfg, env, Init(p.start), p.step, m))
  {
    hide SamplerSuffices, Calm, Reachable, RoundStart, RunPair, IsDone, IsTotal, Num, AckIds, Resolutions, Pdr, Etx;
    CalmIsValid(cfg, env, p);
    InitReachable(cfg, env, p.start);
    InitPair(cfg, p);
    var last := SamplingEnds(cfg, env);
    var ph := Phase(0, [], Hop(cfg, p), Hop(cfg, p) + 1, Trip(cfg, p));
    n := PairTerminates(cfg, env, p, Init(p.start), ph, last);
    forall m: nat | m >= n ensures CompletedClean(cfg, env, RunPair(cfg, env, Init(p.start), p.step, m)) {
      var t := RunPair(cfg, env, Init(p.start), p.step, m);
      LossFreeDelivery(cfg, env, p, m);
      RunPairReachable(cfg, env, Init(p.start), p.step, m);
      DoneMeansResolved(cfg, env, t);
      CountsOfGate(cfg, env, t);
      RatiosAreOne(t.gate);
    }
  }

  lemma RatiosAreOne(g: Gate)
    ensures g.sentCount == g.ackedCount >= 1 ==> Pdr(g) == 1.0 && Etx(g) == 1.0
  {
  }

  lemma CountsOfGate(cfg: Config, env: Env, s: Sys)
    requires cfg.Valid() && Reachable(cfg, env, s)
    ensures s.gate.sentCount == Num(AnySent, s.log) && s.gate.ackedCount == Num(Acked, s.log)
  {
    hide Reachable, Num, DataInv, TableInv;
    CoreOf(cfg, env, s);
  }

  /** With the default `max_inflight = 1` and at least one retry allowed, a run finishes if and only if its
      sampler suffices and the link drops none of the frames of its windows, in either direction. A single
      loss makes the run last for ever: the retry that should repair it is never sent. */
  lemma OneSlotDoneIffNoLoss(cfg: Config, env: Env, p: Pace)
    requires cfg.Valid() && p.Valid() && cfg.maxInflight == 1 && cfg.maxRetries >= 1
    ensures (exists m: nat :: IsDone(cfg, RunPair(cfg, env, Init(p.start), p.step, m)))
            <==> SamplerSuffices(cfg, env) && NoLoss(cfg, env)
  {
    hide SamplerSuffices, Reachable, RunPair, IsDone, Trip, CanBuild, Num, Resolutions;
    if m: nat :| IsDone(cfg, RunPair(cfg, env, Init(p.start), p.step, m)) {
      var t := RunPair(cfg, env, Init(p.start), p.step, m);
      InitReachable(cfg, env, p.start);
      RunPairReachable(cfg, env, Init(p.start), p.step, m);
      DoneMeansSuffices(cfg, env, t);
      OneSlotDoneNeedsNoLoss(cfg, env, t);
      NoReuseByCount(cfg, env, t);
      DoneMeansResolved(cfg, env, t);
    }
    if SamplerSuffices(cfg, env) && NoLoss(cfg, env) {
      assert Calm(cfg, env, p);
      var n := LossFreeCompletes(cfg, env, p);
      assert IsDone(cfg, RunPair(cfg, env, Init(p.start), p.step, n));
    }
  }

  // ---------------------------------------------------------------------
  // The log of a completed run
  // ---------------------------------------------------------------------

  lemma {:induction false} AckIdAt(log: seq<Event>, j: nat) returns (i: nat)
    requires j < |AckIds(log)|
    ensures i < |log| && log[i].AckReceived? && log[i].window == AckIds(log)[j]
  {
    var n := |log| - 1;
    if j < |AckIds(log[..n])| {
      i := AckIdAt(log[..n], j);
    } else {
      i := n;
    }
  }

  /** Every loss-free run of two or more windows ends with a log that misleads `phase3_report` once all ids
      but one have been stripped; `validate_run` reads it correctly. */
  lemma OneIdMisleads(cfg: Config, env: Env, p: Pace, windows: nat) returns (m: nat, keep: nat -> bool)
    requires Calm(cfg, env, p) && SamplerSuffices(cfg, env) && CanBuild(cfg, env, windows) && windows >= 2
    ensures var t := RunPair(cfg, env, Init(p.start), p.step, m);
            && IsDone(cfg, t)
            && !ArqReplay.Recovers(Phase3Report, TxFile(t.log, keep), t.log)
            && ArqReplay.Recovers(ValidateRun, TxFile(t.log, keep), t.log)
  {
    hide SamplerSuffices, Calm, Reachable, RunPair, IsDone, CanBuild, Num, AckIds, ArqReplay.Recovers, TxFile;
    CalmIsValid(cfg, env, p);
    m := LossFreeCompletes(cfg, env, p);
    var t := RunPair(cfg, env, Init(p.start), p.step, m);
    assert CompletedClean(cfg, env, t);
    LossFreeDelivery(cfg, env, p, m);
    InitReachable(cfg, env, p.start);
    RunPairReachable(cfg, env, Init(p.start), p.step, m);
    CountsOfGate(cfg, env, t);
    var i := AckIdAt(t.log, 1);
    keep := ArqReplay.MixedIdsMislead(cfg, env, t, i, 1);
  }
}
