/** Termination: exactly which samplers let a run end, and that it then ends under every loss pattern and
    receiver schedule, with every window resolved. */
module ArqLiveness {
  import opened Basics
  import opened ArqModel
  import opened ArqRuns
  import opened LogCounts
  import opened ArqInvariants
  import opened ArqCore
  import opened ArqBudget
  import opened ArqSampling
  import opened ArqPhases
  import opened ArqRoom
  import opened ArqSeqWrap
  import Arith

  // ---------------------------------------------------------------------
  // The measure
  // ---------------------------------------------------------------------

  /** Transmissions that a run with no more windows to build can still make. */
  ghost function Budget(cfg: Config, s: Sys): nat {
    Max(0, (cfg.maxRetries + 1) * s.generated - s.gate.sentCount)
  }

  /** By `bound`, every entry has expired and the gate has opened. */
  ghost predicate SettledBy(cfg: Config, g: Gate, bound: int) {
    && (g.lastTxMs.Some? ==> PaceDeadline(cfg, g) <= bound)
    && (forall k <- g.inflight :: g.inflight[k].lastTxMs + g.inflight[k].ackTimeoutMs <= bound)
  }

  lemma {:induction false} ExpiryBound(m: map<byte, Inflight>) returns (bound: int)
    ensures forall k <- m :: m[k].lastTxMs + m[k].ackTimeoutMs <= bound
    decreases |m|
  {
    if m == map[] {
      bound := 0;
    } else {
      var k :| k in m;
      RemoveSize(m, k);
      var rest := ExpiryBound(m - {k});
      bound := Max(rest, m[k].lastTxMs + m[k].ackTimeoutMs);
      forall x <- m ensures m[x].lastTxMs + m[x].ackTimeoutMs <= bound {
        if x != k {
          assert x in m - {k} && (m - {k})[x] == m[x];
        }
      }
    }
  }

  lemma SomeBound(cfg: Config, g: Gate) returns (bound: int)
    ensures SettledBy(cfg, g, bound)
  {
    bound := ExpiryBound(g.inflight);
    if g.lastTxMs.Some? {
      bound := Max(bound, PaceDeadline(cfg, g));
    }
  }

  // ---------------------------------------------------------------------
  // With every window built
  // ---------------------------------------------------------------------

  lemma OpenGate(cfg: Config, g: Gate, now: int, bound: int)
    requires SettledBy(cfg, g, bound) && now >= bound && |g.inflight| < cfg.maxInflight
    ensures CanSend(cfg, g, now)
  {
  }

  /** Past the bound an entry with attempts left makes the retry loop transmit. */
  lemma OverdueIsResent(cfg: Config, env: Env, s: Sys, k: byte, bound: int)
    requires cfg.window.Valid() && TableInv(cfg, s) && OrderInv(s.gate)
    requires k in s.gate.inflight && s.gate.inflight[k].attempts <= cfg.maxRetries
    requires SettledBy(cfg, s.gate, bound) && s.now >= bound && |s.gate.inflight| < cfg.maxInflight
    ensures RetryAll(cfg, env, s, ExpiredSequences(cfg, s.gate, s.now, s.gate.order)) != s
  {
    hide ExpiredSequences, CanSend, EntryInv, Transmit;
    var due := ExpiredSequences(cfg, s.gate, s.now, s.gate.order);
    ExpiredSequencesDue(cfg, s.gate, s.now, s.gate.order);
    assert RetryDue(cfg, s.gate, s.now, k) && k in due;
    OpenGate(cfg, s.gate, s.now, bound);
    assert due[0] in due && RetryDue(cfg, s.gate, s.now, due[0]);
    RetryIsSent(cfg, env, s, due[0]);
    RetryAllKeeps(cfg, env, Retry(cfg, env, s, due[0]), due[1..]);
  }

  lemma RetryIsSent(cfg: Config, env: Env, s: Sys, sn: byte)
    requires sn in s.payloads
    ensures Retry(cfg, env, s, sn).gate.sentCount == s.gate.sentCount + 1
  {
    hide SendFromA, Attempt, DataFrame;
  }

  lemma SpentIsDue(cfg: Config, s: Sys, k: byte, bound: int)
    requires TableInv(cfg, s) && k in s.gate.inflight && s.gate.inflight[k].attempts > cfg.maxRetries
    requires SettledBy(cfg, s.gate, bound) && s.now >= bound
    ensures !Purged(cfg, s)
  {
    assert FailureDue(cfg, s.gate, s.now, k);
  }

  lemma Attempted(cfg: Config, s: Sys, k: byte)
    requires TableInv(cfg, s) && k in s.gate.inflight
    ensures s.gate.inflight[k].attempts >= 1
  {
    assert EntryInv(s.gate.inflight[k], k, s.now);
  }

  /** Past the bound `_retry_expired` transmits, removes something, or finds the table empty. */
  lemma SettledRetries(cfg: Config, env: Env, s: Sys, bound: int)
    requires cfg.Valid() && StaysRoomy(cfg, env, s) && Reachable(cfg, env, s)
    requires SettledBy(cfg, s.gate, bound) && s.now >= bound
    ensures var t := RetryExpired(cfg, env, s); Advances(s, t) || (Stands(s, t) && t.gate.inflight == map[])
  {
    hide Reachable, TableInv, DataInv, StaysRoomy, OrderInv, SettledBy, RetryAll, FailAll, ExpiredSequences;
    hide ExpiredFailures, Purged, Shrinks;
    var t := RetryExpired(cfg, env, s);
    RetryExpiredKeeps(cfg, env, s);
    HasRoom(cfg, env, s);
    StateParts(cfg, env, s);
    if t.gate.sentCount <= s.gate.sentCount {
      ShrinkingAdvancesOrStands(s, t);
      if !Advances(s, t) && t.gate.inflight != map[] {
        var k :| k in t.gate.inflight;
        var r := RetryAll(cfg, env, s, ExpiredSequences(cfg, s.gate, s.now, s.gate.order));
        RetryAllKeeps(cfg, env, s, ExpiredSequences(cfg, s.gate, s.now, s.gate.order));
        SentCountOfFail(r, ExpiredFailures(cfg, r.gate, r.now, r.gate.order));
        if s.gate.inflight[k].attempts <= cfg.maxRetries {
          Attempted(cfg, s, k);
          OverdueIsResent(cfg, env, s, k, bound);
        } else {
          RetryExpiredReachable(cfg, env, s);
          StateParts(cfg, env, t);
          SettledSame(cfg, s.gate, t.gate, bound);
          SpentIsDue(cfg, t, k, bound);
        }
      }
    }
  }

  lemma SentCountOfFail(s: Sys, sns: seq<byte>)
    ensures FailAll(s, sns).gate.sentCount == s.gate.sentCount
  {
    FailAllShrinks(s, sns);
  }

  lemma SettledSame(cfg: Config, g: Gate, h: Gate, bound: int)
    requires SettledBy(cfg, g, bound)
    requires h.inflight == g.inflight && h.lastTxMs == g.lastTxMs && h.lastToaMs == g.lastToaMs
    ensures SettledBy(cfg, h, bound)
  {
  }

  /** With every window built, a call of process_once transmits, resolves, or changes nothing; and it can
      only change nothing before the bound, or when there is nothing left to do. */
  lemma AllBuiltProgress(cfg: Config, env: Env, s: Sys, bound: int)
    requires cfg.Valid() && StaysRoomy(cfg, env, s) && Reachable(cfg, env, s) && !WantsSample(cfg, s)
    requires SettledBy(cfg, s.gate, bound)
    ensures var t := TxProcessOnce(cfg, env, s);
            && (Advances(s, t) || Stands(s, t))
            && (Advances(s, t) || s.now < bound || (t.pending == [] && t.gate.inflight == map[]))
  {
    hide Reachable, StaysRoomy, RetryExpired, HandleIncoming, SettledBy, SendNext, QueueWindow, CanSend, WantsSample;
    hide Shrinks;
    QueueWindowKeeps(cfg, env, s);
    HandleIncomingReachable(cfg, env, s);
    RoomKept(cfg, env, s);
    var b := HandleIncoming(cfg, s);
    HandleIncomingShrinks(cfg, s);
    HandleIncomingKeepsSampler(cfg, s);
    RetryExpiredReachable(cfg, env, b);
    RetryExpiredKeeps(cfg, env, b);
    var c := RetryExpired(cfg, env, b);
    ShrinkingAdvancesOrStands(s, b);
    if c.gate.sentCount <= b.gate.sentCount {
      ShrinkingAdvancesOrStands(b, c);
    }
    if c.pending != [] && CanSend(cfg, c.gate, c.now) {
      SendNextKeepsSampler(cfg, env, c);
    } else if !Advances(s, c) && s.now >= bound {
      SettledSame(cfg, s.gate, b.gate, bound);
      SettledRetries(cfg, env, b, bound);
      SettledSame(cfg, s.gate, c.gate, bound);
      OpenGate(cfg, c.gate, c.now, bound);
    }
  }

  // ---------------------------------------------------------------------
  // Termination
  // ---------------------------------------------------------------------

  lemma BudgetShrinks(cfg: Config, env: Env, s: Sys, t: Sys)
    requires cfg.Valid() && Reachable(cfg, env, s) && Reachable(cfg, env, t)
    requires t.generated == s.generated && t.gate.sentCount >= s.gate.sentCount
    ensures t.gate.sentCount > s.gate.sentCount ==> Budget(cfg, t) < Budget(cfg, s)
    ensures t.gate.sentCount == s.gate.sentCount ==> Budget(cfg, t) == Budget(cfg, s)
  {
    hide Reachable, DataInv, SampleInv;
    SendsBounded(cfg, env, t);
    CoreParts(cfg, env, t);
    SentAtMostGenerated(cfg, t);
    Arith.MulMonotone(t.sent, t.generated, cfg.maxRetries + 1);
  }

  /** The loop reaches `is_done` after finitely many rounds, whatever the link drops and however the
      receiver is scheduled, as long as every pause lets the clock advance. The measure is
      lexicographic: answers of the sampler still to be asked for, transmissions still possible, windows
      in flight, milliseconds until everything in flight has expired and the gate is open. */
  lemma {:induction false} Terminates(
    cfg: Config, env: Env, s: Sys, plan: nat -> Pause, j: nat, last: nat, bound: int) returns (n: nat)
    requires cfg.Valid() && SamplerSuffices(cfg, env) && StaysRoomy(cfg, env, s) && Reachable(cfg, env, s)
    requires forall i :: i >= j ==> plan(i).ms >= 1
    requires SamplingEndsBy(cfg, env, last) && SettledBy(cfg, s.gate, bound)
    ensures n >= 1 && forall m: nat :: m >= n ==> IsDone(cfg, Loop(cfg, env, s, plan, j, m))
    decreases Max(0, last - s.samplesTaken), Budget(cfg, s), |s.gate.inflight|, Max(0, bound - s.now)
  {
    hide SamplerSuffices, StaysRoomy, Reachable, SettledBy, TxProcessOnce, RxMany, IsDone, WantsSample, Budget;
    var u := TxProcessOnce(cfg, env, s);
    var t := RxMany(cfg, env, u, plan(j).rxSteps);
    var v := Tick(t, plan(j).ms);
    OneRound(cfg, env, s, plan(j));
    if IsDone(cfg, t) {
      n := 1;
      return;
    }
    SamplingProgress(cfg, env, s);
    var next := bound;
    if WantsSample(cfg, s) {
      next := SomeBound(cfg, v.gate);
    } else {
      AllBuiltProgress(cfg, env, s, bound);
      BudgetShrinks(cfg, env, s, v);
      WantsSame(cfg, s, t);
      DoneWhenEmpty(cfg, env, t);
      if Stands(s, u) {
        SettledSame(cfg, s.gate, v.gate, bound);
      } else {
        next := SomeBound(cfg, v.gate);
      }
    }
    var rest := Terminates(cfg, env, v, plan, j + 1, last, next);
    n := rest + 1;
  }

  /** What a round and the pause after it keep. */
  lemma OneRound(cfg: Config, env: Env, s: Sys, pause: Pause)
    requires cfg.Valid() && Reachable(cfg, env, s) && StaysRoomy(cfg, env, s)
    ensures var u := TxProcessOnce(cfg, env, s);
            var t := RxMany(cfg, env, u, pause.rxSteps);
            && Reachable(cfg, env, t) && t.gate == u.gate && t.pending == u.pending && SamplerSame(u, t)
            && Reachable(cfg, env, Tick(t, pause.ms)) && StaysRoomy(cfg, env, Tick(t, pause.ms))
  {
    hide Reachable, StaysRoomy, TxProcessOnce, RxMany, SamplerSame;
    var u := TxProcessOnce(cfg, env, s);
    TxProcessOnceReachable(cfg, env, s);
    var t := RxMany(cfg, env, u, pause.rxSteps);
    RxManyReachable(cfg, env, u, pause.rxSteps);
    RxManyKeepsTransmitter(cfg, env, u, pause.rxSteps);
    StepReachable(cfg, env, t, Ticking(pause.ms));
    RoomKept(cfg, env, s);
    RoomSame(cfg, env, u, Tick(t, pause.ms));
  }

  lemma WantsSame(cfg: Config, s: Sys, t: Sys)
    requires SamplerSame(s, t)
    ensures WantsSample(cfg, s) == WantsSample(cfg, t)
  {
  }

  lemma DoneWhenEmpty(cfg: Config, env: Env, s: Sys)
    requires cfg.Valid() && SamplerSuffices(cfg, env) && Reachable(cfg, env, s) && !WantsSample(cfg, s)
    ensures s.pending == [] && s.gate.inflight == map[] ==> IsDone(cfg, s)
  {
    hide Reachable, DataInv, SampleInv, SamplerSuffices, WantsSample;
    CoreParts(cfg, env, s);
    SentAtMostGenerated(cfg, s);
    SamplingOver(cfg, env, s);
  }

  /** From some round on, every pause lets the clock advance. */
  ghost predicate KeepsTicking(plan: nat -> Pause) {
    exists k: nat :: TicksFrom(plan, k)
  }

  ghost predicate TicksFrom(plan: nat -> Pause, k: nat) {
    forall i :: i >= k ==> plan(i).ms >= 1
  }

  lemma {:induction false} RunsOut(cfg: Config, env: Env, s: Sys, plan: nat -> Pause, j: nat, k: nat) returns (n: nat)
    requires cfg.Valid() && SamplerSuffices(cfg, env) && StaysRoomy(cfg, env, s) && Reachable(cfg, env, s)
    requires TicksFrom(plan, k)
    ensures n >= 1 && forall m: nat :: m >= n ==> IsDone(cfg, Loop(cfg, env, s, plan, j, m))
    decreases Max(0, k - j)
  {
    hide SamplerSuffices, StaysRoomy, Reachable, SettledBy, IsDone, TxProcessOnce, RxMany;
    if k <= j {
      var bound := SomeBound(cfg, s.gate);
      var last := SamplingEnds(cfg, env);
      n := Terminates(cfg, env, s, plan, j, last, bound);
    } else {
      var t := RxMany(cfg, env, TxProcessOnce(cfg, env, s), plan(j).rxSteps);
      OneRound(cfg, env, s, plan(j));
      if IsDone(cfg, t) {
        n := 1;
      } else {
        var rest := RunsOut(cfg, env, Tick(t, plan(j).ms), plan, j + 1, k);
        n := rest + 1;
      }
    }
  }

  lemma EndsFromStart(cfg: Config, env: Env, start: nat, plan: nat -> Pause) returns (n: nat)
    requires cfg.Valid() && SamplerSuffices(cfg, env) && Roomy(cfg, env) && KeepsTicking(plan)
    ensures forall m: nat :: m >= n ==> IsDone(cfg, Loop(cfg, env, Init(start), plan, 0, m))
  {
    hide SamplerSuffices, Roomy, StaysRoomy, Reachable, TicksFrom, Loop, IsDone;
    InitReachable(cfg, env, start);
    StartsRoomy(cfg, env, start);
    var k: nat :| TicksFrom(plan, k);
    n := RunsOut(cfg, env, Init(start), plan, 0, k);
  }

  /** Unless retries can be shut out of a full table, a run ends if and only if its sampler suffices: with a
      limit of N windows, N must be 0 or the rows for N windows must come before the sampler ends; without a
      limit the sampler must end. Nothing else matters: not what the link drops, nor how the receiver is
      scheduled, nor how often the sampler has no sample yet. */
  lemma DoneIff(cfg: Config, env: Env, start: nat, plan: nat -> Pause)
    requires cfg.Valid() && Roomy(cfg, env) && KeepsTicking(plan)
    ensures (exists n: nat :: IsDone(cfg, Loop(cfg, env, Init(start), plan, 0, n))) <==> SamplerSuffices(cfg, env)
  {
    hide Reachable, SamplerSuffices, Roomy, KeepsTicking, Loop, IsDone;
    InitReachable(cfg, env, start);
    if n: nat :| IsDone(cfg, Loop(cfg, env, Init(start), plan, 0, n)) {
      LoopReachable(cfg, env, Init(start), plan, 0, n);
      DoneMeansSuffices(cfg, env, Loop(cfg, env, Init(start), plan, 0, n));
    }
    if SamplerSuffices(cfg, env) {
      var n := EndsFromStart(cfg, env, start, plan);
      assert IsDone(cfg, Loop(cfg, env, Init(start), plan, 0, n));
    }
  }

  // ---------------------------------------------------------------------
  // What a completed run has done
  // ---------------------------------------------------------------------

  /** At `is_done` with nothing lost, every window that the limit and the sampler allow has been built, each
      has been reported acknowledged or failed exactly once, and nothing else has been reported. */
  lemma DoneMeansResolved(cfg: Config, env: Env, s: Sys)
    requires cfg.Valid() && Reachable(cfg, env, s) && IsDone(cfg, s) && s.lost == {}
    ensures IsTotal(cfg, env, s.generated) && (cfg.maxWindows.Some? ==> s.generated == cfg.maxWindows.value)
    ensures forall w: nat :: Resolutions(s.log, w) == (if w < s.generated then 1 else 0)
    ensures Num(Acked, s.log) + Num(Failed, s.log) == s.sent == s.generated
  {
    hide Reachable, Num, Resolutions, DataInv, SampleInv, IsTotal, SamplerSuffices, WantsSample;
    DoneMeansSuffices(cfg, env, s);
    DoneWantsNothing(cfg, env, s);
    OverMeansTotal(cfg, env, s);
    CoreParts(cfg, env, s);
    WindowConservation(cfg, env, s);
    SentAtMostGenerated(cfg, s);
    forall w: nat ensures Resolutions(s.log, w) == (if w < s.generated then 1 else 0) {
      ExactlyOneFate(cfg, env, s, w);
    }
  }

  /** What rules out that a SEQ is reused in flight: a table of one, few windows, or timing. */
  ghost predicate NoReuse(cfg: Config, env: Env)
    requires cfg.window.Valid()
  {
    || cfg.maxInflight == 1
    || (forall n: nat :: CanBuild(cfg, env, n) ==> n <= 256)
    || (cfg.maxRetries == 0 && ExpiresInTime(cfg, env))
  }

  lemma NothingLost(cfg: Config, env: Env, s: Sys)
    requires cfg.Valid() && NoReuse(cfg, env) && Reachable(cfg, env, s)
    ensures s.lost == {}
  {
    hide Reachable, ExpiresInTime, DataInv, SampleInv, CanBuild;
    if cfg.maxInflight == 1 {
      NoReuseByCount(cfg, env, s);
    } else if forall n: nat :: CanBuild(cfg, env, n) ==> n <= 256 {
      CoreParts(cfg, env, s);
      SentAtMostGenerated(cfg, s);
      BuiltFromRows(cfg, env, s);
      NoReuseByCount(cfg, env, s);
    } else {
      SeqWrapIsSafe(cfg, env, s);
    }
  }

  /** Done, with everything that could be built built, and each window reported exactly once. */
  ghost predicate CompletedOnce(cfg: Config, env: Env, s: Sys)
    requires cfg.window.Valid()
  {
    && IsDone(cfg, s) && IsTotal(cfg, env, s.generated)
    && (forall w: nat :: Resolutions(s.log, w) == (if w < s.generated then 1 else 0))
    && Num(Acked, s.log) + Num(Failed, s.log) == s.generated
  }

  /** With a sampler that suffices, retries that cannot be shut out, and SEQ reuse ruled out, every run ends, under
      every loss pattern and beside every receiver schedule, with each of its windows acknowledged or
      failed exactly once. */
  lemma EveryRunEndsExactlyOnce(cfg: Config, env: Env, start: nat, plan: nat -> Pause) returns (n: nat)
    requires cfg.Valid() && SamplerSuffices(cfg, env) && Roomy(cfg, env) && NoReuse(cfg, env) && KeepsTicking(plan)
    ensures forall m: nat :: m >= n ==> CompletedOnce(cfg, env, Loop(cfg, env, Init(start), plan, 0, m))
  {
    hide SamplerSuffices, Roomy, NoReuse, Reachable, Loop, IsDone, IsTotal, Resolutions, Num, KeepsTicking;
    InitReachable(cfg, env, start);
    n := EndsFromStart(cfg, env, start, plan);
    forall m: nat | m >= n ensures CompletedOnce(cfg, env, Loop(cfg, env, Init(start), plan, 0, m)) {
      var t := Loop(cfg, env, Init(start), plan, 0, m);
      LoopReachable(cfg, env, Init(start), plan, 0, m);
      NothingLost(cfg, env, t);
      DoneMeansResolved(cfg, env, t);
    }
  }

  /** The same for `run_pair`, given enough rounds. */
  lemma RunPairEndsExactlyOnce(cfg: Config, env: Env, start: nat, stepMs: int) returns (n: nat)
    requires cfg.Valid() && SamplerSuffices(cfg, env) && Roomy(cfg, env) && NoReuse(cfg, env) && stepMs >= 1
    ensures forall m: nat :: m >= n ==> CompletedOnce(cfg, env, RunPair(cfg, env, Init(start), stepMs, m))
  {
    hide SamplerSuffices, Roomy, NoReuse, CompletedOnce, Loop, RunPair;
    var plan := (i: nat) => Pause(1, stepMs);
    assert TicksFrom(plan, 0);
    n := EveryRunEndsExactlyOnce(cfg, env, start, plan);
    forall m: nat | m >= n ensures CompletedOnce(cfg, env, RunPair(cfg, env, Init(start), stepMs, m)) {
      RunPairIsLoop(cfg, env, Init(start), stepMs, plan, 0, m);
    }
  }
}
