/** A full in-flight table blocks its own retries: `_retry_expired` asks `can_send`, and `can_send`
    refuses while the table is full. */
module ArqStuck {
  import opened Basics
  import opened Windows
  import opened ArqModel
  import opened LogCounts
  import opened ArqInvariants
  import opened ArqLink
  import opened ArqCore
  import opened ArqSampling
  import opened ArqSeqWrap
  import opened ArqLiveness

  /** The table is full and every entry still has retries left. */
  ghost predicate Stuck(cfg: Config, s: Sys) {
    && |s.gate.inflight| >= cfg.maxInflight
    && forall k <- s.gate.inflight :: s.gate.inflight[k].attempts <= cfg.maxRetries
  }

  /** The step hands the transmitter an acknowledgement of something in flight. */
  predicate Frees(cfg: Config, s: Sys, step: Step)
    requires Enabled(cfg, s, step)
  {
    step.Receiving?
    && match ParseReply(cfg, s.link.toA[0].frame)
       case AckFor(sn) => sn in s.gate.inflight
       case _ => false
  }

  /** From a stuck state, every step except the arrival of an acknowledgement leaves the table, the
      payloads and all counters of the gate exactly as they are: nothing is resent, however long ago
      it expired, and nothing is reported failed. */
  lemma StuckIsClosed(cfg: Config, env: Env, s: Sys, step: Step)
    requires cfg.window.Valid() && Stuck(cfg, s) && Enabled(cfg, s, step)
    ensures !Frees(cfg, s, step) ==>
              var t := Apply(cfg, env, s, step);
              t.gate == s.gate && t.payloads == s.payloads && t.sent == s.sent && Stuck(cfg, t)
  {
    hide ParseReply, ParseData, Feed, SendFromB, SendFromA, RecordSend, Without, AckEvent;
  }

  /** Nothing is on its way in either direction. */
  predicate Silent(s: Sys) {
    s.link.toA == [] && s.link.toB == []
  }

  lemma SilentStep(cfg: Config, env: Env, s: Sys, step: Step)
    requires cfg.window.Valid() && Stuck(cfg, s) && Silent(s) && Enabled(cfg, s, step)
    ensures Silent(Apply(cfg, env, s, step)) && !Frees(cfg, s, step)
  {
    hide Feed, SendFromB, SendFromA, RecordSend, Without;
  }

  /** Once a stuck table has nothing left in the air, no continuation of the run ever resends, fails
      or sends anything again, and the run is never done. */
  lemma {:induction false} StuckForever(cfg: Config, env: Env, s: Sys, steps: seq<Step>, t: Sys)
    requires cfg.Valid() && Stuck(cfg, s) && Silent(s) && Leads(cfg, env, s, steps, t)
    ensures t.gate == s.gate && t.payloads == s.payloads && !IsDone(cfg, t)
    decreases |steps|
  {
    hide Apply, Enabled, Stuck, Silent, Frees;
    if steps == [] {
      StuckIsNotDone(cfg, s);
    } else {
      StuckIsClosed(cfg, env, s, steps[0]);
      SilentStep(cfg, env, s, steps[0]);
      StuckForever(cfg, env, Apply(cfg, env, s, steps[0]), steps[1..], t);
    }
  }

  lemma StuckIsNotDone(cfg: Config, s: Sys)
    requires cfg.Valid() && Stuck(cfg, s)
    ensures !IsDone(cfg, s)
  {
  }

  // ---------------------------------------------------------------------
  // A table of one entry never retries
  // ---------------------------------------------------------------------

  ghost predicate SingleInv(s: Sys) {
    && s.gate.retriesTotal == 0
    && forall k <- s.gate.inflight :: s.gate.inflight[k].attempts == 1
  }

  lemma SingleSending(cfg: Config, env: Env, s: Sys)
    requires cfg.maxInflight == 1 && SingleInv(s) && s.pending != [] && CanSend(cfg, s.gate, s.now)
    ensures SingleInv(SendNext(cfg, env, s))
  {
    hide SendFromA, DataFrame;
    if s.seqNo in s.gate.inflight {
      HasEntry(s.gate.inflight, s.seqNo);
    }
  }

  lemma SingleReceiving(cfg: Config, s: Sys)
    requires SingleInv(s) && Deliverable(s.link.toA, s.now)
    ensures SingleInv(HandleFrame(cfg, s))
  {
    hide ParseReply, Without, AckEvent;
  }

  lemma RetryNeedsRoom(cfg: Config, s: Sys, sn: byte)
    requires cfg.maxInflight == 1 && sn in s.gate.inflight
    ensures !CanSend(cfg, s.gate, s.now)
  {
    HasEntry(s.gate.inflight, sn);
  }

  lemma SingleInvStep(cfg: Config, env: Env, s: Sys, step: Step)
    requires cfg.Valid() && cfg.maxInflight == 1 && SingleInv(s) && Enabled(cfg, s, step)
    ensures SingleInv(Apply(cfg, env, s, step))
  {
    hide HandleFrame, SendNext, Transmit, Without, ParseData, SendFromB, Feed, CanSend;
    match step {
      case Sending => SingleSending(cfg, env, s);
      case Receiving => SingleReceiving(cfg, s);
      case Retrying(sn) => RetryNeedsRoom(cfg, s, sn);
      case _ =>
    }
  }

  lemma {:induction false} SingleInvAlong(cfg: Config, env: Env, s: Sys, steps: seq<Step>, t: Sys)
    requires cfg.Valid() && cfg.maxInflight == 1 && SingleInv(s) && Leads(cfg, env, s, steps, t)
    ensures SingleInv(t)
    decreases |steps|
  {
    hide Apply, Enabled, SingleInv;
    if steps != [] {
      SingleInvStep(cfg, env, s, steps[0]);
      SingleInvAlong(cfg, env, Apply(cfg, env, s, steps[0]), steps[1..], t);
    }
  }

  lemma SingleInvariant(cfg: Config, env: Env, s: Sys)
    requires cfg.Valid() && cfg.maxInflight == 1 && Reachable(cfg, env, s)
    ensures SingleInv(s)
  {
    hide Leads;
    var start: nat, steps :| Leads(cfg, env, Init(start), steps, s);
    SingleInvAlong(cfg, env, Init(start), steps, s);
  }

  /** With the default `max_inflight = 1` no frame is ever sent twice, whatever `max_retries` says. */
  lemma OneSlotNeverRetries(cfg: Config, env: Env, s: Sys)
    requires cfg.Valid() && cfg.maxInflight == 1 && Reachable(cfg, env, s)
    ensures Num(Resent, s.log) == 0 && Num(AnySent, s.log) == s.sent
    ensures forall k <- s.gate.inflight :: s.gate.inflight[k].attempts == 1
  {
    hide Reachable, Num;
    SingleInvariant(cfg, env, s);
    NoReuseByCount(cfg, env, s);
    ResentIsCounted(cfg, env, s);
  }

  lemma ResentIsCounted(cfg: Config, env: Env, s: Sys)
    requires cfg.Valid() && Reachable(cfg, env, s)
    ensures Num(Resent, s.log) == s.gate.retriesTotal
  {
    hide Reachable, Num, ToaSum, TableInv, DataInv, SampleInv, FateInv, OriginInv, FrameInv;
    CoreInvariant(cfg, env, s);
  }

  /** ... and with at least one retry allowed, no window is ever reported failed either. */
  ghost predicate NoFailureInv(cfg: Config, s: Sys) {
    Num(Failed, s.log) == 0
  }

  lemma NoFailureStep(cfg: Config, env: Env, s: Sys, step: Step)
    requires cfg.Valid() && cfg.maxInflight == 1 && cfg.maxRetries >= 1
    requires SingleInv(s) && NoFailureInv(cfg, s) && Enabled(cfg, s, step)
    ensures NoFailureInv(cfg, Apply(cfg, env, s, step))
  {
    hide Resolutions, ToaSum, Num, HandleFrame, Relay, RecordSend, SendFromA, Without, Feed, CanSend, SingleInv;
    match step {
      case Failing(sn) => SingleIsYoung(cfg, s, sn);
      case Receiving => NoFailureReceiving(cfg, s);
      case Relaying => NoFailureRelaying(cfg, env, s);
      case Sending => Snoc(s.log, SendNext(cfg, env, s).log[|s.log|]);
      case Retrying(sn) => Snoc(s.log, Retry(cfg, env, s, sn).log[|s.log|]);
      case _ =>
    }
  }

  lemma SingleIsYoung(cfg: Config, s: Sys, sn: byte)
    requires cfg.maxRetries >= 1 && SingleInv(s)
    ensures !FailureDue(cfg, s.gate, s.now, sn)
  {
  }

  lemma NoFailureReceiving(cfg: Config, s: Sys)
    requires Deliverable(s.link.toA, s.now)
    ensures Num(Failed, HandleFrame(cfg, s).log) == Num(Failed, s.log)
  {
    hide Resolutions, ToaSum, Num, ParseReply, Without;
    match ParseReply(cfg, s.link.toA[0].frame) {
      case AckFor(sn) =>
        if sn in s.gate.inflight {
          Snoc(s.log, AckEvent(PopA(s), sn));
        }
      case BadFrame => Snoc(s.log, TxParseFail(s.now));
      case OtherFrame =>
    }
  }

  lemma NoFailureRelaying(cfg: Config, env: Env, s: Sys)
    requires Deliverable(s.link.toB, s.now)
    ensures Num(Failed, Relay(cfg, env, s).log) == Num(Failed, s.log)
  {
    hide Resolutions, ToaSum, Num, ParseData, SendFromB;
    match ParseData(cfg, s.link.toB[0].frame) {
      case DataFor(sn, payload) => Snoc2(s.log, RxOk(s.now, sn, payload), AckSent(s.now, sn));
      case Malformed => Snoc(s.log, RxParseFail(s.now));
    }
  }

  lemma {:induction false} NoFailureAlong(cfg: Config, env: Env, s: Sys, steps: seq<Step>, t: Sys)
    requires cfg.Valid() && cfg.maxInflight == 1 && cfg.maxRetries >= 1
    requires SingleInv(s) && NoFailureInv(cfg, s) && Leads(cfg, env, s, steps, t)
    ensures NoFailureInv(cfg, t)
    decreases |steps|
  {
    hide Apply, Enabled, SingleInv, NoFailureInv;
    if steps != [] {
      SingleInvStep(cfg, env, s, steps[0]);
      NoFailureStep(cfg, env, s, steps[0]);
      NoFailureAlong(cfg, env, Apply(cfg, env, s, steps[0]), steps[1..], t);
    }
  }

  /** With `max_inflight = 1` and `max_retries >= 1`, a run that is done has lost nothing at all: none of the
      data frames of its windows and none of their acknowledgements was dropped. */
  lemma OneSlotDoneNeedsNoLoss(cfg: Config, env: Env, s: Sys)
    requires cfg.Valid() && cfg.maxInflight == 1 && cfg.maxRetries >= 1
    requires Reachable(cfg, env, s) && IsDone(cfg, s)
    ensures forall i :: 0 <= i < s.generated ==> !env.dropAb(i) && !env.dropBa(i)
  {
    hide Leads, Num, Resolutions, IsDone, Dropped, SingleInv, IsTotal;
    OneSlotNeverRetries(cfg, env, s);
    NoReuseByCount(cfg, env, s);
    DoneMeansResolved(cfg, env, s);
    FrameConservation(cfg, env, s);
    OneSlotNeverFails(cfg, env, s);
    NoneDropped(env.dropAb, s.generated);
    NoneDropped(env.dropBa, s.generated);
  }

  lemma OneSlotNeverFails(cfg: Config, env: Env, s: Sys)
    requires cfg.Valid() && cfg.maxInflight == 1 && cfg.maxRetries >= 1 && Reachable(cfg, env, s)
    ensures Num(Failed, s.log) == 0
  {
    hide Leads;
    var start: nat, steps :| Leads(cfg, env, Init(start), steps, s);
    NoFailureAlong(cfg, env, Init(start), steps, s);
  }

  lemma {:induction false} NoneDropped(drop: nat -> bool, n: nat)
    ensures Dropped(drop, n) == 0 <==> forall i :: 0 <= i < n ==> !drop(i)
    decreases n
  {
    if n > 0 {
      NoneDropped(drop, n - 1);
      if forall i :: 0 <= i < n ==> !drop(i) {
        assert !drop(n - 1);
      }
    }
  }
}
