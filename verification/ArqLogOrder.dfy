/** The order of a log: entries are in order of time, acknowledgements are named, and first attempts come in
    the order of their windows. */
module ArqLogOrder {
  import opened Basics
  import opened ArqModel
  import opened LogCounts
  import opened ArqInvariants
  import opened ArqCore
  import ArqLink
  import Windows

  // ---------------------------------------------------------------------
  // The log is in order of time, and every acknowledgement in it is named
  // ---------------------------------------------------------------------

  ghost predicate InTime(log: seq<Event>, now: int) {
    && (forall i, j :: 0 <= i < j < |log| ==> log[i].ts <= log[j].ts)
    && (forall i :: 0 <= i < |log| ==> log[i].ts <= now)
  }

  ghost predicate AcksNamed(log: seq<Event>) {
    forall i :: 0 <= i < |log| && log[i].AckReceived? ==> log[i].window.Some?
  }

  ghost predicate LogInv(s: Sys) {
    InTime(s.log, s.now) && AcksNamed(s.log)
  }

  lemma LogGrows(s: Sys, t: Sys)
    requires LogInv(s) && |t.log| >= |s.log| && t.log[..|s.log|] == s.log && t.now >= s.now
    requires forall i :: |s.log| <= i < |t.log| ==> t.log[i].ts == s.now
    requires forall i :: |s.log| <= i < |t.log| && t.log[i].AckReceived? ==> t.log[i].window.Some?
    ensures LogInv(t)
  {
    assert forall i :: 0 <= i < |s.log| ==> t.log[i] == t.log[..|s.log|][i];
  }

  lemma LogReceiving(cfg: Config, s: Sys)
    requires TableInv(cfg, s) && LogInv(s) && Deliverable(s.link.toA, s.now)
    ensures LogInv(HandleFrame(cfg, s))
  {
    hide LogInv, ParseReply, Drop, EntryInv;
    LogGrows(s, HandleFrame(cfg, s));
  }

  lemma LogInvStep(cfg: Config, env: Env, s: Sys, step: Step)
    requires cfg.Valid() && TableInv(cfg, s) && LogInv(s) && Enabled(cfg, s, step)
    ensures LogInv(Apply(cfg, env, s, step))
  {
    hide LogInv, TableInv, HandleFrame, ParseData, RecordSend, SendFromA, SendFromB, Drop, CanSend, Windows.Feed;
    match step {
      case Receiving => LogReceiving(cfg, s);
      case Retrying(sn) => LogGrows(s, Retry(cfg, env, s, sn));
      case Failing(sn) => LogGrows(s, Fail(s, sn));
      case Sending => LogGrows(s, SendNext(cfg, env, s));
      case Relaying => LogGrows(s, Relay(cfg, env, s));
      case Sampling => LogGrows(s, QueueWindow(cfg, env, s));
      case Ticking(ms) => LogGrows(s, Tick(s, ms));
    }
  }

  lemma {:induction false} LogInvAlong(cfg: Config, env: Env, s: Sys, steps: seq<Step>, t: Sys)
    requires cfg.Valid() && CoreInv(cfg, env, s) && Leads(cfg, env, s, steps, t) && LogInv(s)
    ensures LogInv(t)
    decreases |steps|
  {
    hide Apply, Enabled, LogInv;
    hide TableInv, DataInv, SampleInv, FateInv, CountInv, ArqLink.OriginInv, ArqLink.FrameInv;
    if steps != [] {
      CoreInvStep(cfg, env, s, steps[0]);
      LogInvStep(cfg, env, s, steps[0]);
      LogInvAlong(cfg, env, Apply(cfg, env, s, steps[0]), steps[1..], t);
    }
  }

  lemma LogInvariant(cfg: Config, env: Env, s: Sys)
    requires cfg.Valid() && Reachable(cfg, env, s)
    ensures LogInv(s)
  {
    hide Leads, CoreInv;
    var start: nat, steps :| Leads(cfg, env, Init(start), steps, s);
    CoreInvInit(cfg, env, start);
    LogInvAlong(cfg, env, Init(start), steps, s);
  }

  // ---------------------------------------------------------------------
  // No frame is unreadable
  // ---------------------------------------------------------------------

  ghost predicate AllReadable(s: Sys) {
    Num(Unreadable, s.log) == 0
  }

  lemma ReadableStep(cfg: Config, env: Env, s: Sys, step: Step)
    requires cfg.Valid() && CoreInv(cfg, env, s) && AllReadable(s) && Enabled(cfg, s, step)
    ensures AllReadable(Apply(cfg, env, s, step))
  {
    hide TableInv, DataInv, SampleInv, FateInv, CountInv, ArqLink.OriginInv, ArqLink.FrameInv, ParseReply, ParseData;
    hide Num, ToaSum, Resolutions, RecordSend, SendFromA, SendFromB, Drop, CanSend, Windows.Feed;
    match step {
      case Receiving =>
        ArqLink.OriginReceiving(cfg, s);
        var sn := ParseReply(cfg, s.link.toA[0].frame).sn;
        if sn in s.gate.inflight {
          Snoc(s.log, AckEvent(PopA(s), sn));
        }
      case Relaying =>
        ArqLink.OriginRelaying(cfg, env, s);
        var d := ParseData(cfg, s.link.toB[0].frame);
        Snoc2(s.log, RxOk(s.now, d.sn, d.payload), AckSent(s.now, d.sn));
      case Retrying(sn) => Snoc(s.log, Retry(cfg, env, s, sn).log[|s.log|]);
      case Sending => Snoc(s.log, SendNext(cfg, env, s).log[|s.log|]);
      case Failing(sn) => Snoc(s.log, Fail(s, sn).log[|s.log|]);
      case _ =>
    }
  }

  lemma {:induction false} ReadableAlong(cfg: Config, env: Env, s: Sys, steps: seq<Step>, t: Sys)
    requires cfg.Valid() && CoreInv(cfg, env, s) && Leads(cfg, env, s, steps, t) && AllReadable(s)
    ensures AllReadable(t)
    decreases |steps|
  {
    hide Apply, Enabled, AllReadable;
    hide TableInv, DataInv, SampleInv, FateInv, CountInv, ArqLink.OriginInv, ArqLink.FrameInv;
    if steps != [] {
      CoreInvStep(cfg, env, s, steps[0]);
      ReadableStep(cfg, env, s, steps[0]);
      ReadableAlong(cfg, env, Apply(cfg, env, s, steps[0]), steps[1..], t);
    }
  }

  /** Neither node ever logs a frame it cannot read. */
  lemma NothingUnreadable(cfg: Config, env: Env, s: Sys)
    requires cfg.Valid() && Reachable(cfg, env, s)
    ensures Num(Unreadable, s.log) == 0
  {
    hide Leads, CoreInv;
    var start: nat, steps :| Leads(cfg, env, Init(start), steps, s);
    CoreInvInit(cfg, env, start);
    ReadableAlong(cfg, env, Init(start), steps, s);
  }

  // ---------------------------------------------------------------------
  // First attempts
  // ---------------------------------------------------------------------

  /** First attempts come in the order of their windows. */
  ghost predicate FirstsIncrease(log: seq<Event>) {
    forall i, j :: 0 <= i < j < |log| && IsFirst(log[i]) && IsFirst(log[j]) ==> log[i].id < log[j].id
  }

  predicate IsFirst(e: Event) {
    e.TxSent? && e.attempt == 1
  }

  lemma FirstsGrow(cfg: Config, s: Sys, t: Sys)
    requires DataInv(cfg, s) && FirstsIncrease(s.log)
    requires |s.log| <= |t.log| <= |s.log| + 2 && t.log[..|s.log|] == s.log
    requires forall i :: |s.log| <= i < |t.log| && IsFirst(t.log[i]) ==> |t.log| == |s.log| + 1 && t.log[i].id == s.sent
    ensures FirstsIncrease(t.log)
  {
    hide PendingInv, HeldInv, SeqOf, Encodes;
    forall i, j | 0 <= i < j < |t.log| && IsFirst(t.log[i]) && IsFirst(t.log[j])
      ensures t.log[i].id < t.log[j].id
    {
      assert t.log[i] == s.log[i];
      assert SentInv(cfg, s, s.log[i]);
      if j < |s.log| {
        assert t.log[j] == s.log[j];
      }
    }
  }

  lemma FirstsRetrying(cfg: Config, env: Env, s: Sys, sn: byte)
    requires TableInv(cfg, s) && DataInv(cfg, s) && FirstsIncrease(s.log) && sn in s.payloads
    ensures FirstsIncrease(Retry(cfg, env, s, sn).log)
  {
    hide DataInv, FirstsIncrease, RecordSend, SendFromA;
    assert EntryInv(s.gate.inflight[sn], sn, s.now);
    FirstsGrow(cfg, s, Retry(cfg, env, s, sn));
  }

  lemma FirstsSending(cfg: Config, env: Env, s: Sys)
    requires DataInv(cfg, s) && FirstsIncrease(s.log) && s.pending != []
    ensures FirstsIncrease(SendNext(cfg, env, s).log)
  {
    hide FirstsIncrease, RecordSend, SendFromA, HeldInv, SentInv, SeqOf, Encodes;
    FirstsGrow(cfg, s, SendNext(cfg, env, s));
  }

  lemma FirstsStep(cfg: Config, env: Env, s: Sys, step: Step)
    requires cfg.Valid() && TableInv(cfg, s) && DataInv(cfg, s) && FirstsIncrease(s.log) && Enabled(cfg, s, step)
    ensures FirstsIncrease(Apply(cfg, env, s, step).log)
  {
    hide TableInv, DataInv, FirstsIncrease, ParseReply, ParseData, Retry, SendNext, Drop, CanSend, SendFromB;
    hide Windows.Feed;
    match step {
      case Receiving => FirstsGrow(cfg, s, HandleFrame(cfg, s));
      case Retrying(sn) => FirstsRetrying(cfg, env, s, sn);
      case Failing(sn) => FirstsGrow(cfg, s, Fail(s, sn));
      case Sending => FirstsSending(cfg, env, s);
      case Relaying => FirstsGrow(cfg, s, Relay(cfg, env, s));
      case Sampling => FirstsGrow(cfg, s, QueueWindow(cfg, env, s));
      case Ticking(ms) => FirstsGrow(cfg, s, Tick(s, ms));
    }
  }

  lemma {:induction false} FirstsAlong(cfg: Config, env: Env, s: Sys, steps: seq<Step>, t: Sys)
    requires cfg.Valid() && CoreInv(cfg, env, s) && Leads(cfg, env, s, steps, t) && FirstsIncrease(s.log)
    ensures FirstsIncrease(t.log)
    decreases |steps|
  {
    hide Apply, Enabled, FirstsIncrease;
    hide TableInv, DataInv, SampleInv, FateInv, CountInv, ArqLink.OriginInv, ArqLink.FrameInv;
    if steps != [] {
      CoreInvStep(cfg, env, s, steps[0]);
      FirstsStep(cfg, env, s, steps[0]);
      FirstsAlong(cfg, env, Apply(cfg, env, s, steps[0]), steps[1..], t);
    }
  }

  lemma FirstsInvariant(cfg: Config, env: Env, s: Sys)
    requires cfg.Valid() && Reachable(cfg, env, s)
    ensures FirstsIncrease(s.log)
  {
    hide Leads, CoreInv;
    var start: nat, steps :| Leads(cfg, env, Init(start), steps, s);
    CoreInvInit(cfg, env, start);
    FirstsAlong(cfg, env, Init(start), steps, s);
  }
}
