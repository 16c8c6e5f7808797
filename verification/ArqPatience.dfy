/** How long the transmit node waits: between a transmission of a window and its repetition, or the report that it
    failed, the timeout of its frame passes. */
module ArqPatience {
  import opened Basics
  import opened Windows
  import opened ArqModel
  import opened ArqRuns
  import opened ArqInvariants
  import opened ArqCore
  import opened ArqSampling
  import opened ArqRoom
  import ArqLink

  /** All transmissions of this window report the age since it was built. */
  ghost predicate AgesFrom(log: seq<Event>, w: PendingWindow) {
    forall i :: 0 <= i < |log| && log[i].TxSent? && log[i].id == w.id ==> log[i].ts - log[i].ageMs == w.builtMs
  }

  /** The entry under k carries time on air and timeout of its own frame, and no transmission of its window is younger
      than it says. */
  ghost predicate EntryIs(cfg: Config, s: Sys, k: byte)
    requires k in s.gate.inflight && k in s.payloads
  {
    var e, w := s.gate.inflight[k], s.payloads[k];
    && e.toaMs == cfg.toaMs(2 + |w.payload|) && e.ackTimeoutMs == cfg.ackTimeoutMs(2 + |w.payload|)
    && (forall i :: 0 <= i < |s.log| && s.log[i].TxSent? && s.log[i].id == w.id ==> s.log[i].ts <= e.lastTxMs)
    && AgesFrom(s.log, w)
  }

  /** Event e repeats window w, or reports that it failed. */
  predicate GivesUpOn(e: Event, w: nat) {
    (e.TxSent? && e.id == w) || (e.TxFailed? && e.window == Some(w))
  }

  /** Transmission x has been waited for, and if e repeats it, the ages reported differ by the time between them. */
  predicate WaitedFor(x: Event, e: Event)
    requires x.TxSent?
  {
    && (GivesUpOn(e, x.id) ==> e.ts >= x.ts + x.ackTimeoutMs)
    && (e.TxSent? && e.id == x.id ==> e.ageMs - x.ageMs == e.ts - x.ts)
  }

  ghost predicate AllWaited(log: seq<Event>) {
    forall i, j :: 0 <= i < j < |log| && log[i].TxSent? ==> WaitedFor(log[i], log[j])
  }

  ghost predicate PatienceInv(cfg: Config, s: Sys) {
    && (forall k <- s.gate.inflight :: k in s.payloads && EntryIs(cfg, s, k))
    && AllWaited(s.log)
  }

  lemma WaitedSnoc(log: seq<Event>, e: Event)
    requires AllWaited(log) && forall i :: 0 <= i < |log| && log[i].TxSent? ==> WaitedFor(log[i], e)
    ensures AllWaited(log + [e])
  {
    hide WaitedFor;
    var all := log + [e];
    forall i, j | 0 <= i < j < |all| && all[i].TxSent? ensures WaitedFor(all[i], all[j]) {
      assert all[i] == log[i];
      assert j < |log| ==> all[j] == log[j];
    }
  }

  /** Events that neither repeat nor give up anything sent before. */
  lemma WaitedOther(log: seq<Event>, e: Event)
    requires AllWaited(log)
    requires forall i :: 0 <= i < |log| && log[i].TxSent? ==> !GivesUpOn(e, log[i].id)
    ensures AllWaited(log + [e])
  {
    forall i | 0 <= i < |log| && log[i].TxSent? ensures WaitedFor(log[i], e) {
      assert !GivesUpOn(e, log[i].id);
    }
    WaitedSnoc(log, e);
  }

  lemma {:induction false} WaitedMany(log: seq<Event>, more: seq<Event>)
    requires AllWaited(log) && forall e <- more :: !e.TxSent? && !e.TxFailed?
    ensures AllWaited(log + more)
    decreases |more|
  {
    hide AllWaited;
    if more == [] {
      assert log + more == log;
    } else {
      var n := |more| - 1;
      WaitedMany(log, more[..n]);
      WaitedOther(log + more[..n], more[n]);
      assert log + more == log + more[..n] + [more[n]];
    }
  }

  /** Steps that transmit nothing and give nothing up. */
  lemma PatienceQuiet(cfg: Config, s: Sys, t: Sys)
    requires PatienceInv(cfg, s) && |s.log| <= |t.log| && t.log[..|s.log|] == s.log
    requires forall i :: |s.log| <= i < |t.log| ==> !t.log[i].TxSent? && !t.log[i].TxFailed?
    requires forall k <- t.gate.inflight ::
               && k in s.gate.inflight && t.gate.inflight[k] == s.gate.inflight[k]
               && k in t.payloads && k in s.payloads && t.payloads[k] == s.payloads[k]
    ensures PatienceInv(cfg, t)
  {
    hide AllWaited;
    var more := t.log[|s.log|..];
    assert t.log == s.log + more;
    WaitedMany(s.log, more);
    forall k <- t.gate.inflight ensures EntryIs(cfg, t, k) {
      assert EntryIs(cfg, s, k);
      forall i | 0 <= i < |t.log| && t.log[i].TxSent? ensures i < |s.log| && t.log[i] == s.log[i] {
        assert i < |s.log| ==> t.log[i] == t.log[..|s.log|][i];
      }
    }
  }

  /** An expired entry has been waited for: all transmissions of its window are that old. */
  lemma ExpiredWaited(cfg: Config, s: Sys, k: byte, e: Event)
    requires DataInv(cfg, s) && PatienceInv(cfg, s) && k in s.gate.inflight && Expired(s.gate.inflight[k], s.now)
    requires e.ts == s.now && forall w: nat :: GivesUpOn(e, w) ==> w == s.payloads[k].id
    requires e.TxSent? ==> e.ts - e.ageMs == s.payloads[k].builtMs
    ensures AllWaited(s.log + [e])
  {
    assert EntryIs(cfg, s, k) && HeldInv(cfg, s, k, s.payloads[k]);
    if e.TxSent? {
      assert GivesUpOn(e, e.id);
    }
    hide GivesUpOn, PendingInv;
    forall i | 0 <= i < |s.log| && s.log[i].TxSent? ensures WaitedFor(s.log[i], e) {
      if GivesUpOn(e, s.log[i].id) {
        assert SentInv(cfg, s, s.log[i]);
      }
    }
    WaitedSnoc(s.log, e);
  }

  /** What a transmission does to the table. */
  lemma Recorded(g: Gate, now: int, sn: byte, toaMs: real, timeout: int)
    ensures var h := RecordSend(g, now, sn, toaMs, timeout);
            && h.inflight == g.inflight[sn := h.inflight[sn]] && h.inflight[sn].lastTxMs == now
            && h.inflight[sn].toaMs == toaMs && h.inflight[sn].ackTimeoutMs == timeout
  {
  }

  /** Entries of other windows are as they were. */
  lemma OtherEntry(cfg: Config, s: Sys, t: Sys, e: Event, l: byte)
    requires l in s.gate.inflight && l in s.payloads && EntryIs(cfg, s, l)
    requires l in t.gate.inflight && t.gate.inflight[l] == s.gate.inflight[l]
    requires l in t.payloads && t.payloads[l] == s.payloads[l]
    requires t.log == s.log + [e] && (e.TxSent? ==> e.id != s.payloads[l].id)
    ensures EntryIs(cfg, t, l)
  {
    AgesSnoc(s.log, s.payloads[l], e);
    hide AgesFrom;
    forall i | 0 <= i < |t.log| && t.log[i].TxSent? && t.log[i].id == t.payloads[l].id
      ensures t.log[i].ts <= t.gate.inflight[l].lastTxMs
    {
      assert i < |s.log| && t.log[i] == s.log[i];
    }
  }

  lemma AgesSnoc(log: seq<Event>, w: PendingWindow, e: Event)
    requires AgesFrom(log, w) && (e.TxSent? && e.id == w.id ==> e.ts - e.ageMs == w.builtMs)
    ensures AgesFrom(log + [e], w)
  {
  }

  /** A transmission of window w under k. */
  lemma PatienceTransmitting(cfg: Config, s: Sys, t: Sys, k: byte, w: PendingWindow, e: Event)
    requires TableInv(cfg, s) && PatienceInv(cfg, s) && t.now == s.now && t.log == s.log + [e]
    requires e.TxSent? && e.id == w.id && e.ts == s.now && AllWaited(t.log)
    requires var n := 2 + |w.payload|;
             && t.gate == RecordSend(s.gate, s.now, k, cfg.toaMs(n), cfg.ackTimeoutMs(n))
             && t.payloads == s.payloads[k := w]
    requires forall i :: 0 <= i < |s.log| && s.log[i].TxSent? ==> s.log[i].ts <= s.now
    requires forall l <- s.payloads :: l != k ==> s.payloads[l].id != w.id
    requires AgesFrom(s.log, w) && e.ts - e.ageMs == w.builtMs
    ensures PatienceInv(cfg, t)
  {
    AgesSnoc(s.log, w, e);
    hide AgesFrom;
    hide AllWaited, EntryInv, RecordSend, EntryIs;
    Recorded(s.gate, s.now, k, cfg.toaMs(2 + |w.payload|), cfg.ackTimeoutMs(2 + |w.payload|));
    forall l <- t.gate.inflight ensures l in t.payloads && EntryIs(cfg, t, l) {
      if l != k {
        OtherEntry(cfg, s, t, e, l);
      } else {
        NewEntry(cfg, t, k);
      }
    }
  }

  lemma NewEntry(cfg: Config, t: Sys, k: byte)
    requires k in t.gate.inflight && k in t.payloads && t.gate.inflight[k].lastTxMs == t.now
    requires t.gate.inflight[k].toaMs == cfg.toaMs(2 + |t.payloads[k].payload|)
    requires t.gate.inflight[k].ackTimeoutMs == cfg.ackTimeoutMs(2 + |t.payloads[k].payload|)
    requires forall i :: 0 <= i < |t.log| && t.log[i].TxSent? ==> t.log[i].ts <= t.now
    requires AgesFrom(t.log, t.payloads[k])
    ensures EntryIs(cfg, t, k)
  {
  }

  lemma SentInPast(cfg: Config, s: Sys)
    requires DataInv(cfg, s)
    ensures forall i :: 0 <= i < |s.log| && s.log[i].TxSent? ==> s.log[i].ts <= s.now && s.log[i].id < s.sent
    ensures forall k, l :: k in s.payloads && l in s.payloads && k != l ==> s.payloads[k].id != s.payloads[l].id
    ensures forall k <- s.payloads :: s.payloads[k].id < s.sent
    ensures s.pending != [] ==> s.pending[0].id == s.sent
  {
    hide Encodes;
    forall i | 0 <= i < |s.log| && s.log[i].TxSent? ensures s.log[i].ts <= s.now && s.log[i].id < s.sent {
      assert SentInv(cfg, s, s.log[i]);
    }
    forall k, l | k in s.payloads && l in s.payloads && k != l ensures s.payloads[k].id != s.payloads[l].id {
      assert HeldInv(cfg, s, k, s.payloads[k]) && HeldInv(cfg, s, l, s.payloads[l]);
    }
    forall k <- s.payloads ensures s.payloads[k].id < s.sent {
      assert HeldInv(cfg, s, k, s.payloads[k]);
    }
  }

  lemma PatienceSending(cfg: Config, env: Env, s: Sys)
    requires TableInv(cfg, s) && DataInv(cfg, s) && PatienceInv(cfg, s) && s.pending != []
    ensures PatienceInv(cfg, SendNext(cfg, env, s))
  {
    hide SendFromA, RecordSend, DataInv, TableInv, PatienceInv, Attempt;
    var t := SendNext(cfg, env, s);
    var e := t.log[|s.log|];
    SentInPast(cfg, s);
    InvWaited(cfg, s);
    WaitedOther(s.log, e);
    assert t.log == s.log + [e];
    PatienceTransmitting(cfg, s, t, s.seqNo, s.pending[0], e);
  }

  lemma InvWaited(cfg: Config, s: Sys)
    requires PatienceInv(cfg, s)
    ensures AllWaited(s.log)
  {
  }

  lemma HeldAges(cfg: Config, s: Sys, k: byte)
    requires PatienceInv(cfg, s) && k in s.gate.inflight && k in s.payloads
    ensures AgesFrom(s.log, s.payloads[k])
  {
    assert EntryIs(cfg, s, k);
  }

  lemma PatienceRetrying(cfg: Config, env: Env, s: Sys, sn: byte)
    requires TableInv(cfg, s) && DataInv(cfg, s) && PatienceInv(cfg, s) && sn in s.payloads
    requires RetryDue(cfg, s.gate, s.now, sn)
    ensures PatienceInv(cfg, Retry(cfg, env, s, sn))
  {
    hide SendFromA, RecordSend, DataInv, TableInv, PatienceInv, Attempt, Expired;
    var t := Retry(cfg, env, s, sn);
    var e := t.log[|s.log|];
    SentInPast(cfg, s);
    ExpiredWaited(cfg, s, sn, e);
    assert t.log == s.log + [e];
    HeldAges(cfg, s, sn);
    PatienceTransmitting(cfg, s, t, sn, s.payloads[sn], e);
  }

  lemma PatienceFailing(cfg: Config, s: Sys, sn: byte)
    requires TableInv(cfg, s) && DataInv(cfg, s) && PatienceInv(cfg, s) && FailureDue(cfg, s.gate, s.now, sn)
    ensures PatienceInv(cfg, Fail(s, sn))
  {
    hide DataInv, TableInv, Without, Expired, AllWaited;
    var t := Fail(s, sn);
    var e := t.log[|s.log|];
    ExpiredWaited(cfg, s, sn, e);
    assert t.log == s.log + [e];
    forall k <- t.gate.inflight ensures k in t.payloads && EntryIs(cfg, t, k) {
      assert EntryIs(cfg, s, k);
    }
  }

  lemma PatienceReceiving(cfg: Config, s: Sys)
    requires TableInv(cfg, s) && PatienceInv(cfg, s) && Deliverable(s.link.toA, s.now)
    ensures PatienceInv(cfg, HandleFrame(cfg, s))
  {
    hide ParseReply, Without, EntryInv;
    InTable(cfg, s);
    hide PatienceInv;
    PatienceQuiet(cfg, s, HandleFrame(cfg, s));
  }

  lemma InTable(cfg: Config, s: Sys)
    requires TableInv(cfg, s)
    ensures s.payloads.Keys == s.gate.inflight.Keys
  {
  }

  lemma PatienceSampling(cfg: Config, env: Env, s: Sys)
    requires cfg.window.Valid() && s.payloads.Keys == s.gate.inflight.Keys && PatienceInv(cfg, s)
    ensures PatienceInv(cfg, QueueWindow(cfg, env, s))
  {
    hide PatienceInv, Feed;
    PatienceQuiet(cfg, s, QueueWindow(cfg, env, s));
  }

  lemma PatienceRelaying(cfg: Config, env: Env, s: Sys)
    requires s.payloads.Keys == s.gate.inflight.Keys && PatienceInv(cfg, s) && Deliverable(s.link.toB, s.now)
    ensures PatienceInv(cfg, Relay(cfg, env, s))
  {
    hide PatienceInv, ParseData, SendFromB;
    PatienceQuiet(cfg, s, Relay(cfg, env, s));
  }

  lemma PatienceStep(cfg: Config, env: Env, s: Sys, step: Step)
    requires cfg.window.Valid() && TableInv(cfg, s) && DataInv(cfg, s) && PatienceInv(cfg, s) && Enabled(cfg, s, step)
    ensures PatienceInv(cfg, Apply(cfg, env, s, step))
  {
    InTable(cfg, s);
    hide TableInv, DataInv, PatienceInv, HandleFrame, SendNext, Retry, Fail, Relay, QueueWindow, CanSend;
    hide RetryDue, FailureDue;
    match step {
      case Sampling => PatienceSampling(cfg, env, s);
      case Receiving => PatienceReceiving(cfg, s);
      case Retrying(sn) => PatienceRetrying(cfg, env, s, sn);
      case Failing(sn) => PatienceFailing(cfg, s, sn);
      case Sending => PatienceSending(cfg, env, s);
      case Relaying => PatienceRelaying(cfg, env, s);
      case Ticking(ms) => PatienceQuiet(cfg, s, Tick(s, ms));
    }
  }

  lemma {:induction false} PatienceAlong(cfg: Config, env: Env, s: Sys, steps: seq<Step>, t: Sys)
    requires cfg.Valid() && Reachable(cfg, env, s) && PatienceInv(cfg, s) && Leads(cfg, env, s, steps, t)
    ensures PatienceInv(cfg, t)
    decreases |steps|
  {
    hide Reachable, Apply, Enabled, PatienceInv, TableInv, DataInv, SampleInv, FromSampler, OrderInv;
    if steps != [] {
      StateParts(cfg, env, s);
      PatienceStep(cfg, env, s, steps[0]);
      StepReachable(cfg, env, s, steps[0]);
      PatienceAlong(cfg, env, Apply(cfg, env, s, steps[0]), steps[1..], t);
    }
  }

  lemma PatienceInvariant(cfg: Config, env: Env, s: Sys)
    requires cfg.Valid() && Reachable(cfg, env, s)
    ensures PatienceInv(cfg, s)
  {
    hide Leads;
    var start: nat, steps :| Leads(cfg, env, Init(start), steps, s);
    InitReachable(cfg, env, start);
    PatienceAlong(cfg, env, Init(start), steps, s);
  }

  /** In every run: the ages that two transmissions of one window report differ by the time between them. */
  lemma AgesAgree(cfg: Config, env: Env, s: Sys, i: nat, j: nat)
    requires cfg.Valid() && Reachable(cfg, env, s) && i < j < |s.log| && s.log[i].TxSent? && s.log[j].TxSent?
    requires s.log[i].id == s.log[j].id
    ensures s.log[j].ageMs - s.log[i].ageMs == s.log[j].ts - s.log[i].ts
  {
    hide Reachable;
    PatienceInvariant(cfg, env, s);
    assert WaitedFor(s.log[i], s.log[j]);
  }

  /** In every run: whenever a window is resent or reported failed, the timeout of its frame has passed since each of
      its earlier transmissions. */
  lemma WaitsForAnswers(cfg: Config, env: Env, s: Sys, i: nat, j: nat)
    requires cfg.Valid() && Reachable(cfg, env, s) && i < j < |s.log| && s.log[i].TxSent?
    requires || (s.log[j].TxSent? && s.log[j].id == s.log[i].id)
             || (s.log[j].TxFailed? && s.log[j].window == Some(s.log[i].id))
    ensures s.log[j].ts >= s.log[i].ts + cfg.ackTimeoutMs(2 + |s.log[i].payload|)
    ensures 2 + |s.log[i].payload| <= 255
  {
    hide Reachable, TableInv, SampleInv, FateInv, CountInv, ArqLink.OriginInv, ArqLink.FrameInv;
    PatienceInvariant(cfg, env, s);
    CoreInvariant(cfg, env, s);
    assert WaitedFor(s.log[i], s.log[j]) && SentInv(cfg, s, s.log[i]);
  }
}
