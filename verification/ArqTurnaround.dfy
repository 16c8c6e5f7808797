/** How soon a transmission can follow the one before it, whatever the link does and however the receiver is
    scheduled. */
module ArqTurnaround {
  import opened Basics
  import opened ArqModel
  import opened ArqRuns
  import opened ArqInvariants
  import opened ArqLink
  import opened ArqCore
  import opened ArqPacing
  import ArqAckSound
  import ArqStuck
  import Windows

  /** When the entry of transmission x can have left a table of one: once its own answer can be back, or
      without retries once it has expired, or, from window 256 on, as soon as an answer to an earlier window
      with the same SEQ arrives, which takes at least a millisecond. `sent` counts the next window. */
  predicate CanBeGone(cfg: Config, sent: nat, x: Event, now: int)
    requires x.TxSent?
  {
    || now >= x.ts + 2 * cfg.latencyMs
    || (cfg.maxRetries == 0 && (now >= x.ts + x.ackTimeoutMs || (sent >= 258 && now > x.ts)))
  }

  /** When transmission y can follow x, with `sent` windows sent: another window if there is room for it or x is
      gone; the same window if x has expired. */
  predicate CanFollow(cfg: Config, sent: nat, x: Event, y: Event)
    requires x.TxSent? && y.TxSent?
  {
    || (sent >= 2 && (cfg.maxInflight >= 2 || CanBeGone(cfg, sent, x, y.ts)))
    || (cfg.maxInflight >= 2 && cfg.maxRetries >= 1 && y.ts >= x.ts + x.ackTimeoutMs)
  }

  // ---------------------------------------------------------------------
  // A table of one: what is on its way
  // ---------------------------------------------------------------------

  /** The last window sent went out once, at this time; only it can be in flight; and answers take time. */
  ghost predicate FlightInv(cfg: Config, s: Sys, start: int) {
    && (forall k <- s.payloads :: s.payloads[k].id == s.sent - 1)
    && (forall i :: 0 <= i < |s.log| && s.log[i].TxSent? && s.log[i].id == s.sent - 1 ==> s.log[i].ts == start)
    && (cfg.maxRetries >= 1 ==>
          && (forall d <- s.link.toB :: d.at >= start + cfg.latencyMs)
          && (forall d <- s.link.toA :: d.at >= start + 2 * cfg.latencyMs))
    && (cfg.latencyMs >= 1 && s.now == start ==> !Deliverable(s.link.toA, s.now))
  }

  ghost predicate OnItsWay(cfg: Config, s: Sys) {
    s.gate.lastTxMs.Some? ==> FlightInv(cfg, s, s.gate.lastTxMs.value)
  }

  lemma FlightSending(cfg: Config, env: Env, s: Sys)
    requires cfg.maxInflight == 1 && TableInv(cfg, s) && DataInv(cfg, s) && Enabled(cfg, s, Sending)
    requires cfg.maxRetries >= 1 ==> ArqAckSound.OneFrame(s)
    ensures OnItsWay(cfg, SendNext(cfg, env, s))
  {
    hide PaceDeadline, EntryInv, Attempt, DataFrame, Encodes, HeldInv, RecordSend, FailureDue;
    hide ArqAckSound.Heard, Insert, SeqOf;
    var t := SendNext(cfg, env, s);
    EmptyTable(cfg, s);
    assert s.pending[0].id == s.sent;
    InsertHolds(s.link.toB, Delivery(s.now + cfg.latencyMs, DataFrame(s.seqNo, s.pending[0].payload)));
    var n := 2 + |s.pending[0].payload|;
    assert t.gate.lastTxMs == Some(s.now) by {
      Recorded(s.gate, s.now, s.seqNo, cfg.toaMs(n), cfg.ackTimeoutMs(n));
    }
  }

  lemma Recorded(g: Gate, now: int, sn: byte, toaMs: real, ackTimeoutMs: int)
    ensures var h := RecordSend(g, now, sn, toaMs, ackTimeoutMs);
            h.lastTxMs == Some(now) && sn in h.inflight && h.inflight.Keys == g.inflight.Keys + {sn}
            && h.inflight[sn].lastTxMs == now && h.inflight[sn].ackTimeoutMs == ackTimeoutMs
  {
  }

  lemma EmptyTable(cfg: Config, s: Sys)
    requires cfg.maxInflight == 1 && TableInv(cfg, s) && CanSend(cfg, s.gate, s.now)
    ensures s.gate.inflight == map[] && s.payloads == map[]
  {
    assert |s.payloads| == |s.payloads.Keys| == |s.gate.inflight.Keys| == |s.gate.inflight|;
  }

  lemma FlightRelaying(cfg: Config, env: Env, s: Sys)
    requires OnItsWay(cfg, s) && Deliverable(s.link.toB, s.now)
    ensures OnItsWay(cfg, Relay(cfg, env, s))
  {
    hide ParseData, AckFrame;
    match ParseData(cfg, s.link.toB[0].frame) {
      case DataFor(sn, payload) =>
        var d := Delivery(s.now + cfg.latencyMs, AckFrame(s.ackSeq, sn));
        InsertHolds(s.link.toA, d);
        FirstOf(s.link.toA, d);
      case Malformed =>
    }
  }

  lemma FirstOf(q: seq<Delivery>, d: Delivery)
    ensures Insert(q, d) != [] && (Insert(q, d)[0] == d || (q != [] && Insert(q, d)[0] == q[0]))
  {
  }

  lemma FlightReceiving(cfg: Config, s: Sys)
    requires OnItsWay(cfg, s) && TableInv(cfg, s) && Deliverable(s.link.toA, s.now)
    ensures OnItsWay(cfg, HandleFrame(cfg, s))
  {
    hide ParseReply, Without, AckEvent;
    AckEventsSendNothing(cfg, s);
  }

  lemma AckEventsSendNothing(cfg: Config, s: Sys)
    requires Deliverable(s.link.toA, s.now)
    ensures var t := HandleFrame(cfg, s);
            && |s.log| <= |t.log| && t.log[..|s.log|] == s.log
            && forall i :: |s.log| <= i < |t.log| ==> !t.log[i].TxSent?
  {
    hide ParseReply, Without;
  }

  /** Nothing transmitted, nothing put on the link. */
  lemma FlightQuiet(cfg: Config, s: Sys, t: Sys)
    requires OnItsWay(cfg, s) && TableInv(cfg, s) && t.gate.lastTxMs == s.gate.lastTxMs && t.sent == s.sent
    requires t.link == s.link && t.now >= s.now
    requires forall k <- t.payloads :: k in s.payloads && t.payloads[k] == s.payloads[k]
    requires |s.log| <= |t.log| && t.log[..|s.log|] == s.log
    requires forall i :: |s.log| <= i < |t.log| ==> !t.log[i].TxSent?
    ensures OnItsWay(cfg, t)
  {
    hide EntryInv;
    forall i | 0 <= i < |t.log| && t.log[i].TxSent? && t.log[i].id == t.sent - 1
      ensures Some(t.log[i].ts) == t.gate.lastTxMs || t.gate.lastTxMs.None?
    {
      assert t.log[i] == t.log[..|s.log|][i] == s.log[i];
    }
  }

  lemma FlightFailing(cfg: Config, s: Sys, sn: byte)
    requires OnItsWay(cfg, s) && TableInv(cfg, s) && FailureDue(cfg, s.gate, s.now, sn)
    ensures OnItsWay(cfg, Fail(s, sn))
  {
    hide OnItsWay, Without, Expired;
    FlightQuiet(cfg, s, Fail(s, sn));
  }

  lemma FlightStep(cfg: Config, env: Env, s: Sys, step: Step)
    requires cfg.Valid() && cfg.maxInflight == 1 && TableInv(cfg, s) && DataInv(cfg, s)
    requires cfg.maxRetries >= 1 ==> ArqAckSound.OneFrame(s)
    requires OnItsWay(cfg, s) && Enabled(cfg, s, step)
    ensures OnItsWay(cfg, Apply(cfg, env, s, step))
  {
    hide DataInv, HandleFrame, SendNext, Relay, Transmit, Windows.Feed, CanSend, RetryDue, FailureDue, Without;
    hide ArqAckSound.OneFrame, OnItsWay, FlightInv, TableInv;
    match step {
      case Sending => FlightSending(cfg, env, s);
      case Relaying => FlightRelaying(cfg, env, s);
      case Receiving => FlightReceiving(cfg, s);
      case Retrying(sn) => ArqAckSound.DueIsKnown(cfg, s, sn);
      case Sampling => FlightQuiet(cfg, s, QueueWindow(cfg, env, s));
      case Failing(sn) => FlightFailing(cfg, s, sn);
      case Ticking(ms) => FlightQuiet(cfg, s, Tick(s, ms));
    }
  }

  lemma {:induction false} FlightAlong(cfg: Config, env: Env, s: Sys, steps: seq<Step>, t: Sys)
    requires cfg.Valid() && cfg.maxInflight == 1 && Reachable(cfg, env, s) && OnItsWay(cfg, s)
    requires Leads(cfg, env, s, steps, t)
    ensures OnItsWay(cfg, t)
    decreases |steps|
  {
    hide Reachable, Apply, Enabled, OnItsWay, TableInv, DataInv, SampleInv, FateInv, CountInv, OriginInv, FrameInv;
    hide ArqAckSound.OneFrame, ArqStuck.SingleInv, ArqAckSound.AcksSound;
    if steps != [] {
      CoreInvariant(cfg, env, s);
      if cfg.maxRetries >= 1 {
        ArqAckSound.OneSlotInvariant(cfg, env, s);
      }
      FlightStep(cfg, env, s, steps[0]);
      StepReachable(cfg, env, s, steps[0]);
      FlightAlong(cfg, env, Apply(cfg, env, s, steps[0]), steps[1..], t);
    }
  }

  lemma FlightInvariant(cfg: Config, env: Env, s: Sys)
    requires cfg.Valid() && cfg.maxInflight == 1 && Reachable(cfg, env, s)
    ensures OnItsWay(cfg, s)
  {
    hide Leads, FlightInv;
    var start: nat, steps :| Leads(cfg, env, Init(start), steps, s);
    InitReachable(cfg, env, start);
    FlightAlong(cfg, env, Init(start), steps, s);
  }

  // ---------------------------------------------------------------------
  // The next transmission
  // ---------------------------------------------------------------------

  /** Either table has one place, or there is one window. */
  predicate Lone(cfg: Config, s: Sys) {
    cfg.maxInflight == 1 || s.sent <= 1
  }

  /** The table holds nothing but the last transmission, or that one can be gone. */
  ghost predicate LastInv(cfg: Config, s: Sys, x: Event)
    requires x.TxSent?
  {
    && (forall k <- s.gate.inflight ::
          s.gate.inflight[k].lastTxMs == x.ts && s.gate.inflight[k].ackTimeoutMs == x.ackTimeoutMs)
    && (cfg.maxInflight == 1 && s.gate.inflight == map[] ==> CanBeGone(cfg, s.sent + 1, x, s.now))
  }

  predicate TurnAt(cfg: Config, sent: nat, xs: seq<Event>, k: nat)
    requires k + 1 < |xs|
  {
    xs[k].TxSent? && xs[k + 1].TxSent? && CanFollow(cfg, sent, xs[k], xs[k + 1])
  }

  ghost predicate InTurn(cfg: Config, sent: nat, xs: seq<Event>) {
    forall k: nat :: k + 1 < |xs| ==> TurnAt(cfg, sent, xs, k)
  }

  ghost predicate TurnInv(cfg: Config, s: Sys) {
    var xs := Sends(s.log);
    && InTurn(cfg, s.sent, xs)
    && (xs != [] ==>
          && s.sent >= 1 && xs[|xs| - 1].TxSent?
          && (Lone(cfg, s) ==> LastInv(cfg, s, xs[|xs| - 1])))
  }

  lemma InTurnSnoc(cfg: Config, sent: nat, more: nat, xs: seq<Event>, y: Event)
    requires InTurn(cfg, sent, xs) && sent <= more && y.TxSent?
    requires xs != [] ==> xs[|xs| - 1].TxSent? && CanFollow(cfg, more, xs[|xs| - 1], y)
    ensures InTurn(cfg, more, xs + [y])
  {
    var ys := xs + [y];
    forall k: nat | k + 1 < |ys| ensures TurnAt(cfg, more, ys, k) {
      if k + 1 < |xs| {
        assert TurnAt(cfg, sent, xs, k);
      }
    }
  }

  /** Another window follows if there is room for it. */
  lemma NextFollows(cfg: Config, s: Sys, y: Event)
    requires cfg.Valid() && TableInv(cfg, s) && TurnInv(cfg, s) && CanSend(cfg, s.gate, s.now)
    requires y.TxSent? && y.ts == s.now && Sends(s.log) != []
    ensures var x := Sends(s.log)[|Sends(s.log)| - 1]; x.TxSent? && CanFollow(cfg, s.sent + 1, x, y)
  {
    hide Sends, InTurn, PaceDeadline, EntryInv, CanBeGone;
    if cfg.maxInflight == 1 {
      EmptyTable(cfg, s);
    }
  }

  lemma OnlyNew(cfg: Config, s: Sys, t: Sys, sn: byte, y: Event)
    requires s.gate.inflight == map[] && y.TxSent? && y.ts == s.now
    requires t.gate == RecordSend(s.gate, s.now, sn, y.toaMs, y.ackTimeoutMs)
    ensures LastInv(cfg, t, y)
  {
  }

  lemma EmptyBefore(cfg: Config, s: Sys)
    requires cfg.Valid() && TableInv(cfg, s) && PaceInv(cfg, s) && TurnInv(cfg, s) && CanSend(cfg, s.gate, s.now)
    requires cfg.maxInflight == 1 || s.sent == 0
    ensures s.gate.inflight == map[]
  {
    hide Sends, InTurn, PaceDeadline, EntryInv, CanBeGone, Paced, LastInv;
    if cfg.maxInflight == 1 {
      EmptyTable(cfg, s);
    }
  }

  /** A first transmission. */
  lemma TurnSending(cfg: Config, env: Env, s: Sys)
    requires cfg.Valid() && TableInv(cfg, s) && DataInv(cfg, s) && PaceInv(cfg, s) && TurnInv(cfg, s)
    requires s.pending != [] && CanSend(cfg, s.gate, s.now)
    ensures TurnInv(cfg, SendNext(cfg, env, s))
  {
    hide Sends, RecordSend, SendFromA, DataFrame, DataInv, TableInv, PaceInv, InTurn, CanSend, LastInv, CanFollow;
    var t, xs := SendNext(cfg, env, s), Sends(s.log);
    var y := t.log[|s.log|];
    SendsSnoc(s.log, y);
    if xs != [] {
      NextFollows(cfg, s, y);
    }
    InTurnSnoc(cfg, s.sent, t.sent, xs, y);
    if Lone(cfg, t) {
      EmptyBefore(cfg, s);
      OnlyNew(cfg, s, t, s.seqNo, y);
    }
  }

  /** A repetition. */
  lemma TurnRetrying(cfg: Config, env: Env, s: Sys, sn: byte)
    requires cfg.Valid() && TableInv(cfg, s) && DataInv(cfg, s) && PaceInv(cfg, s) && TurnInv(cfg, s)
    requires RetryDue(cfg, s.gate, s.now, sn) && sn in s.payloads && CanSend(cfg, s.gate, s.now)
    ensures TurnInv(cfg, Retry(cfg, env, s, sn))
  {
    hide Sends, RecordSend, SendFromA, DataFrame, DataInv, PaceDeadline, Paced, InTurn, CanBeGone;
    var n := 2 + |s.payloads[sn].payload|;
    var t, xs := Retry(cfg, env, s, sn), Sends(s.log);
    var y := t.log[|s.log|];
    SendsSnoc(s.log, y);
    Recorded(s.gate, s.now, sn, cfg.toaMs(n), cfg.ackTimeoutMs(n));
    if cfg.maxInflight == 1 {
      ArqAckSound.DueIsKnown(cfg, s, sn);
    }
    assert EntryInv(s.gate.inflight[sn], sn, s.now);
    InTurnSnoc(cfg, s.sent, t.sent, xs, y);
    if Lone(cfg, t) {
      OnlyFirst(cfg, s, sn);
    }
  }

  /** With one window sent, its SEQ is the only key. */
  lemma OnlyFirst(cfg: Config, s: Sys, sn: byte)
    requires DataInv(cfg, s) && s.sent <= 1 && s.payloads.Keys == s.gate.inflight.Keys && sn in s.payloads
    ensures s.gate.inflight.Keys == {sn}
  {
    hide SentInv, Encodes;
    forall k <- s.gate.inflight ensures k == 0 {
      assert HeldInv(cfg, s, k, s.payloads[k]);
    }
    assert HeldInv(cfg, s, sn, s.payloads[sn]);
  }

  /** Nothing transmitted and nothing removed. */
  lemma TurnQuiet(cfg: Config, s: Sys, t: Sys)
    requires TurnInv(cfg, s) && Sends(t.log) == Sends(s.log) && t.sent == s.sent && t.now >= s.now
    requires t.gate.inflight == s.gate.inflight
    ensures TurnInv(cfg, t)
  {
    hide Sends, InTurn;
  }

  /** An entry leaves the table. */
  lemma TurnRemoving(cfg: Config, s: Sys, t: Sys, sn: byte)
    requires TurnInv(cfg, s) && Sends(t.log) == Sends(s.log) && t.sent == s.sent && t.now == s.now
    requires t.gate.inflight == s.gate.inflight - {sn}
    requires cfg.maxInflight == 1 && Sends(s.log) != [] ==>
               CanBeGone(cfg, s.sent + 1, Sends(s.log)[|Sends(s.log)| - 1], s.now)
    ensures TurnInv(cfg, t)
  {
    hide Sends, InTurn, CanBeGone;
  }

  // ---------------------------------------------------------------------
  // How the last transmission can be gone
  // ---------------------------------------------------------------------

  lemma SameWindow(cfg: Config, s: Sys, i: nat, sn: byte)
    requires DataInv(cfg, s) && i < |s.log| && s.log[i].TxSent? && s.log[i].sn == sn && sn in s.payloads
    requires s.sent <= 256
    ensures s.log[i].id == s.payloads[sn].id
  {
    hide Encodes;
    assert SentInv(cfg, s, s.log[i]) && HeldInv(cfg, s, sn, s.payloads[sn]);
  }

  /** While at most 256 windows have been sent, an answer names the window it answers. */
  lemma OwnAnswer(cfg: Config, s: Sys, sn: byte)
    requires cfg.Valid() && DataInv(cfg, s) && OriginInv(cfg, s) && Deliverable(s.link.toA, s.now)
    requires s.gate.lastTxMs.Some? && FlightInv(cfg, s, s.gate.lastTxMs.value)
    requires ParseReply(cfg, s.link.toA[0].frame) == AckFor(sn) && sn in s.payloads && s.sent <= 256
    ensures s.now >= s.gate.lastTxMs.value + 2 * cfg.latencyMs
  {
    hide ParseReply, Encodes, DataInv;
    var d := s.link.toA[0];
    assert AckOrigin(cfg, s.log, d);
    var j :| 0 <= j < |s.log| && IsEchoOf(cfg, s.log[j], d);
    AckFrameParses(cfg, s.log[j], d);
    var i :| 0 <= i < j && Arrives(cfg, s.log[i], s.log[j]);
    SameWindow(cfg, s, i, sn);
  }

  /** An answer that is taken has had the time to come back, or is a late one to an earlier window. */
  lemma Answered(cfg: Config, s: Sys, sn: byte, x: Event)
    requires cfg.Valid() && TableInv(cfg, s) && DataInv(cfg, s) && OriginInv(cfg, s) && OnItsWay(cfg, s)
    requires Deliverable(s.link.toA, s.now) && ParseReply(cfg, s.link.toA[0].frame) == AckFor(sn)
    requires sn in s.payloads && x.TxSent? && s.gate.lastTxMs == Some(x.ts)
    ensures CanBeGone(cfg, s.sent + 1, x, s.now)
  {
    hide ParseReply, DataInv, OriginInv;
    assert s.link.toA[0] in s.link.toA;
    if s.sent <= 256 {
      OwnAnswer(cfg, s, sn);
    }
  }

  lemma GivenUp(cfg: Config, s: Sys, sn: byte, x: Event)
    requires cfg.maxInflight == 1 && ArqStuck.SingleInv(s) && FailureDue(cfg, s.gate, s.now, sn)
    requires x.TxSent? && LastInv(cfg, s, x)
    ensures CanBeGone(cfg, s.sent + 1, x, s.now)
  {
  }

  lemma TurnReceiving(cfg: Config, s: Sys)
    requires cfg.Valid() && TableInv(cfg, s) && DataInv(cfg, s) && OriginInv(cfg, s) && PaceInv(cfg, s)
    requires cfg.maxInflight == 1 ==> OnItsWay(cfg, s)
    requires TurnInv(cfg, s) && Deliverable(s.link.toA, s.now)
    ensures TurnInv(cfg, HandleFrame(cfg, s))
  {
    hide ParseReply, Sends, AckEvent, Without, DataInv, OriginInv, OnItsWay, Paced, EntryInv, CanBeGone, InTurn;
    hide TurnInv;
    var xs := Sends(s.log);
    match ParseReply(cfg, s.link.toA[0].frame) {
      case AckFor(sn) =>
        if sn in s.gate.inflight {
          AckEventIsAck(PopA(s), sn);
          SendsSnoc(s.log, AckEvent(PopA(s), sn));
          if cfg.maxInflight == 1 && xs != [] {
            LastSend(cfg, s);
            Answered(cfg, s, sn, xs[|xs| - 1]);
          }
          TurnRemoving(cfg, s, HandleFrame(cfg, s), sn);
        } else {
          TurnQuiet(cfg, s, HandleFrame(cfg, s));
        }
      case BadFrame =>
        SendsSnoc(s.log, TxParseFail(s.now));
        TurnQuiet(cfg, s, HandleFrame(cfg, s));
      case OtherFrame => TurnQuiet(cfg, s, HandleFrame(cfg, s));
    }
  }

  lemma LastSend(cfg: Config, s: Sys)
    requires PaceInv(cfg, s) && TurnInv(cfg, s) && Sends(s.log) != []
    ensures var x := Sends(s.log)[|Sends(s.log)| - 1];
            && x.TxSent? && s.gate.lastTxMs == Some(x.ts) && (cfg.maxInflight == 1 ==> LastInv(cfg, s, x))
  {
    hide Sends, Paced, InTurn, LastInv;
  }

  lemma TurnFailing(cfg: Config, s: Sys, sn: byte)
    requires PaceInv(cfg, s) && TurnInv(cfg, s) && FailureDue(cfg, s.gate, s.now, sn)
    requires cfg.maxInflight == 1 ==> ArqStuck.SingleInv(s)
    ensures TurnInv(cfg, Fail(s, sn))
  {
    hide Sends, Without, Paced, PaceInv, CanBeGone, InTurn, TurnInv, LastInv, FailureDue, ArqStuck.SingleInv;
    var xs := Sends(s.log);
    assert sn in s.gate.inflight by { IsThere(cfg, s, sn); }
    SendsSnoc(s.log, Fail(s, sn).log[|s.log|]);
    if cfg.maxInflight == 1 && xs != [] {
      LastSend(cfg, s);
      GivenUp(cfg, s, sn, xs[|xs| - 1]);
    }
    TurnRemoving(cfg, s, Fail(s, sn), sn);
  }

  lemma IsThere(cfg: Config, s: Sys, sn: byte)
    requires FailureDue(cfg, s.gate, s.now, sn)
    ensures sn in s.gate.inflight
  {
  }

  lemma TurnRelaying(cfg: Config, env: Env, s: Sys)
    requires TurnInv(cfg, s) && Deliverable(s.link.toB, s.now)
    ensures TurnInv(cfg, Relay(cfg, env, s))
  {
    hide Sends, ParseData, SendFromB, TurnInv;
    match ParseData(cfg, s.link.toB[0].frame) {
      case DataFor(sn, payload) => SendsSnoc2(s.log, RxOk(s.now, sn, payload), AckSent(s.now, sn));
      case Malformed => SendsSnoc(s.log, RxParseFail(s.now));
    }
    TurnQuiet(cfg, s, Relay(cfg, env, s));
  }

  lemma TurnStep(cfg: Config, env: Env, s: Sys, step: Step)
    requires cfg.Valid() && TableInv(cfg, s) && DataInv(cfg, s) && OriginInv(cfg, s) && PaceInv(cfg, s)
    requires cfg.maxInflight == 1 ==> OnItsWay(cfg, s) && ArqStuck.SingleInv(s)
    requires TurnInv(cfg, s) && Enabled(cfg, s, step)
    ensures TurnInv(cfg, Apply(cfg, env, s, step))
  {
    hide TableInv, DataInv, OriginInv, PaceInv, OnItsWay, ArqStuck.SingleInv, TurnInv, Sends;
    hide HandleFrame, SendNext, Retry, Fail, Relay, Windows.Feed, CanSend, RetryDue, FailureDue;
    match step {
      case Sampling => TurnQuiet(cfg, s, QueueWindow(cfg, env, s));
      case Receiving => TurnReceiving(cfg, s);
      case Retrying(sn) => TurnRetrying(cfg, env, s, sn);
      case Failing(sn) => TurnFailing(cfg, s, sn);
      case Sending => TurnSending(cfg, env, s);
      case Relaying => TurnRelaying(cfg, env, s);
      case Ticking(ms) => TurnQuiet(cfg, s, Tick(s, ms));
    }
  }

  lemma {:induction false} TurnAlong(cfg: Config, env: Env, s: Sys, steps: seq<Step>, t: Sys)
    requires cfg.Valid() && Reachable(cfg, env, s) && TurnInv(cfg, s) && Leads(cfg, env, s, steps, t)
    ensures TurnInv(cfg, t)
    decreases |steps|
  {
    hide Reachable, Apply, Enabled, OnItsWay, TableInv, DataInv, SampleInv, FateInv, CountInv, OriginInv, FrameInv;
    hide PaceInv, TurnInv, ArqStuck.SingleInv;
    if steps != [] {
      CoreInvariant(cfg, env, s);
      PaceInvariant(cfg, env, s);
      if cfg.maxInflight == 1 {
        FlightInvariant(cfg, env, s);
        ArqStuck.SingleInvariant(cfg, env, s);
      }
      TurnStep(cfg, env, s, steps[0]);
      StepReachable(cfg, env, s, steps[0]);
      TurnAlong(cfg, env, Apply(cfg, env, s, steps[0]), steps[1..], t);
    }
  }

  /** In every reachable state, each transmission followed the one before it no sooner than it can. */
  lemma Turnaround(cfg: Config, env: Env, s: Sys, k: nat)
    requires cfg.Valid() && Reachable(cfg, env, s) && k + 1 < |Sends(s.log)|
    ensures var x, y := Sends(s.log)[k], Sends(s.log)[k + 1];
            x.TxSent? && y.TxSent? && CanFollow(cfg, s.sent, x, y)
  {
    hide Leads, Sends, CanFollow;
    var start: nat, steps :| Leads(cfg, env, Init(start), steps, s);
    InitReachable(cfg, env, start);
    NoSends();
    TurnAlong(cfg, env, Init(start), steps, s);
    assert TurnAt(cfg, s.sent, Sends(s.log), k);
  }

  lemma NoSends()
    ensures Sends([]) == []
  {
  }
}
