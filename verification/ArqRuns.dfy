/** The program's loops only ever take elementary steps, so whatever holds in every reachable state
    holds at every point of `process_once`, `run` and `run_pair`. */
module ArqRuns {
  import opened Basics
  import opened ArqModel
  import PacketCodec
  import Windows

  lemma InitReachable(cfg: Config, env: Env, start: nat)
    requires cfg.window.Valid()
    ensures Reachable(cfg, env, Init(start))
  {
    assert Leads(cfg, env, Init(start), [], Init(start));
  }

  lemma {:induction false} LeadsThen(cfg: Config, env: Env, s: Sys, steps: seq<Step>, t: Sys, last: Step)
    requires cfg.window.Valid() && Leads(cfg, env, s, steps, t) && Enabled(cfg, t, last)
    ensures Leads(cfg, env, s, steps + [last], Apply(cfg, env, t, last))
    decreases |steps|
  {
    if steps == [] {
      assert Leads(cfg, env, Apply(cfg, env, t, last), [], Apply(cfg, env, t, last));
      assert (steps + [last])[1..] == [];
    } else {
      LeadsThen(cfg, env, Apply(cfg, env, s, steps[0]), steps[1..], t, last);
      assert (steps + [last])[1..] == steps[1..] + [last];
    }
  }

  lemma StepReachable(cfg: Config, env: Env, s: Sys, step: Step)
    requires cfg.window.Valid() && Reachable(cfg, env, s) && Enabled(cfg, s, step)
    ensures Reachable(cfg, env, Apply(cfg, env, s, step))
  {
    var start: nat, steps :| Leads(cfg, env, Init(start), steps, s);
    LeadsThen(cfg, env, Init(start), steps, s, step);
  }

  lemma {:induction false} HandleIncomingReachable(cfg: Config, env: Env, s: Sys)
    requires cfg.window.Valid() && Reachable(cfg, env, s)
    ensures Reachable(cfg, env, HandleIncoming(cfg, s))
    decreases |s.link.toA|
  {
    if Deliverable(s.link.toA, s.now) {
      StepReachable(cfg, env, s, Receiving);
      HandleIncomingReachable(cfg, env, HandleFrame(cfg, s));
    }
  }

  /** Distinct keys, each still due: what the snapshot of expired keys keeps during the loop. */
  ghost predicate AllDue(cfg: Config, s: Sys, sns: seq<byte>) {
    && (forall i :: 0 <= i < |sns| ==> RetryDue(cfg, s.gate, s.now, sns[i]))
    && Distinct(sns)
  }

  lemma {:induction false} RetryAllReachable(cfg: Config, env: Env, s: Sys, sns: seq<byte>)
    requires cfg.window.Valid() && Reachable(cfg, env, s) && AllDue(cfg, s, sns)
    ensures Reachable(cfg, env, RetryAll(cfg, env, s, sns))
    decreases |sns|
  {
    if sns != [] {
      var sn := sns[0];
      assert RetryDue(cfg, s.gate, s.now, sn);
      if sn in s.payloads && CanSend(cfg, s.gate, s.now) {
        StepReachable(cfg, env, s, Retrying(sn));
        var t := Retry(cfg, env, s, sn);
        forall i | 0 <= i < |sns[1..]| ensures RetryDue(cfg, t.gate, t.now, sns[1..][i]) {
          assert sns[1..][i] == sns[i + 1] != sn;
        }
        RetryAllReachable(cfg, env, t, sns[1..]);
      } else {
        RetryAllReachable(cfg, env, s, sns[1..]);
      }
    }
  }

  lemma {:induction false} FailAllReachable(cfg: Config, env: Env, s: Sys, sns: seq<byte>)
    requires cfg.window.Valid() && Reachable(cfg, env, s)
    requires forall i :: 0 <= i < |sns| ==> FailureDue(cfg, s.gate, s.now, sns[i])
    requires Distinct(sns)
    ensures Reachable(cfg, env, FailAll(s, sns))
    decreases |sns|
  {
    if sns != [] {
      var sn := sns[0];
      assert FailureDue(cfg, s.gate, s.now, sn);
      StepReachable(cfg, env, s, Failing(sn));
      var t := Fail(s, sn);
      forall i | 0 <= i < |sns[1..]| ensures FailureDue(cfg, t.gate, t.now, sns[1..][i]) {
        assert sns[1..][i] == sns[i + 1] != sn;
        assert FailureDue(cfg, s.gate, s.now, sns[i + 1]);
      }
      FailAllReachable(cfg, env, t, sns[1..]);
    }
  }

  // ---------------------------------------------------------------------
  // The table order lists every key once
  // ---------------------------------------------------------------------

  ghost predicate OrderInv(g: Gate) {
    && (forall sn :: sn in g.order <==> sn in g.inflight)
    && Distinct(g.order)
  }

  lemma DistinctCons(x: byte, rest: seq<byte>)
    requires Distinct(rest)
    ensures x !in rest ==> Distinct([x] + rest)
    ensures Distinct([] + rest)
  {
    assert [] + rest == rest;
  }

  lemma {:induction false} WithoutKeeps(order: seq<byte>, sn: byte)
    requires Distinct(order)
    ensures forall x :: x in Without(order, sn) <==> x in order && x != sn
    ensures Distinct(Without(order, sn))
    decreases |order|
  {
    if order != [] {
      WithoutKeeps(order[1..], sn);
      assert order == [order[0]] + order[1..];
      assert order[0] !in order[1..];
      DistinctCons(order[0], Without(order[1..], sn));
    }
  }

  lemma OrderTransmitted(g: Gate, now: int, sn: byte, toaMs: real, ackTimeoutMs: int)
    requires OrderInv(g)
    ensures OrderInv(RecordSend(g, now, sn, toaMs, ackTimeoutMs))
  {
  }

  lemma OrderInvStep(cfg: Config, env: Env, s: Sys, step: Step)
    requires cfg.window.Valid() && OrderInv(s.gate) && Enabled(cfg, s, step)
    ensures OrderInv(Apply(cfg, env, s, step).gate)
  {
    hide PacketCodec.FromBytes, Without, SendFromA, SendFromB, CanSend, RetryDue, Insert, RecordSend, HandleFrame;
    hide Distinct, Windows.Feed;
    match step {
      case Receiving => OrderInvReceiving(cfg, s);
      case Failing(sn) => WithoutKeeps(s.gate.order, sn);
      case Sending =>
        var n := 2 + |s.pending[0].payload|;
        OrderTransmitted(s.gate, s.now, s.seqNo, cfg.toaMs(n), cfg.ackTimeoutMs(n));
      case Retrying(sn) =>
        var n := 2 + |s.payloads[sn].payload|;
        OrderTransmitted(s.gate, s.now, sn, cfg.toaMs(n), cfg.ackTimeoutMs(n));
      case _ =>
    }
  }

  lemma OrderInvReceiving(cfg: Config, s: Sys)
    requires OrderInv(s.gate) && Deliverable(s.link.toA, s.now)
    ensures OrderInv(HandleFrame(cfg, s).gate)
  {
    hide PacketCodec.FromBytes, Without;
    match ParseReply(cfg, s.link.toA[0].frame) {
      case AckFor(sn) => WithoutKeeps(s.gate.order, sn);
      case _ =>
    }
  }

  lemma {:induction false} OrderInvAlong(cfg: Config, env: Env, s: Sys, steps: seq<Step>, t: Sys)
    requires cfg.window.Valid() && OrderInv(s.gate) && Leads(cfg, env, s, steps, t)
    ensures OrderInv(t.gate)
    decreases |steps|
  {
    if steps != [] {
      OrderInvStep(cfg, env, s, steps[0]);
      OrderInvAlong(cfg, env, Apply(cfg, env, s, steps[0]), steps[1..], t);
    }
  }

  lemma OrderInvariant(cfg: Config, env: Env, s: Sys)
    requires cfg.window.Valid() && Reachable(cfg, env, s)
    ensures OrderInv(s.gate)
  {
    var start: nat, steps :| Leads(cfg, env, Init(start), steps, s);
    OrderInvAlong(cfg, env, Init(start), steps, s);
  }

  lemma {:induction false} ExpiredSequencesDue(cfg: Config, g: Gate, now: int, order: seq<byte>)
    requires Distinct(order)
    ensures forall sn :: sn in ExpiredSequences(cfg, g, now, order) <==> sn in order && RetryDue(cfg, g, now, sn)
    ensures Distinct(ExpiredSequences(cfg, g, now, order))
    decreases |order|
  {
    if order != [] {
      ExpiredSequencesDue(cfg, g, now, order[1..]);
      assert order == [order[0]] + order[1..];
      assert order[0] !in order[1..];
      DistinctCons(order[0], ExpiredSequences(cfg, g, now, order[1..]));
    }
  }

  lemma {:induction false} ExpiredFailuresDue(cfg: Config, g: Gate, now: int, order: seq<byte>)
    requires Distinct(order)
    ensures forall sn :: sn in ExpiredFailures(cfg, g, now, order) <==> sn in order && FailureDue(cfg, g, now, sn)
    ensures Distinct(ExpiredFailures(cfg, g, now, order))
    decreases |order|
  {
    if order != [] {
      ExpiredFailuresDue(cfg, g, now, order[1..]);
      assert order == [order[0]] + order[1..];
      assert order[0] !in order[1..];
      DistinctCons(order[0], ExpiredFailures(cfg, g, now, order[1..]));
    }
  }

  // ---------------------------------------------------------------------
  // Purging
  // ---------------------------------------------------------------------

  /** No window that should be given up now is still in the table. */
  ghost predicate Purged(cfg: Config, s: Sys) {
    forall sn <- s.gate.inflight :: !FailureDue(cfg, s.gate, s.now, sn)
  }

  /** Giving up a list of distinct keys removes exactly those keys and touches no other entry. */
  lemma {:induction false} FailAllRemoves(s: Sys, sns: seq<byte>)
    requires forall i :: 0 <= i < |sns| ==> sns[i] in s.gate.inflight
    requires Distinct(sns)
    ensures var t := FailAll(s, sns);
            && t.now == s.now && t.pending == s.pending && t.seqNo == s.seqNo && t.link == s.link
            && t.sent == s.sent && t.lost == s.lost
            && t.gate.lastTxMs == s.gate.lastTxMs && t.gate.lastToaMs == s.gate.lastToaMs
            && (forall sn :: sn in t.gate.inflight <==> sn in s.gate.inflight && sn !in sns)
            && (forall sn <- t.gate.inflight :: t.gate.inflight[sn] == s.gate.inflight[sn])
    decreases |sns|
  {
    if sns != [] {
      assert sns == [sns[0]] + sns[1..];
      assert sns[0] !in sns[1..];
      FailAllRemoves(Fail(s, sns[0]), sns[1..]);
    }
  }

  lemma {:induction false} RetryAllKeepsInbox(cfg: Config, env: Env, s: Sys, sns: seq<byte>)
    ensures var t := RetryAll(cfg, env, s, sns); t.link.toA == s.link.toA && t.now == s.now
    decreases |sns|
  {
    hide CanSend, Attempt, RecordSend, DataFrame;
    if sns != [] {
      if sns[0] in s.payloads && CanSend(cfg, s.gate, s.now) {
        RetryAllKeepsInbox(cfg, env, Retry(cfg, env, s, sns[0]), sns[1..]);
      } else {
        RetryAllKeepsInbox(cfg, env, s, sns[1..]);
      }
    }
  }

  /** All frames due are read. */
  lemma {:induction false} InboxDrained(cfg: Config, s: Sys)
    ensures var t := HandleIncoming(cfg, s); !Deliverable(t.link.toA, t.now)
    decreases |s.link.toA|
  {
    if Deliverable(s.link.toA, s.now) {
      InboxDrained(cfg, HandleFrame(cfg, s));
    }
  }

  lemma RetryExpiredReachable(cfg: Config, env: Env, s: Sys)
    requires cfg.window.Valid() && Reachable(cfg, env, s)
    ensures Reachable(cfg, env, RetryExpired(cfg, env, s))
    ensures Purged(cfg, RetryExpired(cfg, env, s))
    ensures var t := RetryExpired(cfg, env, s); t.link.toA == s.link.toA && t.now == s.now
  {
    RetryAllKeepsInbox(cfg, env, s, ExpiredSequences(cfg, s.gate, s.now, s.gate.order));
    OrderInvariant(cfg, env, s);
    var due := ExpiredSequences(cfg, s.gate, s.now, s.gate.order);
    ExpiredSequencesDue(cfg, s.gate, s.now, s.gate.order);
    forall i | 0 <= i < |due| ensures RetryDue(cfg, s.gate, s.now, due[i]) {
      assert due[i] in due;
    }
    RetryAllReachable(cfg, env, s, due);
    var t := RetryAll(cfg, env, s, due);
    OrderInvariant(cfg, env, t);
    var dead := ExpiredFailures(cfg, t.gate, t.now, t.gate.order);
    ExpiredFailuresDue(cfg, t.gate, t.now, t.gate.order);
    forall i | 0 <= i < |dead| ensures FailureDue(cfg, t.gate, t.now, dead[i]) {
      assert dead[i] in dead;
    }
    FailAllReachable(cfg, env, t, dead);
    FailAllRemoves(t, dead);
  }

  /** One call of `TxNode.process_once` is a sequence of enabled steps. */
  lemma TxProcessOnceReachable(cfg: Config, env: Env, s: Sys)
    requires cfg.window.Valid() && Reachable(cfg, env, s)
    ensures Reachable(cfg, env, TxProcessOnce(cfg, env, s))
  {
    StepReachable(cfg, env, s, Sampling);
    var t := QueueWindow(cfg, env, s);
    HandleIncomingReachable(cfg, env, t);
    InboxDrained(cfg, t);
    RetryExpiredReachable(cfg, env, HandleIncoming(cfg, t));
    var u := RetryExpired(cfg, env, HandleIncoming(cfg, t));
    if u.pending != [] && CanSend(cfg, u.gate, u.now) {
      StepReachable(cfg, env, u, Sending);
    }
  }

  lemma RxProcessOnceReachable(cfg: Config, env: Env, s: Sys)
    requires cfg.window.Valid() && Reachable(cfg, env, s)
    ensures Reachable(cfg, env, RxProcessOnce(cfg, env, s))
  {
    if Deliverable(s.link.toB, s.now) {
      StepReachable(cfg, env, s, Relaying);
    }
  }

  /** Every state `run_pair` ends in, after any number of rounds, is reachable. */
  lemma {:induction false} RunPairReachable(cfg: Config, env: Env, s: Sys, stepMs: int, maxSteps: nat)
    requires cfg.window.Valid() && Reachable(cfg, env, s)
    ensures Reachable(cfg, env, RunPair(cfg, env, s, stepMs, maxSteps))
    decreases maxSteps
  {
    hide TxProcessOnce, RxProcessOnce, Reachable, IsDone;
    if maxSteps > 0 {
      TxProcessOnceReachable(cfg, env, s);
      RxProcessOnceReachable(cfg, env, TxProcessOnce(cfg, env, s));
      var t := RxProcessOnce(cfg, env, TxProcessOnce(cfg, env, s));
      if !IsDone(cfg, t) {
        StepReachable(cfg, env, t, Ticking(stepMs));
        RunPairReachable(cfg, env, Tick(t, stepMs), stepMs, maxSteps - 1);
      }
    }
  }

  lemma {:induction false} RxManyReachable(cfg: Config, env: Env, s: Sys, n: nat)
    requires cfg.window.Valid() && Reachable(cfg, env, s)
    ensures Reachable(cfg, env, RxMany(cfg, env, s, n))
    decreases n
  {
    if n > 0 {
      RxProcessOnceReachable(cfg, env, s);
      RxManyReachable(cfg, env, RxProcessOnce(cfg, env, s), n - 1);
    }
  }

  /** Likewise for the transmit loop beside any receiver schedule. */
  lemma {:induction false} LoopReachable(cfg: Config, env: Env, s: Sys, plan: nat -> Pause, j: nat, n: nat)
    requires cfg.window.Valid() && Reachable(cfg, env, s)
    ensures Reachable(cfg, env, Loop(cfg, env, s, plan, j, n))
    decreases n
  {
    hide TxProcessOnce, RxMany, Reachable, IsDone;
    if n > 0 {
      TxProcessOnceReachable(cfg, env, s);
      var t := RxMany(cfg, env, TxProcessOnce(cfg, env, s), plan(j).rxSteps);
      RxManyReachable(cfg, env, TxProcessOnce(cfg, env, s), plan(j).rxSteps);
      if !IsDone(cfg, t) {
        StepReachable(cfg, env, t, Ticking(plan(j).ms));
        LoopReachable(cfg, env, Tick(t, plan(j).ms), plan, j + 1, n - 1);
      }
    }
  }

  lemma {:induction false} RunPairIsLoop(
    cfg: Config, env: Env, s: Sys, stepMs: int, plan: nat -> Pause, j: nat, n: nat)
    requires cfg.window.Valid() && forall i :: plan(i) == Pause(1, stepMs)
    ensures RunPair(cfg, env, s, stepMs, n) == Loop(cfg, env, s, plan, j, n)
    decreases n
  {
    hide TxProcessOnce, RxProcessOnce, IsDone;
    if n > 0 {
      var t := RxProcessOnce(cfg, env, TxProcessOnce(cfg, env, s));
      assert RxMany(cfg, env, TxProcessOnce(cfg, env, s), 1) == t by {
        assert RxMany(cfg, env, t, 0) == t;
      }
      if !IsDone(cfg, t) {
        RunPairIsLoop(cfg, env, Tick(t, stepMs), stepMs, plan, j + 1, n - 1);
      }
    }
  }
}
