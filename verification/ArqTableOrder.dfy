/** The in-flight table is kept in the order of sending, and expired entries are treated in that order. */
module ArqTableOrder {
  import opened Basics
  import opened Windows
  import opened ArqModel
  import opened ArqRuns
  import opened ArqInvariants
  import opened ArqRoom

  // ---------------------------------------------------------------------
  // Pairs of keys
  // ---------------------------------------------------------------------

  /** Any key stands in this relation to any key behind it. */
  ghost predicate Ordered(order: seq<byte>, before: (byte, byte) -> bool) {
    forall i, j :: 0 <= i < j < |order| ==> before(order[i], order[j])
  }

  lemma OrderedTail(order: seq<byte>, before: (byte, byte) -> bool)
    requires order != [] && Ordered(order, before)
    ensures Ordered(order[1..], before) && forall k <- order[1..] :: before(order[0], k)
  {
  }

  lemma OrderedCons(k: byte, rest: seq<byte>, before: (byte, byte) -> bool)
    requires Ordered(rest, before) && forall l <- rest :: before(k, l)
    ensures Ordered([k] + rest, before)
  {
    var all := [k] + rest;
    forall i, j | 0 <= i < j < |all| ensures before(all[i], all[j]) {
      assert all[j] == rest[j - 1] && all[j] in rest;
      assert i > 0 ==> all[i] == rest[i - 1];
    }
  }

  lemma OrderedSnoc(order: seq<byte>, k: byte, before: (byte, byte) -> bool)
    requires Ordered(order, before) && forall l <- order :: before(l, k)
    ensures Ordered(order + [k], before)
  {
    var all := order + [k];
    forall i, j | 0 <= i < j < |all| ensures before(all[i], all[j]) {
      assert all[i] == order[i] && order[i] in order;
    }
  }

  lemma NoneOrdered(before: (byte, byte) -> bool)
    ensures Ordered([], before)
  {
  }

  lemma {:induction false} WithoutOrdered(order: seq<byte>, sn: byte, before: (byte, byte) -> bool)
    requires Ordered(order, before)
    ensures Ordered(Without(order, sn), before) && forall k <- Without(order, sn) :: k in order && k != sn
    decreases |order|
  {
    hide Ordered;
    if order == [] {
      NoneOrdered(before);
    } else {
      OrderedTail(order, before);
      WithoutOrdered(order[1..], sn, before);
      var rest := Without(order[1..], sn);
      assert order == [order[0]] + order[1..];
      OrderedCons(order[0], rest, before);
      assert [] + rest == rest;
    }
  }

  lemma {:induction false} FailuresOrdered(
    cfg: Config, g: Gate, now: int, order: seq<byte>, before: (byte, byte) -> bool)
    requires Ordered(order, before)
    ensures var dead := ExpiredFailures(cfg, g, now, order);
            Ordered(dead, before) && forall k <- dead :: k in order && FailureDue(cfg, g, now, k)
    decreases |order|
  {
    hide Ordered, FailureDue;
    if order == [] {
      NoneOrdered(before);
    } else {
      OrderedTail(order, before);
      FailuresOrdered(cfg, g, now, order[1..], before);
      var rest := ExpiredFailures(cfg, g, now, order[1..]);
      assert order == [order[0]] + order[1..];
      OrderedCons(order[0], rest, before);
      assert [] + rest == rest;
    }
  }

  lemma {:induction false} SequencesOrdered(
    cfg: Config, g: Gate, now: int, order: seq<byte>, before: (byte, byte) -> bool)
    requires Ordered(order, before)
    ensures var due := ExpiredSequences(cfg, g, now, order);
            Ordered(due, before) && forall k <- due :: k in order && RetryDue(cfg, g, now, k)
    decreases |order|
  {
    hide Ordered, RetryDue;
    if order == [] {
      NoneOrdered(before);
    } else {
      OrderedTail(order, before);
      SequencesOrdered(cfg, g, now, order[1..], before);
      var rest := ExpiredSequences(cfg, g, now, order[1..]);
      assert order == [order[0]] + order[1..];
      OrderedCons(order[0], rest, before);
      assert [] + rest == rest;
    }
  }

  // ---------------------------------------------------------------------
  // The order of the table
  // ---------------------------------------------------------------------

  /** k was first sent no later than l. */
  function Older(g: Gate): (byte, byte) -> bool {
    (k: byte, l: byte) =>
      k in g.inflight && l in g.inflight && g.inflight[k].firstTxMs <= g.inflight[l].firstTxMs
  }

  /** k holds an earlier window than l. */
  function Earlier(payloads: map<byte, PendingWindow>): (byte, byte) -> bool {
    (k: byte, l: byte) => k in payloads && l in payloads && payloads[k].id < payloads[l].id
  }

  /** The table is in the order of first transmissions, and while no SEQ has been reused in flight, in the order of
      the windows. */
  ghost predicate TableInOrder(s: Sys) {
    && Ordered(s.gate.order, Older(s.gate))
    && (s.lost == {} ==> Ordered(s.gate.order, Earlier(s.payloads)))
  }

  lemma OrderedWeaker(order: seq<byte>, p: (byte, byte) -> bool, q: (byte, byte) -> bool)
    requires Ordered(order, p)
    requires forall k, l :: k in order && l in order && p(k, l) ==> q(k, l)
    ensures Ordered(order, q)
  {
  }

  /** Keys whose first transmissions stay the same. */
  lemma OlderStays(order: seq<byte>, g: Gate, h: Gate)
    requires Ordered(order, Older(g))
    requires forall k <- order :: k in g.inflight ==>
               k in h.inflight && h.inflight[k].firstTxMs == g.inflight[k].firstTxMs
    ensures Ordered(order, Older(h))
  {
    hide Ordered;
    forall k, l | k in order && l in order && Older(g)(k, l) ensures Older(h)(k, l) {
    }
    OrderedWeaker(order, Older(g), Older(h));
  }

  lemma EarlierStays(order: seq<byte>, m: map<byte, PendingWindow>, n: map<byte, PendingWindow>)
    requires Ordered(order, Earlier(m)) && forall k <- order :: k in m ==> k in n && n[k] == m[k]
    ensures Ordered(order, Earlier(n))
  {
    hide Ordered;
    forall k, l | k in order && l in order && Earlier(m)(k, l) ensures Earlier(n)(k, l) {
    }
    OrderedWeaker(order, Earlier(m), Earlier(n));
  }

  lemma OlderSnoc(order: seq<byte>, g: Gate, sn: byte)
    requires Ordered(order, Older(g)) && sn in g.inflight
    requires forall k <- order :: k in g.inflight && g.inflight[k].firstTxMs <= g.inflight[sn].firstTxMs
    ensures Ordered(order + [sn], Older(g))
  {
    hide Ordered;
    forall k <- order ensures Older(g)(k, sn) {
    }
    OrderedSnoc(order, sn, Older(g));
  }

  lemma EarlierSnoc(order: seq<byte>, m: map<byte, PendingWindow>, sn: byte)
    requires Ordered(order, Earlier(m)) && sn in m
    requires forall k <- order :: k in m && m[k].id < m[sn].id
    ensures Ordered(order + [sn], Earlier(m))
  {
    hide Ordered;
    forall k <- order ensures Earlier(m)(k, sn) {
    }
    OrderedSnoc(order, sn, Earlier(m));
  }

  /** What a transmission does to the table. */
  lemma Recorded(g: Gate, now: int, sn: byte, toaMs: real, timeout: int)
    ensures var h := RecordSend(g, now, sn, toaMs, timeout);
            && h.order == (if sn in g.inflight then g.order else g.order + [sn])
            && (forall k <- g.inflight :: k in h.inflight && h.inflight[k].firstTxMs == g.inflight[k].firstTxMs)
            && sn in h.inflight && (sn !in g.inflight ==> h.inflight[sn].firstTxMs == now)
  {
  }

  lemma OrderSending(cfg: Config, env: Env, s: Sys)
    requires TableInv(cfg, s) && DataInv(cfg, s) && OrderInv(s.gate) && TableInOrder(s) && s.pending != []
    ensures TableInOrder(SendNext(cfg, env, s))
  {
    hide SendFromA, DataFrame, Ordered, DataInv, Attempt, Older, Earlier, RecordSend, Distinct;
    var t, sn, n := SendNext(cfg, env, s), s.seqNo, 2 + |s.pending[0].payload|;
    Recorded(s.gate, s.now, sn, cfg.toaMs(n), cfg.ackTimeoutMs(n));
    forall k <- s.gate.order ensures k in s.gate.inflight && s.gate.inflight[k].firstTxMs <= s.now {
      assert k in s.gate.inflight && EntryInv(s.gate.inflight[k], k, s.now);
    }
    OlderStays(s.gate.order, s.gate, t.gate);
    if sn !in s.gate.inflight {
      OlderSnoc(s.gate.order, t.gate, sn);
      if t.lost == {} {
        forall k <- s.gate.order ensures k in s.payloads && s.payloads[k].id < s.pending[0].id {
          SentBefore(cfg, s, k);
        }
        EarlierStays(s.gate.order, s.payloads, t.payloads);
        EarlierSnoc(s.gate.order, t.payloads, sn);
      }
    }
  }

  lemma SentBefore(cfg: Config, s: Sys, k: byte)
    requires DataInv(cfg, s) && k in s.payloads && s.pending != []
    ensures s.payloads[k].id < s.pending[0].id
  {
    hide Encodes, SentInv;
    assert HeldInv(cfg, s, k, s.payloads[k]);
  }

  lemma OrderRetrying(cfg: Config, env: Env, s: Sys, sn: byte)
    requires TableInOrder(s) && sn in s.payloads && sn in s.gate.inflight
    ensures TableInOrder(Retry(cfg, env, s, sn))
  {
    hide SendFromA, DataFrame, Ordered, Attempt, Older, Earlier, RecordSend;
    var n := 2 + |s.payloads[sn].payload|;
    Recorded(s.gate, s.now, sn, cfg.toaMs(n), cfg.ackTimeoutMs(n));
    OlderStays(s.gate.order, s.gate, Retry(cfg, env, s, sn).gate);
  }

  /** An entry leaves the table. */
  lemma OrderDropping(s: Sys, t: Sys, sn: byte)
    requires TableInOrder(s) && t.lost == s.lost && t.payloads == s.payloads - {sn}
    requires t.gate.inflight == s.gate.inflight - {sn} && t.gate.order == Without(s.gate.order, sn)
    ensures TableInOrder(t)
  {
    hide Ordered, Without, Older, Earlier;
    WithoutOrdered(s.gate.order, sn, Older(s.gate));
    OlderStays(t.gate.order, s.gate, t.gate);
    if s.lost == {} {
      WithoutOrdered(s.gate.order, sn, Earlier(s.payloads));
      EarlierStays(t.gate.order, s.payloads, t.payloads);
    }
  }

  lemma OrderReceiving(cfg: Config, s: Sys)
    requires TableInOrder(s) && Deliverable(s.link.toA, s.now)
    ensures TableInOrder(HandleFrame(cfg, s))
  {
    hide ParseReply, TableInOrder, AckEvent;
    match ParseReply(cfg, s.link.toA[0].frame) {
      case AckFor(sn) =>
        if sn in s.gate.inflight {
          OrderDropping(s, HandleFrame(cfg, s), sn);
        } else {
          OrderSame(s, HandleFrame(cfg, s));
        }
      case _ => OrderSame(s, HandleFrame(cfg, s));
    }
  }

  lemma OrderSame(s: Sys, t: Sys)
    requires TableInOrder(s) && t.gate == s.gate && t.payloads == s.payloads && t.lost == s.lost
    ensures TableInOrder(t)
  {
  }

  lemma TableOrderStep(cfg: Config, env: Env, s: Sys, step: Step)
    requires cfg.window.Valid() && TableInv(cfg, s) && DataInv(cfg, s) && OrderInv(s.gate)
    requires TableInOrder(s) && Enabled(cfg, s, step)
    ensures TableInOrder(Apply(cfg, env, s, step))
  {
    hide TableInv, DataInv, OrderInv, TableInOrder, HandleFrame, SendNext, Retry, Relay, Feed, CanSend, Without;
    match step {
      case Sampling => OrderSame(s, QueueWindow(cfg, env, s));
      case Receiving => OrderReceiving(cfg, s);
      case Retrying(sn) => OrderRetrying(cfg, env, s, sn);
      case Failing(sn) => OrderDropping(s, Fail(s, sn), sn);
      case Sending => OrderSending(cfg, env, s);
      case Relaying => OrderRelaying(cfg, env, s);
      case Ticking(ms) => OrderSame(s, Tick(s, ms));
    }
  }

  lemma OrderRelaying(cfg: Config, env: Env, s: Sys)
    requires TableInOrder(s) && Deliverable(s.link.toB, s.now)
    ensures TableInOrder(Relay(cfg, env, s))
  {
    hide ParseData, SendFromB, TableInOrder;
    OrderSame(s, Relay(cfg, env, s));
  }

  lemma {:induction false} TableOrderAlong(cfg: Config, env: Env, s: Sys, steps: seq<Step>, t: Sys)
    requires cfg.Valid() && Reachable(cfg, env, s) && TableInOrder(s) && Leads(cfg, env, s, steps, t)
    ensures TableInOrder(t)
    decreases |steps|
  {
    hide Reachable, Apply, Enabled, TableInOrder, TableInv, DataInv, OrderInv;
    if steps != [] {
      StateParts(cfg, env, s);
      TableOrderStep(cfg, env, s, steps[0]);
      StepReachable(cfg, env, s, steps[0]);
      TableOrderAlong(cfg, env, Apply(cfg, env, s, steps[0]), steps[1..], t);
    }
  }

  lemma TableOrderInvariant(cfg: Config, env: Env, s: Sys)
    requires cfg.Valid() && Reachable(cfg, env, s)
    ensures TableInOrder(s)
  {
    hide Leads;
    var start: nat, steps :| Leads(cfg, env, Init(start), steps, s);
    InitReachable(cfg, env, start);
    TableOrderAlong(cfg, env, Init(start), steps, s);
  }

  /** In every reachable state the table lists its entries in the order of their first transmissions, and while
      no SEQ has been reused in flight, in the order of their windows. */
  lemma OldestFirst(cfg: Config, env: Env, s: Sys, i: nat, j: nat)
    requires cfg.Valid() && Reachable(cfg, env, s) && i < j < |s.gate.order|
    ensures var k, l := s.gate.order[i], s.gate.order[j];
            && k in s.gate.inflight && l in s.gate.inflight && k in s.payloads && l in s.payloads
            && s.gate.inflight[k].firstTxMs <= s.gate.inflight[l].firstTxMs
            && (s.lost == {} ==> s.payloads[k].id < s.payloads[l].id)
  {
    hide Reachable, DataInv, OrderInv, Distinct, Ordered, Older, Earlier, TableInv;
    TableOrderInvariant(cfg, env, s);
    PayloadKeys(cfg, env, s);
    OlderAt(s.gate, i, j);
    if s.lost == {} {
      EarlierAt(s.gate.order, s.payloads, i, j);
    }
  }

  lemma OlderAt(g: Gate, i: nat, j: nat)
    requires Ordered(g.order, Older(g)) && i < j < |g.order|
    ensures g.order[i] in g.inflight && g.order[j] in g.inflight
    ensures g.inflight[g.order[i]].firstTxMs <= g.inflight[g.order[j]].firstTxMs
  {
    assert Older(g)(g.order[i], g.order[j]);
  }

  lemma EarlierAt(order: seq<byte>, m: map<byte, PendingWindow>, i: nat, j: nat)
    requires Ordered(order, Earlier(m)) && i < j < |order|
    ensures order[i] in m && order[j] in m && m[order[i]].id < m[order[j]].id
  {
    assert Earlier(m)(order[i], order[j]);
  }

  // ---------------------------------------------------------------------
  // What one call of process_once logs
  // ---------------------------------------------------------------------

  /** Incoming frames neither transmit nor give up. */
  lemma {:induction false} IncomingLog(cfg: Config, s: Sys) returns (acks: seq<Event>)
    ensures var t := HandleIncoming(cfg, s); t.log == s.log + acks && t.lost == s.lost
    ensures forall e <- acks :: !e.TxSent? && !e.TxFailed?
    decreases |s.link.toA|
  {
    hide ParseReply, Drop;
    acks := [];
    if Deliverable(s.link.toA, s.now) {
      var t := HandleFrame(cfg, s);
      var rest := IncomingLog(cfg, t);
      acks := t.log[|s.log|..] + rest;
      assert s.log + t.log[|s.log|..] == t.log;
    }
  }

  /** The i-th of these keys is resent. */
  predicate ResendOf(e: Event, k: byte, w: PendingWindow) {
    e.TxSent? && e.sn == k && e.id == w.id && e.attempt >= 2
  }

  /** These lines resend the windows held under the first of these SEQs, in order, and no more than one of them if the
      first keeps the channel for a millisecond. */
  ghost predicate Resends(cfg: Config, held: map<byte, PendingWindow>, resent: seq<Event>, due: seq<byte>) {
    && (forall k <- due :: k in held)
    && |resent| <= |due|
    && (forall i :: 0 <= i < |resent| ==> ResendOf(resent[i], due[i], held[due[i]]))
    && (resent != [] && cfg.Spacing(2 + |held[due[0]].payload|) >= 1 ==> |resent| == 1)
  }

  /** These lines report the windows held under these SEQs, in order. */
  ghost predicate Reports(held: map<byte, PendingWindow>, failed: seq<Event>, dead: seq<byte>) {
    && |failed| == |dead|
    && forall i :: 0 <= i < |failed| ==>
         failed[i].TxFailed? && dead[i] in held && failed[i].window == Some(held[dead[i]].id)
  }

  lemma NoResends(cfg: Config, held: map<byte, PendingWindow>, sns: seq<byte>)
    requires forall k <- sns :: k in held
    ensures Resends(cfg, held, [], sns)
  {
  }

  lemma ResendsCons(cfg: Config, held: map<byte, PendingWindow>, e: Event, rest: seq<Event>, sns: seq<byte>)
    requires sns != [] && sns[0] in held && ResendOf(e, sns[0], held[sns[0]])
    requires Resends(cfg, held, rest, sns[1..])
    requires cfg.Spacing(2 + |held[sns[0]].payload|) >= 1 ==> rest == []
    ensures Resends(cfg, held, [e] + rest, sns)
  {
    hide ResendOf, Config.Spacing;
    assert sns == [sns[0]] + sns[1..];
    var resent := [e] + rest;
    forall i | 0 <= i < |resent| ensures ResendOf(resent[i], sns[i], held[sns[i]]) {
      if i > 0 {
        assert resent[i] == rest[i - 1] && sns[i] == sns[1..][i - 1];
      }
    }
  }

  /** The retry loop resends the first few of the expired keys, and at most one if its frame keeps the channel for
      at least a millisecond. */
  lemma {:induction false} RetryLog(cfg: Config, env: Env, s: Sys, sns: seq<byte>) returns (resent: seq<Event>)
    requires forall i :: 0 <= i < |sns| ==>
               sns[i] in s.payloads && sns[i] in s.gate.inflight && s.gate.inflight[sns[i]].attempts >= 1
    ensures var t := RetryAll(cfg, env, s, sns);
            && t.log == s.log + resent && t.payloads == s.payloads && t.lost == s.lost
            && t.gate.order == s.gate.order && t.gate.inflight.Keys == s.gate.inflight.Keys && t.now == s.now
    ensures Resends(cfg, s.payloads, resent, sns)
    decreases |sns|
  {
    hide SendFromA, DataFrame, CanSend, Config.Spacing, Resends;
    resent := [];
    NoResends(cfg, s.payloads, sns);
    if sns != [] {
      if CanSend(cfg, s.gate, s.now) {
        var k, t := sns[0], Retry(cfg, env, s, sns[0]);
        var n := 2 + |s.payloads[k].payload|;
        assert t.gate.inflight.Keys == s.gate.inflight.Keys + {k} == s.gate.inflight.Keys;
        forall i | 0 <= i < |sns[1..]|
          ensures sns[1..][i] in t.gate.inflight && t.gate.inflight[sns[1..][i]].attempts >= 1
        {
          assert sns[1..][i] == sns[i + 1];
        }
        var rest := RetryLog(cfg, env, t, sns[1..]);
        if cfg.Spacing(n) >= 1 {
          ShutAfter(cfg, n, s.gate, s.now, k);
          RetryAllShut(cfg, env, t, sns[1..]);
          NothingMore(t.log, rest);
        }
        ResendsCons(cfg, s.payloads, t.log[|s.log|], rest, sns);
        resent := [t.log[|s.log|]] + rest;
      } else {
        RetryAllShut(cfg, env, s, sns);
      }
    }
  }

  lemma NothingMore(log: seq<Event>, rest: seq<Event>)
    requires log == log + rest
    ensures rest == []
  {
    assert |log| == |log| + |rest|;
  }

  /** All keys are given up, one after the other. */
  lemma {:induction false} FailLog(s: Sys, sns: seq<byte>) returns (failed: seq<Event>)
    requires s.payloads.Keys == s.gate.inflight.Keys && Distinct(sns)
    requires forall i :: 0 <= i < |sns| ==> sns[i] in s.gate.inflight
    ensures var t := FailAll(s, sns); t.log == s.log + failed && t.lost == s.lost
    ensures Reports(s.payloads, failed, sns)
    decreases |sns|
  {
    hide Without;
    failed := [];
    if sns != [] {
      var t := Fail(s, sns[0]);
      forall i | 0 <= i < |sns[1..]| ensures sns[1..][i] in t.gate.inflight && sns[1..][i] != sns[0] {
        assert sns[1..][i] == sns[i + 1];
      }
      var rest := FailLog(t, sns[1..]);
      failed := [t.log[|s.log|]] + rest;
    }
  }

  /** The parts of what one call logs: acknowledgements, repetitions, failures, a new window. */
  lemma CallLog(cfg: Config, env: Env, s: Sys) returns (acks: seq<Event>, resent: seq<Event>, failed: seq<Event>,
                                                        sent: seq<Event>, due: seq<byte>, dead: seq<byte>)
    requires cfg.Valid() && Reachable(cfg, env, s) && s.lost == {}
    ensures var b := HandleIncoming(cfg, QueueWindow(cfg, env, s));
            && TxProcessOnce(cfg, env, s).log == s.log + acks + resent + failed + sent
            && (forall e <- acks :: !e.TxSent? && !e.TxFailed?)
            && Ordered(due, Earlier(b.payloads)) && Ordered(dead, Earlier(b.payloads))
            && (forall k: byte :: k in due <==> RetryDue(cfg, b.gate, b.now, k))
            && Resends(cfg, b.payloads, resent, due) && Reports(b.payloads, failed, dead)
            && (forall e <- sent :: e.TxSent?)
    ensures TxProcessOnce(cfg, env, s).lost == {} ==> forall e <- sent :: e.attempt == 1
  {
    hide Reachable, HandleIncoming, QueueWindow, RetryAll, FailAll, SendNext, CanSend;
    hide ExpiredSequences, ExpiredFailures;
    hide TableInv, DataInv, Ordered, Earlier, Older, Distinct, RetryDue, FailureDue;
    hide Config.Spacing, Resends, Reports;
    var a := QueueWindow(cfg, env, s);
    QueuesOnly(cfg, env, s);
    StepReachable(cfg, env, s, Sampling);
    acks := IncomingLog(cfg, a);
    HandleIncomingReachable(cfg, env, a);
    var b := HandleIncoming(cfg, a);
    PayloadKeys(cfg, env, b);
    OrderInvariant(cfg, env, b);
    TableOrderInvariant(cfg, env, b);
    due := ExpiredSequences(cfg, b.gate, b.now, b.gate.order);
    DueExactly(cfg, b);
    SequencesOrdered(cfg, b.gate, b.now, b.gate.order, Earlier(b.payloads));
    DueAreHeld(cfg, b, due);
    resent := RetryLog(cfg, env, b, due);
    var r := RetryAll(cfg, env, b, due);
    dead := ExpiredFailures(cfg, r.gate, r.now, r.gate.order);
    FailuresOrdered(cfg, r.gate, r.now, r.gate.order, Earlier(b.payloads));
    ExpiredFailuresDue(cfg, r.gate, r.now, r.gate.order);
    DeadAreHeld(cfg, r, dead);
    failed := FailLog(r, dead);
    var c := FailAll(r, dead);
    RetryExpiredReachable(cfg, env, b);
    PayloadKeys(cfg, env, c);
    sent := [];
    if c.pending != [] && CanSend(cfg, c.gate, c.now) {
      sent := SendLog(cfg, env, c);
    }
  }

  lemma DueExactly(cfg: Config, s: Sys)
    requires OrderInv(s.gate)
    ensures forall k: byte ::
              k in ExpiredSequences(cfg, s.gate, s.now, s.gate.order) <==> RetryDue(cfg, s.gate, s.now, k)
  {
    hide ExpiredSequences, Expired;
    ExpiredSequencesDue(cfg, s.gate, s.now, s.gate.order);
  }

  lemma QueuesOnly(cfg: Config, env: Env, s: Sys)
    requires cfg.window.Valid()
    ensures QueueWindow(cfg, env, s).log == s.log && QueueWindow(cfg, env, s).lost == s.lost
  {
    hide Feed;
  }

  lemma DueAreHeld(cfg: Config, s: Sys, due: seq<byte>)
    requires TableInv(cfg, s) && OrderInv(s.gate) && forall k <- due :: RetryDue(cfg, s.gate, s.now, k)
    ensures forall i :: 0 <= i < |due| ==>
              due[i] in s.payloads && due[i] in s.gate.inflight && s.gate.inflight[due[i]].attempts >= 1
  {
    forall i | 0 <= i < |due|
      ensures due[i] in s.payloads && due[i] in s.gate.inflight && s.gate.inflight[due[i]].attempts >= 1
    {
      assert due[i] in due && RetryDue(cfg, s.gate, s.now, due[i]);
      assert EntryInv(s.gate.inflight[due[i]], due[i], s.now);
    }
  }

  lemma DeadAreHeld(cfg: Config, s: Sys, dead: seq<byte>)
    requires forall k <- dead :: FailureDue(cfg, s.gate, s.now, k)
    ensures forall i :: 0 <= i < |dead| ==> dead[i] in s.gate.inflight
  {
    forall i | 0 <= i < |dead| ensures dead[i] in s.gate.inflight {
      assert dead[i] in dead && FailureDue(cfg, s.gate, s.now, dead[i]);
    }
  }

  lemma SendLog(cfg: Config, env: Env, s: Sys) returns (sent: seq<Event>)
    requires s.pending != [] && s.payloads.Keys == s.gate.inflight.Keys
    ensures var t := SendNext(cfg, env, s);
            && t.log == s.log + sent && (forall e <- sent :: e.TxSent?)
            && (t.lost == {} ==> forall e <- sent :: e.attempt == 1)
  {
    hide SendFromA, DataFrame;
    sent := [SendNext(cfg, env, s).log[|s.log|]];
  }

  // ---------------------------------------------------------------------
  // Oldest first
  // ---------------------------------------------------------------------

  /** The place of an event in a log made of five parts. */
  lemma InPart(log: seq<Event>, acks: seq<Event>, resent: seq<Event>, failed: seq<Event>, sent: seq<Event>, i: nat)
    returns (n: nat)
    requires |log| <= i < |log + acks + resent + failed + sent|
    ensures n == |log| + |acks|
    ensures var e := (log + acks + resent + failed + sent)[i];
            if i < n then e in acks
            else if i < n + |resent| then e == resent[i - n]
            else if i < n + |resent| + |failed| then e == failed[i - n - |resent|]
            else e in sent
  {
    n := |log| + |acks|;
  }

  /** While no SEQ has been reused, the windows that one call of process_once gives up are reported in the order of
      their numbers. */
  lemma FailuresOldestFirst(cfg: Config, env: Env, s: Sys, i: nat, j: nat)
    requires cfg.Valid() && Reachable(cfg, env, s) && s.lost == {}
    requires var log := TxProcessOnce(cfg, env, s).log;
             |s.log| <= i < j < |log| && log[i].TxFailed? && log[j].TxFailed?
    ensures var log := TxProcessOnce(cfg, env, s).log;
            log[i].window.Some? && log[j].window.Some? && log[i].window.value < log[j].window.value
  {
    hide Reachable, TxProcessOnce, HandleIncoming, QueueWindow, Ordered, Earlier, RetryDue, Config.Spacing;
    var acks, resent, failed, sent, due, dead := CallLog(cfg, env, s);
    var n := InPart(s.log, acks, resent, failed, sent, i);
    var m := InPart(s.log, acks, resent, failed, sent, j);
    var b := HandleIncoming(cfg, QueueWindow(cfg, env, s));
    EarlierAt(dead, b.payloads, i - n - |resent|, j - n - |resent|);
  }

  /** Whenever a call of process_once resends a window, it has, earlier in the same call, resent every window with a
      smaller number that was due as well. */
  lemma RetriesOldestFirst(cfg: Config, env: Env, s: Sys, i: nat, k: byte) returns (j: nat)
    requires cfg.Valid() && Reachable(cfg, env, s) && s.lost == {} && TxProcessOnce(cfg, env, s).lost == {}
    requires var log := TxProcessOnce(cfg, env, s).log;
             |s.log| <= i < |log| && log[i].TxSent? && log[i].attempt >= 2
    requires var b := HandleIncoming(cfg, QueueWindow(cfg, env, s));
             && k in b.gate.inflight && k in b.payloads && b.payloads[k].id < TxProcessOnce(cfg, env, s).log[i].id
             && b.gate.inflight[k].attempts <= cfg.maxRetries
             && b.now - b.gate.inflight[k].lastTxMs >= b.gate.inflight[k].ackTimeoutMs
    ensures var log, b := TxProcessOnce(cfg, env, s).log, HandleIncoming(cfg, QueueWindow(cfg, env, s));
            |s.log| <= j < i && log[j].TxSent? && log[j].attempt >= 2 && log[j].id == b.payloads[k].id
  {
    hide Reachable, TxProcessOnce, HandleIncoming, QueueWindow, Ordered, Earlier, Config.Spacing;
    var acks, resent, failed, sent, due, dead := CallLog(cfg, env, s);
    var n := InPart(s.log, acks, resent, failed, sent, i);
    var b := HandleIncoming(cfg, QueueWindow(cfg, env, s));
    assert RetryDue(cfg, b.gate, b.now, k) && k in due;
    var p :| 0 <= p < |due| && due[p] == k;
    var q := i - n;
    assert ResendOf(resent[q], due[q], b.payloads[due[q]]);
    if p > q {
      EarlierAt(due, b.payloads, q, p);
    }
    j := n + p;
    assert ResendOf(resent[p], due[p], b.payloads[due[p]]);
    assert TxProcessOnce(cfg, env, s).log[j] == resent[p];
  }

  /** So if frames keep the channel for at least a millisecond, the one window that a call resends is the one with
      the smallest number of all that are due. */
  lemma ResendsTheOldest(cfg: Config, env: Env, s: Sys, i: nat, k: byte)
    requires cfg.Valid() && Reachable(cfg, env, s) && s.lost == {} && TxProcessOnce(cfg, env, s).lost == {}
    requires forall n: nat :: n <= 255 ==> cfg.Spacing(n) >= 1
    requires var log := TxProcessOnce(cfg, env, s).log;
             |s.log| <= i < |log| && log[i].TxSent? && log[i].attempt >= 2
    requires var b := HandleIncoming(cfg, QueueWindow(cfg, env, s));
             && k in b.gate.inflight && k in b.payloads && b.gate.inflight[k].attempts <= cfg.maxRetries
             && b.now - b.gate.inflight[k].lastTxMs >= b.gate.inflight[k].ackTimeoutMs
    ensures var log, b := TxProcessOnce(cfg, env, s).log, HandleIncoming(cfg, QueueWindow(cfg, env, s));
            log[i].id <= b.payloads[k].id
  {
    hide Reachable, TxProcessOnce, HandleIncoming, QueueWindow, Ordered, Earlier, Config.Spacing;
    var acks, resent, failed, sent, due, dead := CallLog(cfg, env, s);
    var n := InPart(s.log, acks, resent, failed, sent, i);
    var b := HandleIncoming(cfg, QueueWindow(cfg, env, s));
    assert RetryDue(cfg, b.gate, b.now, k) && k in due;
    var p :| 0 <= p < |due| && due[p] == k;
    PayloadFits(cfg, env, s, due[0]);
    assert ResendOf(resent[0], due[0], b.payloads[due[0]]) && |resent| == 1;
    if p > 0 {
      EarlierAt(due, b.payloads, 0, p);
    }
  }

  lemma PayloadFits(cfg: Config, env: Env, s: Sys, k: byte)
    requires cfg.Valid() && Reachable(cfg, env, s)
    ensures var b := HandleIncoming(cfg, QueueWindow(cfg, env, s));
            k in b.payloads ==> 2 + |b.payloads[k].payload| <= 255
  {
    hide Reachable, HandleIncoming, QueueWindow, TableInv, SampleInv, OrderInv, SentInv, PendingInv;
    StepReachable(cfg, env, s, Sampling);
    HandleIncomingReachable(cfg, env, QueueWindow(cfg, env, s));
    var b := HandleIncoming(cfg, QueueWindow(cfg, env, s));
    StateParts(cfg, env, b);
    if k in b.payloads {
      assert HeldInv(cfg, b, k, b.payloads[k]);
    }
  }
}
