/** `run_pair` over a link that drops nothing: who is where after r rounds, for every latency, step,
    queue bound and retry limit. Time is counted in rounds: round r starts at start + r*step. */
module ArqLossFree {
  import opened Basics
  import opened PacketCodec
  import opened Windows
  import opened ArqModel
  import opened ArqRuns
  import opened LogCounts
  import opened ArqInvariants
  import opened ArqLink
  import opened ArqCore
  import opened ArqSampling
  import Arith

  // ---------------------------------------------------------------------
  // Timing of a round trip
  // ---------------------------------------------------------------------

  /** The fixed parameters of a run of `run_pair`. */
  datatype Pace = Pace(start: nat, step: nat) {
    predicate Valid() {
      step >= 1
    }

    /** Start of round r. */
    function At(r: int): int {
      start + r * step
    }
  }

  /** Rounds after which a frame sent in some round can be read: the latency in steps, rounded up. */
  function Hop(cfg: Config, p: Pace): nat
    requires p.Valid()
  {
    (cfg.latencyMs + p.step - 1) / p.step
  }

  /** Rounds from sending a window to reading its acknowledgement. The receiver runs after the
      transmitter in each round, so with no latency the answer is still read one round later. */
  function Trip(cfg: Config, p: Pace): nat
    requires p.Valid()
  {
    Hop(cfg, p) + Max(1, Hop(cfg, p))
  }

  /** A frame put on the link in round q is readable in round r exactly from Hop rounds on. */
  lemma ReadableFrom(cfg: Config, p: Pace, q: int, r: int)
    requires p.Valid()
    ensures p.At(q) + cfg.latencyMs <= p.At(r) <==> r - q >= Hop(cfg, p)
  {
    var h, d := Hop(cfg, p), r - q;
    var e := (cfg.latencyMs + p.step - 1) % p.step;
    assert cfg.latencyMs + p.step - 1 == h * p.step + e;
    assert p.At(r) - p.At(q) == d * p.step by {
      assert d * p.step == r * p.step - q * p.step;
    }
    if d >= h {
      assert d * p.step == h * p.step + (d - h) * p.step;
      Arith.MulNonNegative(d - h, p.step);
    } else {
      assert h * p.step == d * p.step + (h - d) * p.step;
      Arith.MulAtLeast(h - d, p.step);
    }
  }

  lemma AtOrdered(p: Pace, q: int, r: int)
    requires p.Valid()
    ensures q < r <==> p.At(q) < p.At(r)
  {
    assert (r - q) * p.step == r * p.step - q * p.step;
    if q < r {
      Arith.MulAtLeast(r - q, p.step);
    } else {
      assert (q - r) * p.step == q * p.step - r * p.step;
      Arith.MulNonNegative(q - r, p.step);
    }
  }

  /** Nothing times out before its acknowledgement can be read, or a timeout has no effect because a
      single entry fills the table and may still be retried. */
  ghost predicate Patient(cfg: Config, p: Pace)
    requires p.Valid()
  {
    || (forall n: nat :: n <= 255 ==> (Trip(cfg, p) - 1) * p.step < cfg.ackTimeoutMs(n))
    || (cfg.maxInflight == 1 && cfg.maxRetries >= 1)
  }

  /** It is enough that every timeout covers twice the latency and one step. */
  lemma LongTimeoutsArePatient(cfg: Config, p: Pace)
    requires p.Valid() && forall n: nat :: n <= 255 ==> 2 * cfg.latencyMs + p.step <= cfg.ackTimeoutMs(n)
    ensures Patient(cfg, p)
  {
    var h := Hop(cfg, p);
    var e := (cfg.latencyMs + p.step - 1) % p.step;
    assert cfg.latencyMs + p.step - 1 == h * p.step + e;
    if h == 0 {
      assert Trip(cfg, p) == 1;
    } else {
      assert (2 * h - 1) * p.step == 2 * (h * p.step) - p.step;
    }
  }

  // ---------------------------------------------------------------------
  // The state between two phases of a round
  // ---------------------------------------------------------------------

  /** Round number, the rounds in which each window was sent, and how old frames and answers may be
      at this point of the round. */
  datatype Phase = Phase(round: int, stamp: seq<int>, dataMax: int, ackMin: int, ackMax: int)

  ghost predicate Stamped(s: Sys, ph: Phase) {
    && |ph.stamp| == s.sent
    && (forall i, j :: 0 <= i < j < |ph.stamp| ==> ph.stamp[i] < ph.stamp[j])
    && (forall i :: 0 <= i < |ph.stamp| ==> ph.stamp[i] <= ph.round)
  }

  /** Windows [acked, read) have an answer on its way, windows [read, sent) are themselves on their way. */
  ghost predicate Queues(cfg: Config, p: Pace, s: Sys, ph: Phase)
    requires p.Valid() && |ph.stamp| == s.sent
  {
    var a, b, n := s.gate.ackedCount, s.rxOkCount, s.sent;
    && a <= b <= n
    && |s.link.toA| == b - a && |s.link.toB| == n - b
    && (forall j :: 0 <= j < n - b ==> DataAt(cfg, p, s.link.toB[j], b + j, ph.stamp[b + j]))
    && (forall j :: 0 <= j < b - a ==> AckAt(cfg, p, s.link.toA[j], a + j, ph.stamp[a + j]))
    && (forall i :: b <= i < n ==> ph.round - ph.stamp[i] <= ph.dataMax)
    && (forall i :: a <= i < b ==> ph.ackMin <= ph.round - ph.stamp[i] <= ph.ackMax)
  }

  /** Delivery of window id, sent in round q. */
  ghost predicate DataAt(cfg: Config, p: Pace, d: Delivery, id: nat, q: int) {
    && d.at == p.At(q) + cfg.latencyMs
    && ParseData(cfg, d.frame).DataFor? && ParseData(cfg, d.frame).sn == SeqOf(id)
  }

  /** Delivery of the answer to window id, sent in round q and read by the receiver Hop rounds later. */
  ghost predicate AckAt(cfg: Config, p: Pace, d: Delivery, id: nat, q: int)
    requires p.Valid()
  {
    && d.at == p.At(q + Hop(cfg, p)) + cfg.latencyMs
    && ParseReply(cfg, d.frame) == AckFor(SeqOf(id))
  }

  /** Exactly windows [acked, sent) are in flight, each on its first attempt. */
  ghost predicate Table(cfg: Config, p: Pace, s: Sys, ph: Phase)
    requires p.Valid() && |ph.stamp| == s.sent
  {
    && (forall i :: s.gate.ackedCount <= i < s.sent ==> Holds(cfg, p, s, i, ph.stamp[i]))
    && (forall k <- s.payloads :: s.gate.ackedCount <= s.payloads[k].id)
  }

  ghost predicate Holds(cfg: Config, p: Pace, s: Sys, i: nat, q: int)
    requires p.Valid()
  {
    && SeqOf(i) in s.payloads && SeqOf(i) in s.gate.inflight
    && s.payloads[SeqOf(i)].id == i
    && s.gate.inflight[SeqOf(i)].attempts == 1
    && s.gate.inflight[SeqOf(i)].lastTxMs == p.At(q)
    && ((cfg.maxInflight == 1 && cfg.maxRetries >= 1)
        || (Trip(cfg, p) - 1) * p.step < s.gate.inflight[SeqOf(i)].ackTimeoutMs)
  }

  /** Nothing has been resent, failed or lost, and the acknowledged windows are 0, 1, 2, ... in order. */
  ghost predicate Clean(s: Sys) {
    && s.lost == {}
    && s.gate.retriesTotal == 0
    && Num(Failed, s.log) == 0
    && InOrder(AckIds(s.log), s.gate.ackedCount)
  }

  /** The ids 0, 1, ..., n - 1. */
  ghost predicate InOrder(ids: seq<Option<nat>>, n: nat) {
    |ids| == n && forall j :: 0 <= j < n ==> ids[j] == Some(j)
  }

  lemma InOrderSnoc(ids: seq<Option<nat>>, n: nat)
    requires InOrder(ids, n)
    ensures InOrder(ids + [Some(n)], n + 1)
  {
  }

  ghost predicate PairInv(cfg: Config, p: Pace, s: Sys, ph: Phase)
    requires p.Valid()
  {
    && s.now == p.At(ph.round)
    && Stamped(s, ph)
    && Queues(cfg, p, s, ph)
    && Table(cfg, p, s, ph)
    && Clean(s)
  }

  /** Start of a round, after reading answers, and end of a round. */
  predicate AtStart(cfg: Config, p: Pace, ph: Phase) requires p.Valid() {
    ph.dataMax == Hop(cfg, p) && ph.ackMin == Hop(cfg, p) + 1 && ph.ackMax == Trip(cfg, p)
  }

  predicate AfterReading(cfg: Config, p: Pace, ph: Phase) requires p.Valid() {
    ph.dataMax == Hop(cfg, p) && ph.ackMin == Hop(cfg, p) + 1 && ph.ackMax == Trip(cfg, p) - 1
  }

  predicate AtEnd(cfg: Config, p: Pace, ph: Phase) requires p.Valid() {
    ph.dataMax == Hop(cfg, p) - 1 && ph.ackMin == Hop(cfg, p) && ph.ackMax == Trip(cfg, p) - 1
  }

  // ---------------------------------------------------------------------
  // Sampling
  // ---------------------------------------------------------------------

  lemma PairSampling(cfg: Config, env: Env, p: Pace, s: Sys, ph: Phase)
    requires cfg.window.Valid() && p.Valid() && PairInv(cfg, p, s, ph)
    ensures PairInv(cfg, p, QueueWindow(cfg, env, s), ph)
  {
    hide Feed, Num, AckIds, Hop, Trip, ParseData, ParseReply, SeqOf;
    var t := QueueWindow(cfg, env, s);
    assert forall i :: s.gate.ackedCount <= i < s.sent ==> Holds(cfg, p, s, i, ph.stamp[i]);
    SameTable(cfg, p, s, t, ph);
  }

  lemma SameTable(cfg: Config, p: Pace, s: Sys, t: Sys, ph: Phase)
    requires p.Valid() && |ph.stamp| == s.sent && Table(cfg, p, s, ph)
    requires t.gate == s.gate && t.payloads == s.payloads && t.sent == s.sent
    ensures Table(cfg, p, t, ph)
  {
    hide Trip, SeqOf;
    forall i | t.gate.ackedCount <= i < t.sent ensures Holds(cfg, p, t, i, ph.stamp[i]) {
      assert Holds(cfg, p, s, i, ph.stamp[i]);
    }
  }

  // ---------------------------------------------------------------------
  // Reading an answer
  // ---------------------------------------------------------------------

  /** The oldest answer can be read in this round exactly when its window is Trip rounds old. */
  lemma AnswerIsDue(cfg: Config, p: Pace, s: Sys, ph: Phase)
    requires p.Valid() && s.now == p.At(ph.round) && |ph.stamp| == s.sent && Queues(cfg, p, s, ph)
    requires ph.ackMin >= Hop(cfg, p) + 1
    ensures Deliverable(s.link.toA, s.now)
            <==> s.gate.ackedCount < s.rxOkCount && ph.round - ph.stamp[s.gate.ackedCount] >= Trip(cfg, p)
  {
    hide ParseData, ParseReply, SeqOf;
    var a := s.gate.ackedCount;
    if a < s.rxOkCount {
      assert AckAt(cfg, p, s.link.toA[0], a + 0, ph.stamp[a + 0]);
      ReadableFrom(cfg, p, ph.stamp[a] + Hop(cfg, p), ph.round);
    }
  }

  /** Reading the answer to the oldest window in flight acknowledges exactly that window. */
  lemma PairReading(cfg: Config, p: Pace, s: Sys, ph: Phase)
    requires p.Valid() && TableInv(cfg, s) && DataInv(cfg, s) && PairInv(cfg, p, s, ph) && AtStart(cfg, p, ph)
    requires Deliverable(s.link.toA, s.now) && s.sent - s.gate.ackedCount <= 256
    ensures var t := HandleFrame(cfg, s);
            && PairInv(cfg, p, t, ph.(ackMax := Trip(cfg, p) - 1))
            && !Deliverable(t.link.toA, t.now)
            && t.gate.ackedCount == s.gate.ackedCount + 1 && t.sent == s.sent
  {
    hide DataInv, ParseData, ParseReply, SeqOf, Num, AckIds, Without, Hop, Trip;
    var a := s.gate.ackedCount;
    var t := HandleFrame(cfg, s);
    var qh := ph.(ackMax := Trip(cfg, p) - 1);
    AnswerIsDue(cfg, p, s, ph);
    assert AckAt(cfg, p, s.link.toA[0], a + 0, ph.stamp[a + 0]);
    assert Holds(cfg, p, s, a, ph.stamp[a]);
    ReadingClean(cfg, s, SeqOf(a));
    ReadingQueues(cfg, p, s, t, ph);
    ReadingTable(cfg, p, s, t, ph);
    AnswerIsDue(cfg, p, t, qh);
  }

  lemma AckEventNames(s: Sys, sn: byte)
    requires sn in s.gate.inflight && sn in s.payloads
    ensures AckEvent(s, sn).AckReceived? && AckEvent(s, sn).window == Some(s.payloads[sn].id)
  {
  }

  lemma AcknowledgeClean(s: Sys, sn: byte)
    requires Clean(s) && sn in s.gate.inflight && sn in s.payloads && s.payloads[sn].id == s.gate.ackedCount
    ensures Clean(Acknowledge(s, sn))
  {
    hide Resolutions, ToaSum, Num, AckIds, Without, InOrder, AckEvent;
    AckEventNames(s, sn);
    Snoc(s.log, AckEvent(s, sn));
    AckIdsSnoc(s.log, AckEvent(s, sn));
    InOrderSnoc(AckIds(s.log), s.gate.ackedCount);
  }

  lemma ReadingClean(cfg: Config, s: Sys, sn: byte)
    requires Clean(s) && sn in s.gate.inflight && sn in s.payloads && s.payloads[sn].id == s.gate.ackedCount
    requires s.link.toA != []
    ensures Clean(Acknowledge(PopA(s), sn))
  {
    hide Num, AckIds, InOrder, Acknowledge;
    AcknowledgeClean(PopA(s), sn);
  }

  lemma ReadingQueues(cfg: Config, p: Pace, s: Sys, t: Sys, ph: Phase)
    requires p.Valid() && |ph.stamp| == s.sent && Queues(cfg, p, s, ph) && Stamped(s, ph)
    requires s.gate.ackedCount < s.rxOkCount && ph.round - ph.stamp[s.gate.ackedCount] <= ph.ackMax
    requires t.gate.ackedCount == s.gate.ackedCount + 1 && t.rxOkCount == s.rxOkCount && t.sent == s.sent
    requires t.link.toA == s.link.toA[1..] && t.link.toB == s.link.toB
    ensures Queues(cfg, p, t, ph.(ackMax := ph.ackMax - 1))
  {
    hide ParseData, ParseReply, SeqOf, Hop, AckAt, DataAt;
    var a := s.gate.ackedCount;
    forall j | 0 <= j < t.rxOkCount - t.gate.ackedCount
      ensures AckAt(cfg, p, t.link.toA[j], t.gate.ackedCount + j, ph.stamp[t.gate.ackedCount + j])
    {
      assert AckAt(cfg, p, s.link.toA[j + 1], a + (j + 1), ph.stamp[a + (j + 1)]);
    }
    forall i | a + 1 <= i < s.rxOkCount ensures ph.round - ph.stamp[i] <= ph.ackMax - 1 {
      assert ph.stamp[a] < ph.stamp[i];
    }
  }

  /** Different windows among any 256 consecutive ones have different SEQs. */
  lemma DistinctSeqs(i: nat, j: nat)
    requires i != j && -256 < i - j < 256
    ensures SeqOf(i) != SeqOf(j)
  {
    if SeqOf(i) == SeqOf(j) {
      if i < j {
        Arith.SameResidue(i, j, 256);
      } else {
        Arith.SameResidue(j, i, 256);
      }
    }
  }

  lemma ReadingTable(cfg: Config, p: Pace, s: Sys, t: Sys, ph: Phase)
    requires p.Valid() && |ph.stamp| == s.sent && Table(cfg, p, s, ph) && DataInv(cfg, s)
    requires s.gate.ackedCount < s.sent && s.sent - s.gate.ackedCount <= 256
    requires t.gate.ackedCount == s.gate.ackedCount + 1 && t.sent == s.sent
    requires t.payloads == s.payloads - {SeqOf(s.gate.ackedCount)}
    requires t.gate.inflight == s.gate.inflight - {SeqOf(s.gate.ackedCount)}
    ensures Table(cfg, p, t, ph)
  {
    hide SeqOf, Trip, SentInv, Encodes, PendingInv;
    var a := s.gate.ackedCount;
    forall i | a + 1 <= i < s.sent ensures Holds(cfg, p, t, i, ph.stamp[i]) {
      assert Holds(cfg, p, s, i, ph.stamp[i]);
      DistinctSeqs(i, a);
    }
    forall k <- t.payloads ensures a + 1 <= t.payloads[k].id {
      assert HeldInv(cfg, s, k, s.payloads[k]);
    }
  }

  /** `_handle_incoming` reads at most one answer per round. */
  lemma PairIncoming(cfg: Config, p: Pace, s: Sys, ph: Phase)
    requires p.Valid() && TableInv(cfg, s) && DataInv(cfg, s) && PairInv(cfg, p, s, ph) && AtStart(cfg, p, ph)
    requires s.sent - s.gate.ackedCount <= 256
    ensures var t := HandleIncoming(cfg, s);
            && PairInv(cfg, p, t, ph.(ackMax := Trip(cfg, p) - 1))
            && t.sent == s.sent
            && (if Deliverable(s.link.toA, s.now) then t == HandleFrame(cfg, s) else t == s)
  {
    hide PairInv, TableInv, DataInv, HandleFrame, Deliverable;
    if Deliverable(s.link.toA, s.now) {
      PairReading(cfg, p, s, ph);
      var t := HandleFrame(cfg, s);
      assert HandleIncoming(cfg, t) == t;
    } else {
      NothingDue(cfg, p, s, ph);
    }
  }

  lemma NothingDue(cfg: Config, p: Pace, s: Sys, ph: Phase)
    requires p.Valid() && PairInv(cfg, p, s, ph) && AtStart(cfg, p, ph) && !Deliverable(s.link.toA, s.now)
    ensures PairInv(cfg, p, s, ph.(ackMax := Trip(cfg, p) - 1))
  {
    hide Clean, DataAt, AckAt, Holds, Hop, Trip;
    AnswerIsDue(cfg, p, s, ph);
    var a := s.gate.ackedCount;
    forall i | a <= i < s.rxOkCount ensures ph.round - ph.stamp[i] <= Trip(cfg, p) - 1 {
      assert i > a ==> ph.stamp[a] < ph.stamp[i];
    }
    var qh := ph.(ackMax := Trip(cfg, p) - 1);
    assert Queues(cfg, p, s, qh);
    assert Table(cfg, p, s, qh);
  }

  // ---------------------------------------------------------------------
  // Nothing expires
  // ---------------------------------------------------------------------

  /** Each entry in the table is younger than a full round trip. */
  lemma EntryIsYoung(cfg: Config, p: Pace, s: Sys, ph: Phase, k: byte)
    requires p.Valid() && PairInv(cfg, p, s, ph) && AfterReading(cfg, p, ph)
    requires TableInv(cfg, s) && DataInv(cfg, s) && k in s.gate.inflight
    ensures s.gate.inflight[k].attempts == 1
    ensures (cfg.maxInflight == 1 && cfg.maxRetries >= 1) || !Expired(s.gate.inflight[k], s.now)
  {
    hide SeqOf, ParseData, ParseReply, Num, AckIds, Encodes, SentInv, PendingInv, DataAt, AckAt, Clean, EntryInv, Hop;
    assert k in s.payloads;
    assert HeldInv(cfg, s, k, s.payloads[k]);
    var i := s.payloads[k].id;
    assert Holds(cfg, p, s, i, ph.stamp[i]);
    var age := ph.round - ph.stamp[i];
    assert age <= Trip(cfg, p) - 1;
    assert s.now - p.At(ph.stamp[i]) == age * p.step by {
      assert age * p.step == ph.round * p.step - ph.stamp[i] * p.step;
    }
    assert age * p.step <= (Trip(cfg, p) - 1) * p.step by {
      assert (Trip(cfg, p) - 1) * p.step == age * p.step + (Trip(cfg, p) - 1 - age) * p.step;
      Arith.MulNonNegative(Trip(cfg, p) - 1 - age, p.step);
    }
  }

  lemma {:induction false} NoneToFail(cfg: Config, p: Pace, s: Sys, ph: Phase, order: seq<byte>)
    requires p.Valid() && PairInv(cfg, p, s, ph) && AfterReading(cfg, p, ph)
    requires TableInv(cfg, s) && DataInv(cfg, s)
    ensures ExpiredFailures(cfg, s.gate, s.now, order) == []
    decreases |order|
  {
    hide PairInv, TableInv, DataInv, AfterReading, Expired;
    if order != [] {
      if order[0] in s.gate.inflight {
        EntryIsYoung(cfg, p, s, ph, order[0]);
      }
      NoneToFail(cfg, p, s, ph, order[1..]);
    }
  }

  /** The retry loop does nothing: either no key has expired, or the single entry fills the table. */
  lemma {:induction false} NoneToRetry(cfg: Config, env: Env, p: Pace, s: Sys, ph: Phase, order: seq<byte>)
    requires p.Valid() && PairInv(cfg, p, s, ph) && AfterReading(cfg, p, ph)
    requires TableInv(cfg, s) && DataInv(cfg, s)
    ensures RetryAll(cfg, env, s, ExpiredSequences(cfg, s.gate, s.now, order)) == s
    decreases |order|
  {
    hide PairInv, TableInv, DataInv, AfterReading, Expired, Transmit, PaceDeadline;
    if order != [] {
      var rest := ExpiredSequences(cfg, s.gate, s.now, order[1..]);
      NoneToRetry(cfg, env, p, s, ph, order[1..]);
      if RetryDue(cfg, s.gate, s.now, order[0]) {
        EntryIsYoung(cfg, p, s, ph, order[0]);
        HasEntry(s.gate.inflight, order[0]);
        assert ([order[0]] + rest)[1..] == rest;
      } else {
        assert [] + rest == rest;
      }
    }
  }

  lemma NothingExpires(cfg: Config, env: Env, p: Pace, s: Sys, ph: Phase)
    requires p.Valid() && PairInv(cfg, p, s, ph) && AfterReading(cfg, p, ph)
    requires TableInv(cfg, s) && DataInv(cfg, s)
    ensures RetryExpired(cfg, env, s) == s
  {
    hide PairInv, TableInv, DataInv, AfterReading, RetryAll, ExpiredSequences, ExpiredFailures;
    NoneToRetry(cfg, env, p, s, ph, s.gate.order);
    NoneToFail(cfg, p, s, ph, s.gate.order);
  }

  // ---------------------------------------------------------------------
  // Sending
  // ---------------------------------------------------------------------

  /** A delivery later than everything queued goes to the end. */
  lemma {:induction false} InsertLast(q: seq<Delivery>, d: Delivery)
    requires forall x <- q :: x.at < d.at
    ensures Insert(q, d) == q + [d]
    decreases |q|
  {
    hide FrameLess;
    if q != [] {
      assert q[0] in q;
      InsertLast(q[1..], d);
      assert q == [q[0]] + q[1..];
    }
  }

  /** Drop decisions that matter to the first n transmissions are all in favour of delivery. */
  ghost predicate Lossless(env: Env, n: nat) {
    forall i :: 0 <= i < n ==> !env.dropAb(i) && !env.dropBa(i)
  }

  lemma SendingLink(cfg: Config, env: Env, p: Pace, s: Sys, ph: Phase, n: nat)
    requires p.Valid() && PairInv(cfg, p, s, ph) && CountInv(s)
    requires Lossless(env, n) && s.sent < n
    requires forall i :: 0 <= i < |ph.stamp| ==> ph.stamp[i] < ph.round
    ensures forall frame ::
              SendFromA(cfg, env, s.link, s.now, frame)
              == s.link.(usedAb := s.link.usedAb + 1, toB := s.link.toB + [Delivery(s.now + cfg.latencyMs, frame)])
  {
    hide ParseData, ParseReply, SeqOf, Num, AckIds, ToaSum, Hop, Table, Insert;
    assert s.link.usedAb == s.sent;
    forall frame
      ensures SendFromA(cfg, env, s.link, s.now, frame)
              == s.link.(usedAb := s.link.usedAb + 1, toB := s.link.toB + [Delivery(s.now + cfg.latencyMs, frame)])
    {
      forall x <- s.link.toB ensures x.at < s.now + cfg.latencyMs {
        var j :| 0 <= j < |s.link.toB| && s.link.toB[j] == x;
        assert DataAt(cfg, p, s.link.toB[j], s.rxOkCount + j, ph.stamp[s.rxOkCount + j]);
        AtOrdered(p, ph.stamp[s.rxOkCount + j], ph.round);
      }
      InsertLast(s.link.toB, Delivery(s.now + cfg.latencyMs, frame));
    }
  }

  lemma NewFrameParses(cfg: Config, s: Sys)
    requires cfg.Valid() && DataInv(cfg, s) && s.pending != []
    ensures s.seqNo == SeqOf(s.sent) && s.pending[0].id == s.sent
    ensures ParseData(cfg, DataFrame(s.seqNo, s.pending[0].payload)) == DataFor(s.seqNo, s.pending[0].payload)
    ensures |s.pending[0].payload| <= cfg.maxPayload
  {
    hide SentInv, HeldInv;
    assert Encodes(cfg, s.dataset, s.pending[0].id, s.pending[0].payload);
    RoundTrip(Packet(s.pending[0].payload, s.seqNo), DataFrame(s.seqNo, s.pending[0].payload), Some(cfg.maxPayload));
  }

  lemma SendingQueues(cfg: Config, p: Pace, s: Sys, t: Sys, ph: Phase, qh: Phase, d: Delivery)
    requires p.Valid() && |ph.stamp| == s.sent && Queues(cfg, p, s, ph) && ph.dataMax >= 0
    requires qh == ph.(stamp := ph.stamp + [ph.round])
    requires t.sent == s.sent + 1 && t.gate.ackedCount == s.gate.ackedCount && t.rxOkCount == s.rxOkCount
    requires t.link.toA == s.link.toA && t.link.toB == s.link.toB + [d]
    requires DataAt(cfg, p, d, s.sent, ph.round)
    ensures Queues(cfg, p, t, qh)
  {
    hide DataAt, AckAt, Hop;
    forall j | 0 <= j < t.sent - t.rxOkCount
      ensures DataAt(cfg, p, t.link.toB[j], t.rxOkCount + j, qh.stamp[t.rxOkCount + j])
    {
      if j < |s.link.toB| {
        assert DataAt(cfg, p, s.link.toB[j], s.rxOkCount + j, ph.stamp[s.rxOkCount + j]);
      }
    }
    forall j | 0 <= j < t.rxOkCount - t.gate.ackedCount
      ensures AckAt(cfg, p, t.link.toA[j], t.gate.ackedCount + j, qh.stamp[t.gate.ackedCount + j])
    {
      assert AckAt(cfg, p, s.link.toA[j], s.gate.ackedCount + j, ph.stamp[s.gate.ackedCount + j]);
    }
  }

  lemma SendingTable(cfg: Config, p: Pace, s: Sys, t: Sys, ph: Phase, qh: Phase, n: nat)
    requires p.Valid() && |ph.stamp| == s.sent && Table(cfg, p, s, ph) && DataInv(cfg, s)
    requires Patient(cfg, p) && n <= 255
    requires qh == ph.(stamp := ph.stamp + [ph.round])
    requires s.sent - s.gate.ackedCount < 256 && s.gate.ackedCount <= s.sent && s.pending != []
    requires t.sent == s.sent + 1 && t.gate.ackedCount == s.gate.ackedCount
    requires t.payloads == s.payloads[SeqOf(s.sent) := s.pending[0]] && s.pending[0].id == s.sent
    requires SeqOf(s.sent) !in s.gate.inflight
    requires t.gate.inflight == s.gate.inflight[SeqOf(s.sent) :=
               Inflight(SeqOf(s.sent), p.At(ph.round), p.At(ph.round), 1, cfg.toaMs(n), cfg.ackTimeoutMs(n))]
    ensures Table(cfg, p, t, qh)
  {
    hide SeqOf, Trip, DataInv;
    forall i | t.gate.ackedCount <= i < t.sent ensures Holds(cfg, p, t, i, qh.stamp[i]) {
      if i < s.sent {
        assert Holds(cfg, p, s, i, ph.stamp[i]);
        DistinctSeqs(i, s.sent);
      }
    }
  }

  /** The next SEQ is free: fewer than 256 consecutive windows are in flight. */
  lemma SeqIsFree(cfg: Config, p: Pace, s: Sys, ph: Phase)
    requires p.Valid() && |ph.stamp| == s.sent && Table(cfg, p, s, ph) && DataInv(cfg, s) && TableInv(cfg, s)
    requires s.sent - s.gate.ackedCount < 256
    ensures SeqOf(s.sent) !in s.gate.inflight && SeqOf(s.sent) !in s.payloads
  {
    hide SeqOf, Trip, SentInv, Encodes, PendingInv, EntryInv;
    if SeqOf(s.sent) in s.payloads {
      var k := SeqOf(s.sent);
      assert HeldInv(cfg, s, k, s.payloads[k]);
      DistinctSeqs(s.payloads[k].id, s.sent);
    }
  }

  lemma SendingClean(cfg: Config, env: Env, s: Sys)
    requires Clean(s) && s.pending != [] && s.seqNo !in s.gate.inflight && s.seqNo !in s.payloads
    ensures Clean(SendNext(cfg, env, s))
  {
    hide Resolutions, ToaSum, Num, AckIds, InOrder, SendFromA, DataFrame;
    Snoc(s.log, SendNext(cfg, env, s).log[|s.log|]);
    AckIdsSnoc(s.log, SendNext(cfg, env, s).log[|s.log|]);
  }

  lemma PairSending(cfg: Config, env: Env, p: Pace, s: Sys, ph: Phase, n: nat) returns (qh: Phase)
    requires cfg.Valid() && p.Valid() && PairInv(cfg, p, s, ph) && AfterReading(cfg, p, ph) && Patient(cfg, p)
    requires TableInv(cfg, s) && DataInv(cfg, s) && CountInv(s)
    requires Lossless(env, n) && s.sent < n && s.pending != []
    requires s.sent - s.gate.ackedCount < 256
    requires forall i :: 0 <= i < |ph.stamp| ==> ph.stamp[i] < ph.round
    ensures PairInv(cfg, p, SendNext(cfg, env, s), qh) && AfterReading(cfg, p, qh) && qh.round == ph.round
    ensures qh == ph.(stamp := ph.stamp + [ph.round])
  {
    hide DataInv, TableInv, CountInv, Num, AckIds, SeqOf, Hop, Trip, ParseData, ParseReply, DataFrame,
      Queues, Table, Clean, Patient, SendFromA;
    qh := ph.(stamp := ph.stamp + [ph.round]);
    NewFrameParses(cfg, s);
    SeqIsFree(cfg, p, s, ph);
    SendingLink(cfg, env, p, s, ph, n);
    var t := SendNext(cfg, env, s);
    var d := Delivery(s.now + cfg.latencyMs, DataFrame(s.seqNo, s.pending[0].payload));
    assert DataAt(cfg, p, d, s.sent, ph.round);
    HopNonNegative(cfg, p, ph);
    QueuesSize(cfg, p, s, ph);
    SendingQueues(cfg, p, s, t, ph, qh, d);
    SendingTable(cfg, p, s, t, ph, qh, 2 + |s.pending[0].payload|);
    SendingClean(cfg, env, s);
  }

  lemma HopNonNegative(cfg: Config, p: Pace, ph: Phase)
    requires p.Valid() && AfterReading(cfg, p, ph)
    ensures ph.dataMax >= 0
  {
  }

  lemma QueuesSize(cfg: Config, p: Pace, s: Sys, ph: Phase)
    requires p.Valid() && |ph.stamp| == s.sent && Queues(cfg, p, s, ph)
    ensures s.gate.ackedCount <= s.rxOkCount <= s.sent
  {
  }

  // ---------------------------------------------------------------------
  // The receiver
  // ---------------------------------------------------------------------

  /** The oldest frame can be read in this round exactly when it is Hop rounds old. */
  lemma FrameIsDue(cfg: Config, p: Pace, s: Sys, ph: Phase)
    requires p.Valid() && s.now == p.At(ph.round) && |ph.stamp| == s.sent && Queues(cfg, p, s, ph)
    ensures Deliverable(s.link.toB, s.now)
            <==> s.rxOkCount < s.sent && ph.round - ph.stamp[s.rxOkCount] >= Hop(cfg, p)
  {
    hide ParseData, ParseReply, SeqOf;
    var b := s.rxOkCount;
    if b < s.sent {
      assert DataAt(cfg, p, s.link.toB[0], b + 0, ph.stamp[b + 0]);
      ReadableFrom(cfg, p, ph.stamp[b], ph.round);
    }
  }

  lemma AnswerParses(cfg: Config, ackSeq: byte, sn: byte)
    requires 1 <= cfg.maxPayload <= 255
    ensures ParseReply(cfg, AckFrame(ackSeq, sn)) == AckFor(sn)
  {
    assert AckFrame(ackSeq, sn)[2..] == [sn];
  }

  lemma EchoLink(cfg: Config, env: Env, p: Pace, s: Sys, ph: Phase, n: nat)
    requires p.Valid() && PairInv(cfg, p, s, ph) && CountInv(s)
    requires Lossless(env, n) && s.sent <= n && s.rxOkCount < s.sent
    requires ph.round - ph.stamp[s.rxOkCount] == Hop(cfg, p)
    ensures forall frame ::
              SendFromB(cfg, env, s.link, s.now, frame)
              == s.link.(usedBa := s.link.usedBa + 1, toA := s.link.toA + [Delivery(s.now + cfg.latencyMs, frame)])
  {
    hide ParseData, ParseReply, SeqOf, Num, AckIds, ToaSum, Table, Hop, Insert;
    var a := s.gate.ackedCount;
    forall frame
      ensures SendFromB(cfg, env, s.link, s.now, frame)
              == s.link.(usedBa := s.link.usedBa + 1, toA := s.link.toA + [Delivery(s.now + cfg.latencyMs, frame)])
    {
      forall x <- s.link.toA ensures x.at < s.now + cfg.latencyMs {
        var j :| 0 <= j < |s.link.toA| && s.link.toA[j] == x;
        assert AckAt(cfg, p, s.link.toA[j], a + j, ph.stamp[a + j]);
        assert ph.stamp[a + j] < ph.stamp[s.rxOkCount];
        AtOrdered(p, ph.stamp[a + j] + Hop(cfg, p), ph.round);
      }
      InsertLast(s.link.toA, Delivery(s.now + cfg.latencyMs, frame));
    }
  }

  lemma EchoData(cfg: Config, p: Pace, s: Sys, t: Sys, ph: Phase)
    requires p.Valid() && |ph.stamp| == s.sent && Queues(cfg, p, s, ph) && s.rxOkCount < s.sent
    requires t.sent == s.sent && t.rxOkCount == s.rxOkCount + 1 && t.link.toB == s.link.toB[1..]
    ensures forall j :: 0 <= j < t.sent - t.rxOkCount ==>
              DataAt(cfg, p, t.link.toB[j], t.rxOkCount + j, ph.stamp[t.rxOkCount + j])
  {
    hide DataAt, AckAt, Hop;
    var b := s.rxOkCount;
    forall j | 0 <= j < t.sent - t.rxOkCount
      ensures DataAt(cfg, p, t.link.toB[j], t.rxOkCount + j, ph.stamp[t.rxOkCount + j])
    {
      assert DataAt(cfg, p, s.link.toB[j + 1], b + (j + 1), ph.stamp[b + (j + 1)]);
    }
  }

  lemma EchoAnswers(cfg: Config, p: Pace, s: Sys, t: Sys, ph: Phase, d: Delivery)
    requires p.Valid() && |ph.stamp| == s.sent && Queues(cfg, p, s, ph) && s.rxOkCount < s.sent
    requires t.sent == s.sent && t.gate.ackedCount == s.gate.ackedCount && t.rxOkCount == s.rxOkCount + 1
    requires t.link.toA == s.link.toA + [d] && AckAt(cfg, p, d, s.rxOkCount, ph.stamp[s.rxOkCount])
    ensures forall j :: 0 <= j < t.rxOkCount - t.gate.ackedCount ==>
              AckAt(cfg, p, t.link.toA[j], t.gate.ackedCount + j, ph.stamp[t.gate.ackedCount + j])
  {
    hide DataAt, AckAt, Hop;
    forall j | 0 <= j < t.rxOkCount - t.gate.ackedCount
      ensures AckAt(cfg, p, t.link.toA[j], t.gate.ackedCount + j, ph.stamp[t.gate.ackedCount + j])
    {
      if j < |s.link.toA| {
        assert AckAt(cfg, p, s.link.toA[j], s.gate.ackedCount + j, ph.stamp[s.gate.ackedCount + j]);
      }
    }
  }

  lemma EchoQueues(cfg: Config, p: Pace, s: Sys, t: Sys, ph: Phase, d: Delivery)
    requires p.Valid() && |ph.stamp| == s.sent && Queues(cfg, p, s, ph) && Stamped(s, ph)
    requires s.rxOkCount < s.sent && ph.round - ph.stamp[s.rxOkCount] == Hop(cfg, p)
    requires AfterReading(cfg, p, ph)
    requires t.sent == s.sent && t.gate.ackedCount == s.gate.ackedCount && t.rxOkCount == s.rxOkCount + 1
    requires t.link.toA == s.link.toA + [d] && t.link.toB == s.link.toB[1..]
    requires AckAt(cfg, p, d, s.rxOkCount, ph.stamp[s.rxOkCount])
    ensures Queues(cfg, p, t, ph.(dataMax := Hop(cfg, p) - 1, ackMin := Hop(cfg, p)))
  {
    hide DataAt, AckAt, Hop;
    EchoData(cfg, p, s, t, ph);
    EchoAnswers(cfg, p, s, t, ph, d);
    forall i | s.rxOkCount + 1 <= i < s.sent ensures ph.round - ph.stamp[i] <= Hop(cfg, p) - 1 {
      assert ph.stamp[s.rxOkCount] < ph.stamp[i];
    }
  }

  lemma EchoClean(cfg: Config, env: Env, s: Sys, sn: byte, payload: bytes)
    requires Clean(s)
    ensures Clean(Echo(cfg, env, s, sn, payload))
  {
    hide Resolutions, ToaSum, Num, AckIds, InOrder, SendFromB;
    var e, f := RxOk(s.now, sn, payload), AckSent(s.now, sn);
    Snoc2(s.log, e, f);
    AckIdsSnoc(s.log, e);
    AckIdsSnoc(s.log + [e], f);
    assert s.log + [e, f] == s.log + [e] + [f];
  }

  /** `RxNode.process_once` reads the one frame that is due and answers it. */
  lemma PairRelaying(cfg: Config, env: Env, p: Pace, s: Sys, ph: Phase, n: nat)
    requires cfg.Valid() && p.Valid() && PairInv(cfg, p, s, ph) && AfterReading(cfg, p, ph)
    requires CountInv(s) && Lossless(env, n) && s.sent <= n
    ensures var t := RxProcessOnce(cfg, env, s);
            && PairInv(cfg, p, t, ph.(dataMax := Hop(cfg, p) - 1, ackMin := Hop(cfg, p)))
            && t.sent == s.sent && t.gate == s.gate && t.pending == s.pending && t.now == s.now
  {
    hide CountInv, Num, AckIds, SeqOf, Hop, Trip, ParseData, ParseReply, AckFrame, Table, Clean, SendFromB, DataAt,
      AckAt;
    FrameIsDue(cfg, p, s, ph);
    if Deliverable(s.link.toB, s.now) {
      PairRelayingDue(cfg, env, p, s, ph, n);
    } else {
      var qh := ph.(dataMax := Hop(cfg, p) - 1, ackMin := Hop(cfg, p));
      forall i | s.rxOkCount <= i < s.sent ensures ph.round - ph.stamp[i] <= Hop(cfg, p) - 1 {
        assert i > s.rxOkCount ==> ph.stamp[s.rxOkCount] < ph.stamp[i];
      }
      assert Queues(cfg, p, s, qh);
      TableSameStamps(cfg, p, s, ph, qh);
    }
  }

  lemma TableSameStamps(cfg: Config, p: Pace, s: Sys, ph: Phase, qh: Phase)
    requires p.Valid() && |ph.stamp| == s.sent && qh.stamp == ph.stamp && Table(cfg, p, s, ph)
    ensures Table(cfg, p, s, qh)
  {
    hide Holds;
  }

  lemma PairRelayingDue(cfg: Config, env: Env, p: Pace, s: Sys, ph: Phase, n: nat)
    requires cfg.Valid() && p.Valid() && PairInv(cfg, p, s, ph) && AfterReading(cfg, p, ph)
    requires CountInv(s) && Lossless(env, n) && s.sent <= n && Deliverable(s.link.toB, s.now)
    ensures var t := Relay(cfg, env, s);
            && PairInv(cfg, p, t, ph.(dataMax := Hop(cfg, p) - 1, ackMin := Hop(cfg, p)))
            && t.sent == s.sent && t.gate == s.gate && t.pending == s.pending && t.now == s.now
  {
    hide CountInv, Num, AckIds, SeqOf, Hop, Trip, ParseData, ParseReply, AckFrame, Table, Clean, SendFromB;
    var b := s.rxOkCount;
    var qh := ph.(dataMax := Hop(cfg, p) - 1, ackMin := Hop(cfg, p));
    FrameIsDue(cfg, p, s, ph);
    assert DataAt(cfg, p, s.link.toB[0], b + 0, ph.stamp[b + 0]);
    var parsed := ParseData(cfg, s.link.toB[0].frame);
    EchoLinkPopped(cfg, env, p, s, ph, n);
    AnswerParses(cfg, s.ackSeq, parsed.sn);
    var d := Delivery(s.now + cfg.latencyMs, AckFrame(s.ackSeq, parsed.sn));
    assert AckAt(cfg, p, d, b, ph.stamp[b]);
    var t := Relay(cfg, env, s);
    EchoQueues(cfg, p, s, t, ph, d);
    SameTable(cfg, p, s, t, ph);
    TableSameStamps(cfg, p, t, ph, qh);
    CleanPopped(s);
    EchoClean(cfg, env, PopB(s), parsed.sn, parsed.payload);
  }

  lemma CleanPopped(s: Sys)
    requires Clean(s) && s.link.toB != []
    ensures Clean(PopB(s))
  {
  }

  lemma EchoLinkPopped(cfg: Config, env: Env, p: Pace, s: Sys, ph: Phase, n: nat)
    requires p.Valid() && PairInv(cfg, p, s, ph) && CountInv(s) && s.link.toB != []
    requires Lossless(env, n) && s.sent <= n && s.rxOkCount < s.sent
    requires ph.round - ph.stamp[s.rxOkCount] == Hop(cfg, p)
    ensures forall frame ::
              SendFromB(cfg, env, PopB(s).link, s.now, frame)
              == PopB(s).link.(usedBa := s.link.usedBa + 1,
                               toA := s.link.toA + [Delivery(s.now + cfg.latencyMs, frame)])
  {
    hide PairInv, CountInv, Hop, Insert;
    EchoLink(cfg, env, p, s, ph, n);
    forall frame
      ensures SendFromB(cfg, env, PopB(s).link, s.now, frame)
              == PopB(s).link.(usedBa := s.link.usedBa + 1,
                               toA := s.link.toA + [Delivery(s.now + cfg.latencyMs, frame)])
    {
      assert SendFromB(cfg, env, s.link, s.now, frame).usedBa == s.link.usedBa + 1;
      assert SendFromB(cfg, env, s.link, s.now, frame).toA == s.link.toA + [Delivery(s.now + cfg.latencyMs, frame)];
      UsedBaOf(cfg, env, p, s, ph, n);
    }
  }

  lemma UsedBaOf(cfg: Config, env: Env, p: Pace, s: Sys, ph: Phase, n: nat)
    requires p.Valid() && PairInv(cfg, p, s, ph) && CountInv(s)
    requires Lossless(env, n) && s.sent <= n && s.rxOkCount < s.sent
    ensures !env.dropBa(s.link.usedBa)
  {
    hide Queues, Table, Clean, Num, ToaSum;
  }

  // ---------------------------------------------------------------------
  // A whole round
  // ---------------------------------------------------------------------

  lemma InflightCount(cfg: Config, s: Sys)
    requires DataInv(cfg, s) && CountInv(s) && Clean(s)
    ensures |s.gate.inflight| == s.sent - s.gate.ackedCount
  {
    hide Num, ToaSum, AckIds, InOrder, PendingInv, HeldInv, SentInv;
  }

  /** The link drops none of the frames that a run needs for its windows. */
  ghost predicate NoLoss(cfg: Config, env: Env)
    requires cfg.window.Valid()
  {
    forall n: nat :: CanBuild(cfg, env, n) ==> Lossless(env, n)
  }

  lemma NoLossSoFar(cfg: Config, env: Env, s: Sys)
    requires cfg.Valid() && NoLoss(cfg, env) && Reachable(cfg, env, s)
    ensures Lossless(env, s.sent)
    ensures s.pending != [] ==> Lossless(env, s.sent + 1)
  {
    hide Reachable, CanBuild, TableInv, PendingInv, HeldInv, SentInv, CountInv;
    BuiltFromRows(cfg, env, s);
    CoreOf(cfg, env, s);
  }

  /** Everything the rounds rely on. */
  ghost predicate Calm(cfg: Config, env: Env, p: Pace) {
    && cfg.Valid() && p.Valid() && cfg.maxInflight <= 256
    && Patient(cfg, p) && NoLoss(cfg, env)
  }

  /** At the start of a round, every window was sent in an earlier one. */
  ghost predicate RoundStart(cfg: Config, p: Pace, s: Sys, ph: Phase)
    requires p.Valid()
  {
    && PairInv(cfg, p, s, ph) && AtStart(cfg, p, ph)
    && forall i :: 0 <= i < |ph.stamp| ==> ph.stamp[i] < ph.round
  }

  lemma CoreOf(cfg: Config, env: Env, s: Sys)
    requires cfg.Valid() && Reachable(cfg, env, s)
    ensures TableInv(cfg, s) && DataInv(cfg, s) && CountInv(s)
  {
    hide Reachable, TableInv, DataInv, CountInv, FateInv, OriginInv, FrameInv, After, Emitted;
    CoreInvariant(cfg, env, s);
  }

  lemma QueueWindowFrame(cfg: Config, env: Env, s: Sys)
    requires cfg.window.Valid()
    ensures var t := QueueWindow(cfg, env, s);
            t.sent == s.sent && t.gate == s.gate && t.link == s.link && t.now == s.now
  {
    hide Feed;
  }

  /** The transmitter's half of a round: at most one answer is read, nothing expires, at most one
      window is sent. */
  lemma TxHalf(cfg: Config, env: Env, p: Pace, s: Sys, ph: Phase) returns (qh: Phase)
    requires Calm(cfg, env, p) && Reachable(cfg, env, s) && RoundStart(cfg, p, s, ph)
    ensures PairInv(cfg, p, TxProcessOnce(cfg, env, s), qh) && AfterReading(cfg, p, qh) && qh.round == ph.round
    ensures TxProcessOnce(cfg, env, s)
            == SendPending(cfg, env, HandleIncoming(cfg, QueueWindow(cfg, env, s)))
    ensures qh.stamp == ph.stamp || qh.stamp == ph.stamp + [ph.round]
    ensures TxProcessOnce(cfg, env, s).sent == |qh.stamp|
  {
    hide Reachable, PairInv, TableInv, DataInv, CountInv, HandleIncoming, RetryExpired, QueueWindow,
      Patient, NoLoss, CanSend, SendNext, Hop, Trip;
    var a := QueueWindow(cfg, env, s);
    StepReachable(cfg, env, s, Sampling);
    PairSampling(cfg, env, p, s, ph);
    QueueWindowFrame(cfg, env, s);
    CoreOf(cfg, env, a);
    FewInFlight(cfg, p, a, ph);
    PairIncoming(cfg, p, a, ph);
    var b := HandleIncoming(cfg, a);
    HandleIncomingReachable(cfg, env, a);
    CoreOf(cfg, env, b);
    qh := ph.(ackMax := Trip(cfg, p) - 1);
    NothingExpires(cfg, env, p, b, qh);
    StampCount(cfg, p, b, qh);
    if b.pending != [] && CanSend(cfg, b.gate, b.now) {
      NoLossSoFar(cfg, env, b);
      RoomToSend(cfg, p, b, qh);
      qh := PairSending(cfg, env, p, b, qh, b.sent + 1);
      StampCount(cfg, p, SendNext(cfg, env, b), qh);
    }
  }

  lemma StampCount(cfg: Config, p: Pace, s: Sys, ph: Phase)
    requires p.Valid() && PairInv(cfg, p, s, ph)
    ensures s.sent == |ph.stamp| && Clean(s)
  {
    hide Queues, Table, Clean;
  }

  lemma FewInFlight(cfg: Config, p: Pace, s: Sys, ph: Phase)
    requires p.Valid() && PairInv(cfg, p, s, ph) && cfg.maxInflight <= 256
    requires TableInv(cfg, s) && DataInv(cfg, s) && CountInv(s)
    ensures s.sent - s.gate.ackedCount <= 256
  {
    hide PairInv, DataInv, CountInv, EntryInv;
    StampCount(cfg, p, s, ph);
    InflightCount(cfg, s);
  }

  lemma RoomToSend(cfg: Config, p: Pace, s: Sys, ph: Phase)
    requires p.Valid() && PairInv(cfg, p, s, ph) && cfg.maxInflight <= 256 && CanSend(cfg, s.gate, s.now)
    requires DataInv(cfg, s) && CountInv(s)
    ensures s.sent - s.gate.ackedCount < 256
  {
    hide PairInv, DataInv, CountInv, PaceDeadline;
    StampCount(cfg, p, s, ph);
    InflightCount(cfg, s);
  }

  /** One round of `run_pair` and the sleep after it. */
  lemma PairRound(cfg: Config, env: Env, p: Pace, s: Sys, ph: Phase) returns (qh: Phase, nh: Phase)
    requires Calm(cfg, env, p) && Reachable(cfg, env, s) && RoundStart(cfg, p, s, ph)
    ensures var t := RxProcessOnce(cfg, env, TxProcessOnce(cfg, env, s));
            && PairInv(cfg, p, t, qh)
            && RoundStart(cfg, p, Tick(t, p.step), nh)
            && nh.round == ph.round + 1 && nh.stamp == qh.stamp
            && (nh.stamp == ph.stamp || nh.stamp == ph.stamp + [ph.round])
            && t.gate == TxProcessOnce(cfg, env, s).gate && t.pending == TxProcessOnce(cfg, env, s).pending
            && t.now == s.now
  {
    hide Reachable, PairInv, TableInv, DataInv, CountInv, TxProcessOnce, RxProcessOnce, Patient, NoLoss, Hop, Trip;
    var mh := TxHalf(cfg, env, p, s, ph);
    var u := TxProcessOnce(cfg, env, s);
    TxProcessOnceReachable(cfg, env, s);
    CoreOf(cfg, env, u);
    NoLossSoFar(cfg, env, u);
    PairRelaying(cfg, env, p, u, mh, u.sent);
    var t := RxProcessOnce(cfg, env, u);
    qh := mh.(dataMax := Hop(cfg, p) - 1, ackMin := Hop(cfg, p));
    nh := qh.(round := qh.round + 1, dataMax := Hop(cfg, p), ackMin := Hop(cfg, p) + 1, ackMax := Trip(cfg, p));
    PairTick(cfg, p, t, qh, nh);
    NowOf(cfg, p, s, ph);
    NowOf(cfg, p, t, qh);
  }

  lemma NowOf(cfg: Config, p: Pace, s: Sys, ph: Phase)
    requires p.Valid() && PairInv(cfg, p, s, ph)
    ensures s.now == p.At(ph.round)
  {
    hide Queues, Table, Clean;
  }

  lemma NextRound(p: Pace, q: int)
    ensures p.At(q + 1) == p.At(q) + p.step
  {
    assert (q + 1) * p.step == q * p.step + p.step;
  }

  lemma PairTick(cfg: Config, p: Pace, t: Sys, qh: Phase, nh: Phase)
    requires p.Valid() && PairInv(cfg, p, t, qh) && AtEnd(cfg, p, qh)
    requires nh == qh.(round := qh.round + 1, dataMax := Hop(cfg, p), ackMin := Hop(cfg, p) + 1, ackMax := Trip(cfg, p))
    ensures RoundStart(cfg, p, Tick(t, p.step), nh)
  {
    hide Hop, Trip, DataAt, AckAt, Num, AckIds, InOrder, Table, Holds, Pace.At;
    var v := Tick(t, p.step);
    NextRound(p, qh.round);
    SameTable(cfg, p, t, v, qh);
    TableSameStamps(cfg, p, v, qh, nh);
  }

  lemma InitPair(cfg: Config, p: Pace)
    requires p.Valid()
    ensures RoundStart(cfg, p, Init(p.start), Phase(0, [], Hop(cfg, p), Hop(cfg, p) + 1, Trip(cfg, p)))
  {
    hide Hop, Trip;
  }

  // ---------------------------------------------------------------------
  // The result
  // ---------------------------------------------------------------------

  lemma {:induction false} RunPairClean(cfg: Config, env: Env, p: Pace, s: Sys, ph: Phase, m: nat)
    requires Calm(cfg, env, p) && Reachable(cfg, env, s) && RoundStart(cfg, p, s, ph)
    ensures Clean(RunPair(cfg, env, s, p.step, m))
    decreases m
  {
    hide Reachable, PairInv, TxProcessOnce, RxProcessOnce, Clean, Patient, NoLoss, AtStart, IsDone;
    if m == 0 {
      StampCount(cfg, p, s, ph);
    } else {
      var qh, nh := PairRound(cfg, env, p, s, ph);
      var t := RxProcessOnce(cfg, env, TxProcessOnce(cfg, env, s));
      StampCount(cfg, p, t, qh);
      if !IsDone(cfg, t) {
        TxProcessOnceReachable(cfg, env, s);
        RxProcessOnceReachable(cfg, env, TxProcessOnce(cfg, env, s));
        StepReachable(cfg, env, t, Ticking(p.step));
        RunPairClean(cfg, env, p, Tick(t, p.step), nh, m - 1);
      }
    }
  }

  /** Over a link that drops nothing, with at most 256 windows in flight and timeouts that cover the
      round trip, `run_pair` never resends, fails or loses a window: every window is acknowledged on
      its first attempt, in the order of sending, however long the run. */
  lemma LossFreeDelivery(cfg: Config, env: Env, p: Pace, m: nat)
    requires Calm(cfg, env, p)
    ensures var t := RunPair(cfg, env, Init(p.start), p.step, m);
            && Num(Resent, t.log) == 0 && Num(Failed, t.log) == 0 && t.lost == {}
            && Num(AnySent, t.log) == t.sent
            && |AckIds(t.log)| == Num(Acked, t.log) <= t.sent
            && (forall j :: 0 <= j < |AckIds(t.log)| ==> AckIds(t.log)[j] == Some(j))
  {
    hide Reachable, RunPair, Num, AckIds, Patient, NoLoss, RoundStart, Hop, Trip, DataInv, TableInv;
    InitReachable(cfg, env, p.start);
    InitPair(cfg, p);
    RunPairClean(cfg, env, p, Init(p.start), Phase(0, [], Hop(cfg, p), Hop(cfg, p) + 1, Trip(cfg, p)), m);
    RunPairReachable(cfg, env, Init(p.start), p.step, m);
    var t := RunPair(cfg, env, Init(p.start), p.step, m);
    CoreOf(cfg, env, t);
    FrameConservation(cfg, env, t);
  }
}
