/** Soundness of acknowledgements in runs of any length: without retries, and when a round trip takes
    no longer than 256 send spacings, a late answer can never be taken for a later window. The link
    may drop anything. */
module ArqTimedSoundness {
  import opened Basics
  import opened Windows
  import opened ArqModel
  import opened ArqRuns
  import opened ArqInvariants
  import opened ArqLink
  import opened ArqSeqWrap
  import opened ArqLossFree
  import Arith

  // ---------------------------------------------------------------------
  // The state between two phases of a round
  // ---------------------------------------------------------------------

  /** The receiver has logged a frame with the encoding of window id. */
  ghost predicate Received(cfg: Config, log: seq<Event>, dataset: seq<seq<real>>, id: nat) {
    exists j :: 0 <= j < |log| && ReceivedAt(cfg, log, dataset, id, j)
  }

  predicate ReceivedAt(cfg: Config, log: seq<Event>, dataset: seq<seq<real>>, id: nat, j: nat) {
    j < |log| && id < |dataset| && log[j].RxOk? && log[j].payload == cfg.encode(dataset[id])
  }

  /** Frame d carries window id, which was sent in round q. */
  ghost predicate Carries(cfg: Config, p: Pace, dataset: seq<seq<real>>, d: Delivery, id: nat, q: int) {
    && id < |dataset|
    && d.at == p.At(q) + cfg.latencyMs
    && ParseData(cfg, d.frame) == DataFor(SeqOf(id), cfg.encode(dataset[id]))
  }

  ghost predicate DataKnown(cfg: Config, p: Pace, s: Sys, ph: Phase, d: Delivery) {
    exists id: nat :: id < |ph.stamp| && Carries(cfg, p, s.dataset, d, id, ph.stamp[id])
                      && ph.round - ph.stamp[id] <= ph.dataMax
  }

  ghost predicate AckKnown(cfg: Config, p: Pace, s: Sys, ph: Phase, d: Delivery)
    requires p.Valid()
  {
    exists id: nat :: id < |ph.stamp| && AckAt(cfg, p, d, id, ph.stamp[id])
                      && Received(cfg, s.log, s.dataset, id)
                      && ph.ackMin <= ph.round - ph.stamp[id] <= ph.ackMax
  }

  ghost predicate Sorted(q: seq<Delivery>) {
    forall i, j :: 0 <= i < j < |q| ==> q[i].at < q[j].at
  }

  ghost predicate AirKnown(cfg: Config, p: Pace, s: Sys, ph: Phase)
    requires p.Valid()
  {
    && Sorted(s.link.toA) && Sorted(s.link.toB)
    && (forall d <- s.link.toB :: DataKnown(cfg, p, s, ph, d))
    && (forall d <- s.link.toA :: AckKnown(cfg, p, s, ph, d))
  }

  /** Window j is sent at least (j - i) spacings after window i. */
  ghost predicate Spaced(cfg: Config, p: Pace, m: nat, s: Sys, ph: Phase) {
    && (forall i, j :: 0 <= i < j < |ph.stamp| ==> p.At(ph.stamp[j]) - p.At(ph.stamp[i]) >= (j - i) * m)
    && (ph.stamp != [] ==> s.gate.lastTxMs == Some(p.At(ph.stamp[|ph.stamp| - 1]))
                           && PaceDeadline(cfg, s.gate) >= p.At(ph.stamp[|ph.stamp| - 1]) + m)
  }

  /** The payload table holds, for each SEQ, the latest window sent under it or nothing. */
  ghost predicate Latest(s: Sys) {
    forall k <- s.payloads :: s.sent - s.payloads[k].id <= 256
  }

  /** Every acknowledged window had been received before. */
  ghost predicate SoundLog(cfg: Config, log: seq<Event>, dataset: seq<seq<real>>) {
    forall i :: 0 <= i < |log| && log[i].AckReceived? && log[i].window.Some? ==>
      SoundAt(cfg, log, dataset, i, log[i].window.value)
  }

  ghost predicate SoundAt(cfg: Config, log: seq<Event>, dataset: seq<seq<real>>, i: nat, w: nat) {
    exists j :: 0 <= j < i && ReceivedAt(cfg, log, dataset, w, j)
  }

  ghost predicate Timed(cfg: Config, p: Pace, m: nat, s: Sys, ph: Phase)
    requires p.Valid()
  {
    && s.now == p.At(ph.round)
    && Stamped(s, ph)
    && AirKnown(cfg, p, s, ph)
    && Spaced(cfg, p, m, s, ph)
    && Latest(s)
    && SoundLog(cfg, s.log, s.dataset)
  }

  /** No retries, at least m >= 1 milliseconds between sends, and a round trip within 256 of them. */
  ghost predicate Brisk(cfg: Config, p: Pace, m: nat) {
    && cfg.Valid() && p.Valid() && cfg.maxRetries == 0
    && (forall n: nat :: 2 <= n <= 2 + cfg.maxPayload ==> cfg.Spacing(n) >= m)
    && Trip(cfg, p) * p.step <= 256 * m
  }

  // ---------------------------------------------------------------------
  // Growing logs and datasets
  // ---------------------------------------------------------------------

  /** t continues s: its log and dataset only grow. */
  ghost predicate Continues(s: Sys, t: Sys) {
    && |s.log| <= |t.log| && t.log[..|s.log|] == s.log
    && |s.dataset| <= |t.dataset| && t.dataset[..|s.dataset|] == s.dataset
  }

  lemma ReceivedGrows(cfg: Config, s: Sys, t: Sys)
    requires Continues(s, t)
    ensures forall id :: Received(cfg, s.log, s.dataset, id) ==> Received(cfg, t.log, t.dataset, id)
    ensures forall id, j :: ReceivedAt(cfg, s.log, s.dataset, id, j) ==> ReceivedAt(cfg, t.log, t.dataset, id, j)
  {
    forall id: nat, j: nat | ReceivedAt(cfg, s.log, s.dataset, id, j) ensures ReceivedAt(cfg, t.log, t.dataset, id, j) {
      assert t.log[j] == t.log[..|s.log|][j];
      assert t.dataset[id] == t.dataset[..|s.dataset|][id];
    }
  }

  lemma SoundGrows(cfg: Config, s: Sys, t: Sys)
    requires Continues(s, t) && SoundLog(cfg, s.log, s.dataset)
    requires forall i :: |s.log| <= i < |t.log| && t.log[i].AckReceived? && t.log[i].window.Some? ==>
               SoundAt(cfg, t.log, t.dataset, i, t.log[i].window.value)
    ensures SoundLog(cfg, t.log, t.dataset)
  {
    hide ReceivedAt, Received;
    ReceivedGrows(cfg, s, t);
    forall i | 0 <= i < |t.log| && t.log[i].AckReceived? && t.log[i].window.Some?
      ensures SoundAt(cfg, t.log, t.dataset, i, t.log[i].window.value)
    {
      if i < |s.log| {
        assert t.log[i] == t.log[..|s.log|][i] == s.log[i];
        var j :| 0 <= j < i && ReceivedAt(cfg, s.log, s.dataset, s.log[i].window.value, j);
        assert ReceivedAt(cfg, t.log, t.dataset, t.log[i].window.value, j);
      }
    }
  }

  /** What is known about frames in the air survives any continuation that keeps the queues or parts
      of them and does not change the phase. */
  lemma AirGrows(cfg: Config, p: Pace, s: Sys, t: Sys, ph: Phase)
    requires p.Valid() && Continues(s, t)
    ensures forall d :: DataKnown(cfg, p, s, ph, d) ==> DataKnown(cfg, p, t, ph, d)
    ensures forall d :: AckKnown(cfg, p, s, ph, d) ==> AckKnown(cfg, p, t, ph, d)
  {
    hide Received, ParseData, ParseReply, SeqOf, Hop;
    ReceivedGrows(cfg, s, t);
    forall d | DataKnown(cfg, p, s, ph, d) ensures DataKnown(cfg, p, t, ph, d) {
      var id: nat :| id < |ph.stamp| && Carries(cfg, p, s.dataset, d, id, ph.stamp[id])
                     && ph.round - ph.stamp[id] <= ph.dataMax;
      assert t.dataset[id] == t.dataset[..|s.dataset|][id];
      assert Carries(cfg, p, t.dataset, d, id, ph.stamp[id]);
    }
  }

  /** Steps that send nothing, read nothing and acknowledge nothing. */
  lemma TimedQuiet(cfg: Config, p: Pace, m: nat, s: Sys, t: Sys, ph: Phase)
    requires p.Valid() && Timed(cfg, p, m, s, ph) && Continues(s, t)
    requires t.now == s.now && t.sent == s.sent && t.link == s.link
    requires t.gate.lastTxMs == s.gate.lastTxMs && t.gate.lastToaMs == s.gate.lastToaMs
    requires forall k <- t.payloads :: k in s.payloads && t.payloads[k] == s.payloads[k]
    requires forall i :: |s.log| <= i < |t.log| ==> !t.log[i].AckReceived?
    ensures Timed(cfg, p, m, t, ph)
  {
    hide DataKnown, AckKnown, SoundAt, Continues;
    AirGrows(cfg, p, s, t, ph);
    SoundGrows(cfg, s, t);
  }

  // ---------------------------------------------------------------------
  // The steps of the transmitter
  // ---------------------------------------------------------------------

  lemma TimedSampling(cfg: Config, env: Env, p: Pace, m: nat, s: Sys, ph: Phase)
    requires cfg.window.Valid() && p.Valid() && Timed(cfg, p, m, s, ph)
    ensures Timed(cfg, p, m, QueueWindow(cfg, env, s), ph)
    ensures QueueWindow(cfg, env, s).sent == s.sent
  {
    hide Feed, Timed;
    TimedQuiet(cfg, p, m, s, QueueWindow(cfg, env, s), ph);
  }

  lemma TimedFailing(cfg: Config, p: Pace, m: nat, s: Sys, ph: Phase, sn: byte)
    requires p.Valid() && Timed(cfg, p, m, s, ph) && sn in s.gate.inflight
    ensures Timed(cfg, p, m, Fail(s, sn), ph)
  {
    hide Without, Timed;
    TimedQuiet(cfg, p, m, s, Fail(s, sn), ph);
  }

  lemma {:induction false} TimedFailAll(cfg: Config, p: Pace, m: nat, s: Sys, ph: Phase, sns: seq<byte>)
    requires p.Valid() && Timed(cfg, p, m, s, ph)
    ensures Timed(cfg, p, m, FailAll(s, sns), ph) && FailAll(s, sns).sent == s.sent
    decreases |sns|
  {
    hide Drop, Timed;
    if sns != [] {
      if sns[0] in s.gate.inflight {
        TimedFailing(cfg, p, m, s, ph, sns[0]);
        TimedFailAll(cfg, p, m, Fail(s, sns[0]), ph, sns[1..]);
      } else {
        TimedFailAll(cfg, p, m, s, ph, sns[1..]);
      }
    }
  }

  lemma TimedExpiring(cfg: Config, env: Env, p: Pace, m: nat, s: Sys, ph: Phase)
    requires p.Valid() && Timed(cfg, p, m, s, ph) && cfg.maxRetries == 0 && TableInv(cfg, s)
    ensures Timed(cfg, p, m, RetryExpired(cfg, env, s), ph) && RetryExpired(cfg, env, s).sent == s.sent
  {
    hide TableInv, Timed, ExpiredFailures, ExpiredSequences, FailAll;
    NothingToRetry(cfg, s, s.gate.order);
    TimedFailAll(cfg, p, m, s, ph, ExpiredFailures(cfg, s.gate, s.now, s.gate.order));
  }

  /** The first queued answer is due exactly when its window is a full round trip old. */
  lemma KnownAnswerDue(cfg: Config, p: Pace, s: Sys, ph: Phase, id: nat)
    requires p.Valid() && s.now == p.At(ph.round) && s.link.toA != [] && id < |ph.stamp|
    requires AckAt(cfg, p, s.link.toA[0], id, ph.stamp[id])
    requires Hop(cfg, p) + 1 <= ph.round - ph.stamp[id] <= Trip(cfg, p)
    ensures Deliverable(s.link.toA, s.now) <==> ph.round - ph.stamp[id] == Trip(cfg, p)
  {
    hide ParseReply;
    ReadableFrom(cfg, p, ph.stamp[id] + Hop(cfg, p), ph.round);
  }

  /** All later answers belong to windows younger than a full round trip. */
  lemma LaterAnswersAreYounger(cfg: Config, p: Pace, s: Sys, ph: Phase)
    requires p.Valid() && s.now == p.At(ph.round) && AirKnown(cfg, p, s, ph) && AtStart(cfg, p, ph)
    ensures forall x <- s.link.toA ::
              (s.link.toA[0].at < x.at || !Deliverable(s.link.toA, s.now)) ==>
                AckKnown(cfg, p, s, ph.(ackMax := Trip(cfg, p) - 1), x)
  {
    hide Received, ParseReply, ParseData, SeqOf, DataKnown;
    if s.link.toA != [] {
      var first := s.link.toA[0];
      assert AckKnown(cfg, p, s, ph, first);
      var id0: nat :| id0 < |ph.stamp| && AckAt(cfg, p, first, id0, ph.stamp[id0])
                      && Received(cfg, s.log, s.dataset, id0)
                      && ph.ackMin <= ph.round - ph.stamp[id0] <= ph.ackMax;
      KnownAnswerDue(cfg, p, s, ph, id0);
      var qh := ph.(ackMax := Trip(cfg, p) - 1);
      forall x <- s.link.toA | first.at < x.at || !Deliverable(s.link.toA, s.now)
        ensures AckKnown(cfg, p, s, qh, x)
      {
        assert AckKnown(cfg, p, s, ph, x);
        var id: nat :| id < |ph.stamp| && AckAt(cfg, p, x, id, ph.stamp[id])
                       && Received(cfg, s.log, s.dataset, id)
                       && ph.ackMin <= ph.round - ph.stamp[id] <= ph.ackMax;
        FirstIsEarliest(s.link.toA, x);
        AtOrdered(p, ph.stamp[id0] + Hop(cfg, p), ph.stamp[id] + Hop(cfg, p));
        AtOrdered(p, ph.stamp[id] + Hop(cfg, p), ph.stamp[id0] + Hop(cfg, p));
        assert AckAt(cfg, p, x, id, qh.stamp[id]);
      }
    }
  }

  lemma FirstIsEarliest(q: seq<Delivery>, x: Delivery)
    requires Sorted(q) && x in q
    ensures q[0].at <= x.at
  {
    var j :| 0 <= j < |q| && q[j] == x;
  }

  /** Windows sent under the same SEQ are so far apart that an answer is read before the later one is
      sent. */
  lemma AnswerIsForThisWindow(cfg: Config, p: Pace, m: nat, s: Sys, ph: Phase, id: nat, w: nat)
    requires Brisk(cfg, p, m) && Stamped(s, ph) && Spaced(cfg, p, m, s, ph)
    requires id < s.sent && w < s.sent && SeqOf(id) == SeqOf(w) && s.sent - w <= 256
    requires ph.round - ph.stamp[id] == Trip(cfg, p) && ph.stamp[w] < ph.round
    ensures id == w
  {
    hide Trip, PaceDeadline;
    assert p.At(ph.round) - p.At(ph.stamp[id]) == Trip(cfg, p) * p.step by {
      assert Trip(cfg, p) * p.step == ph.round * p.step - ph.stamp[id] * p.step;
    }
    AtOrdered(p, ph.stamp[w], ph.round);
    if id < w {
      Arith.SameResidue(id, w, 256);
      Arith.MulMonotone(256, w - id, m);
    } else if w < id {
      Arith.SameResidue(w, id, 256);
    }
  }

  lemma TimedAcknowledging(cfg: Config, p: Pace, m: nat, s: Sys, t: Sys, ph: Phase, qh: Phase, sn: byte)
    requires p.Valid() && Timed(cfg, p, m, s, ph)
    requires qh == ph.(ackMax := qh.ackMax)
    requires sn in s.gate.inflight && sn in s.payloads && s.link.toA != []
    requires t == Acknowledge(PopA(s), sn)
    requires Received(cfg, s.log, s.dataset, s.payloads[sn].id)
    requires forall x <- s.link.toA[1..] :: AckKnown(cfg, p, s, qh, x)
    ensures Timed(cfg, p, m, t, qh)
  {
    hide Without, ReceivedAt, DataKnown, AckKnown, AckEvent;
    AckEventNames(PopA(s), sn);
    AirGrows(cfg, p, s, t, qh);
    DataKnownAnyAckMax(cfg, p, s, ph, qh);
    ReceivedGrows(cfg, s, t);
    var j :| 0 <= j < |s.log| && ReceivedAt(cfg, s.log, s.dataset, s.payloads[sn].id, j);
    assert ReceivedAt(cfg, t.log, t.dataset, s.payloads[sn].id, j);
    assert SoundAt(cfg, t.log, t.dataset, |s.log|, s.payloads[sn].id);
    SoundGrows(cfg, s, t);
  }

  lemma DataKnownAnyAckMax(cfg: Config, p: Pace, s: Sys, ph: Phase, qh: Phase)
    requires qh == ph.(ackMax := qh.ackMax)
    ensures forall d :: DataKnown(cfg, p, s, ph, d) ==> DataKnown(cfg, p, s, qh, d)
  {
    hide Carries;
    forall d | DataKnown(cfg, p, s, ph, d) ensures DataKnown(cfg, p, s, qh, d) {
      var id: nat :| id < |ph.stamp| && Carries(cfg, p, s.dataset, d, id, ph.stamp[id])
                     && ph.round - ph.stamp[id] <= ph.dataMax;
      assert Carries(cfg, p, s.dataset, d, id, qh.stamp[id]);
    }
  }

  lemma TimedPopping(cfg: Config, p: Pace, m: nat, s: Sys, ph: Phase, qh: Phase)
    requires p.Valid() && Timed(cfg, p, m, s, ph) && s.link.toA != []
    requires qh == ph.(ackMax := qh.ackMax)
    requires forall x <- s.link.toA[1..] :: AckKnown(cfg, p, s, qh, x)
    ensures Timed(cfg, p, m, PopA(s), qh)
  {
    hide DataKnown, AckKnown, SoundAt;
    AirGrows(cfg, p, s, PopA(s), qh);
    DataKnownAnyAckMax(cfg, p, s, ph, qh);
  }

  /** At the start of a round, every window was sent in an earlier one. */
  ghost predicate TimedStart(cfg: Config, p: Pace, m: nat, s: Sys, ph: Phase)
    requires p.Valid()
  {
    && Timed(cfg, p, m, s, ph) && AtStart(cfg, p, ph)
    && forall i :: 0 <= i < |ph.stamp| ==> ph.stamp[i] < ph.round
  }

  lemma OldestAnswer(cfg: Config, p: Pace, m: nat, s: Sys, ph: Phase) returns (id: nat)
    requires p.Valid() && TimedStart(cfg, p, m, s, ph) && Deliverable(s.link.toA, s.now)
    ensures id < |ph.stamp| && ParseReply(cfg, s.link.toA[0].frame) == AckFor(SeqOf(id))
    ensures Received(cfg, s.log, s.dataset, id) && ph.round - ph.stamp[id] == Trip(cfg, p)
    ensures forall x <- s.link.toA[1..] :: AckKnown(cfg, p, s, ph.(ackMax := Trip(cfg, p) - 1), x)
  {
    hide Received, ParseReply, DataKnown, Spaced, SoundLog, SeqOf;
    assert AckKnown(cfg, p, s, ph, s.link.toA[0]);
    id :| id < |ph.stamp| && AckAt(cfg, p, s.link.toA[0], id, ph.stamp[id])
          && Received(cfg, s.log, s.dataset, id)
          && ph.ackMin <= ph.round - ph.stamp[id] <= ph.ackMax;
    KnownAnswerDue(cfg, p, s, ph, id);
    LaterAnswersAreYounger(cfg, p, s, ph);
    forall x <- s.link.toA[1..] ensures AckKnown(cfg, p, s, ph.(ackMax := Trip(cfg, p) - 1), x) {
      var j :| 0 <= j < |s.link.toA[1..]| && s.link.toA[1..][j] == x;
      assert x == s.link.toA[j + 1] && x in s.link.toA;
      assert s.link.toA[0].at < x.at;
    }
  }

  lemma TimedReading(cfg: Config, p: Pace, m: nat, s: Sys, ph: Phase)
    requires Brisk(cfg, p, m) && TableInv(cfg, s) && DataInv(cfg, s) && TimedStart(cfg, p, m, s, ph)
    requires Deliverable(s.link.toA, s.now)
    ensures Timed(cfg, p, m, HandleFrame(cfg, s), ph.(ackMax := Trip(cfg, p) - 1))
    ensures HandleFrame(cfg, s).sent == s.sent
  {
    hide Received, ParseReply, DataKnown, AckKnown, SoundLog, SeqOf, Acknowledge, Brisk, Trip,
      PendingInv, SentInv, EntryInv, Sorted;
    BriskIsValid(cfg, p, m);
    var id := OldestAnswer(cfg, p, m, s, ph);
    var sn := SeqOf(id);
    var qh := ph.(ackMax := Trip(cfg, p) - 1);
    TimedPopping(cfg, p, m, s, ph, qh);
    if sn in s.gate.inflight {
      assert sn in s.payloads;
      assert HeldInv(cfg, s, sn, s.payloads[sn]);
      AnswerIsForThisWindow(cfg, p, m, s, ph, id, s.payloads[sn].id);
      TimedAcknowledging(cfg, p, m, s, HandleFrame(cfg, s), ph, qh, sn);
      AcknowledgeKeepsSent(PopA(s), sn);
    }
  }

  lemma AcknowledgeKeepsSent(s: Sys, sn: byte)
    requires sn in s.gate.inflight
    ensures Acknowledge(s, sn).sent == s.sent && Acknowledge(s, sn).link == s.link && Acknowledge(s, sn).now == s.now
  {
  }

  /** After one answer of a round, the next one is not due yet. */
  lemma NoSecondAnswer(cfg: Config, p: Pace, m: nat, t: Sys, qh: Phase)
    requires p.Valid() && Timed(cfg, p, m, t, qh) && AfterReading(cfg, p, qh)
    ensures !Deliverable(t.link.toA, t.now)
  {
    hide Received, ParseReply, DataKnown, SoundLog, SeqOf, Spaced;
    if t.link.toA != [] {
      assert AckKnown(cfg, p, t, qh, t.link.toA[0]);
      var id: nat :| id < |qh.stamp| && AckAt(cfg, p, t.link.toA[0], id, qh.stamp[id])
                     && Received(cfg, t.log, t.dataset, id)
                     && qh.ackMin <= qh.round - qh.stamp[id] <= qh.ackMax;
      KnownAnswerDue(cfg, p, t, qh, id);
    }
  }

  lemma TimedIncoming(cfg: Config, p: Pace, m: nat, s: Sys, ph: Phase)
    requires Brisk(cfg, p, m) && TableInv(cfg, s) && DataInv(cfg, s) && TimedStart(cfg, p, m, s, ph)
    ensures Timed(cfg, p, m, HandleIncoming(cfg, s), ph.(ackMax := Trip(cfg, p) - 1))
    ensures HandleIncoming(cfg, s).sent == s.sent
  {
    hide TableInv, DataInv, HandleFrame, Deliverable, Timed, Hop, Trip;
    var qh := ph.(ackMax := Trip(cfg, p) - 1);
    if Deliverable(s.link.toA, s.now) {
      TimedReading(cfg, p, m, s, ph);
      var t := HandleFrame(cfg, s);
      NoSecondAnswer(cfg, p, m, t, qh);
      assert HandleIncoming(cfg, t) == t;
    } else {
      NothingToRead(cfg, p, m, s, ph);
    }
  }

  lemma NothingToRead(cfg: Config, p: Pace, m: nat, s: Sys, ph: Phase)
    requires p.Valid() && TimedStart(cfg, p, m, s, ph) && !Deliverable(s.link.toA, s.now)
    ensures Timed(cfg, p, m, s, ph.(ackMax := Trip(cfg, p) - 1))
  {
    hide DataKnown, AckKnown, SoundLog, Sorted, Trip, Hop;
    var qh := ph.(ackMax := Trip(cfg, p) - 1);
    LaterAnswersAreYounger(cfg, p, s, ph);
    DataKnownAnyAckMax(cfg, p, s, ph, qh);
    assert AirKnown(cfg, p, s, qh);
    assert Spaced(cfg, p, m, s, qh);
  }

  // ---------------------------------------------------------------------
  // Sending
  // ---------------------------------------------------------------------

  lemma TimedSendingAir(cfg: Config, env: Env, p: Pace, s: Sys, t: Sys, ph: Phase, qh: Phase, d: Delivery)
    requires p.Valid() && s.now == p.At(ph.round) && AirKnown(cfg, p, s, ph) && ph.dataMax >= 0 && Continues(s, t)
    requires qh == ph.(stamp := ph.stamp + [ph.round])
    requires t.link.toA == s.link.toA
    requires t.link.toB == s.link.toB || t.link.toB == Insert(s.link.toB, d)
    requires Carries(cfg, p, t.dataset, d, |ph.stamp|, ph.round) && d.at == s.now + cfg.latencyMs
    requires forall i :: 0 <= i < |ph.stamp| ==> ph.stamp[i] < ph.round
    ensures AirKnown(cfg, p, t, qh)
  {
    hide Carries, AckAt, Received, Insert, Hop, Trip;
    AirGrows(cfg, p, s, t, ph);
    LongerStamp(cfg, p, t, ph, qh);
    InsertHolds(s.link.toB, d);
    NewestIsLast(cfg, p, s, ph, d);
    forall x <- t.link.toB ensures DataKnown(cfg, p, t, qh, x) {
      if x in s.link.toB {
        assert DataKnown(cfg, p, s, ph, x);
      } else {
        assert Carries(cfg, p, t.dataset, x, |ph.stamp|, qh.stamp[|ph.stamp|]);
      }
    }
  }

  lemma LongerStamp(cfg: Config, p: Pace, t: Sys, ph: Phase, qh: Phase)
    requires p.Valid() && qh == ph.(stamp := ph.stamp + [ph.round])
    ensures forall d :: DataKnown(cfg, p, t, ph, d) ==> DataKnown(cfg, p, t, qh, d)
    ensures forall d :: AckKnown(cfg, p, t, ph, d) ==> AckKnown(cfg, p, t, qh, d)
  {
    hide Carries, AckAt, Received, Hop, Trip;
    forall d | DataKnown(cfg, p, t, ph, d) ensures DataKnown(cfg, p, t, qh, d) {
      var id: nat :| id < |ph.stamp| && Carries(cfg, p, t.dataset, d, id, ph.stamp[id])
                     && ph.round - ph.stamp[id] <= ph.dataMax;
      assert Carries(cfg, p, t.dataset, d, id, qh.stamp[id]);
    }
    forall d | AckKnown(cfg, p, t, ph, d) ensures AckKnown(cfg, p, t, qh, d) {
      var id: nat :| id < |ph.stamp| && AckAt(cfg, p, d, id, ph.stamp[id])
                     && Received(cfg, t.log, t.dataset, id)
                     && ph.ackMin <= ph.round - ph.stamp[id] <= ph.ackMax;
      assert AckAt(cfg, p, d, id, qh.stamp[id]);
    }
  }

  /** A frame sent now is due after everything already on its way. */
  lemma NewestIsLast(cfg: Config, p: Pace, s: Sys, ph: Phase, d: Delivery)
    requires p.Valid() && s.now == p.At(ph.round) && AirKnown(cfg, p, s, ph) && d.at == s.now + cfg.latencyMs
    requires forall i :: 0 <= i < |ph.stamp| ==> ph.stamp[i] < ph.round
    ensures Insert(s.link.toB, d) == s.link.toB + [d] && Sorted(s.link.toB + [d])
  {
    hide AckKnown, ParseData, SeqOf, Insert;
    forall x <- s.link.toB ensures x.at < d.at {
      assert DataKnown(cfg, p, s, ph, x);
      var id: nat :| id < |ph.stamp| && Carries(cfg, p, s.dataset, x, id, ph.stamp[id])
                     && ph.round - ph.stamp[id] <= ph.dataMax;
      AtOrdered(p, ph.stamp[id], ph.round);
    }
    InsertLast(s.link.toB, d);
  }

  lemma SpacedSending(cfg: Config, p: Pace, m: nat, s: Sys, t: Sys, ph: Phase, qh: Phase, n: nat)
    requires p.Valid() && s.now == p.At(ph.round) && Spaced(cfg, p, m, s, ph) && CanSend(cfg, s.gate, s.now)
    requires qh == ph.(stamp := ph.stamp + [ph.round])
    requires t.gate.lastTxMs == Some(s.now) && t.gate.lastToaMs == cfg.toaMs(n) && cfg.Spacing(n) >= m
    ensures Spaced(cfg, p, m, t, qh)
  {
    DeadlineAfter(cfg, t.gate, n);
    var last := |ph.stamp|;
    forall i, j | 0 <= i < j < |qh.stamp| ensures p.At(qh.stamp[j]) - p.At(qh.stamp[i]) >= (j - i) * m {
      if j == last {
        assert (last - i) * m == (last - 1 - i) * m + m;
        if i < last - 1 {
          assert p.At(ph.stamp[last - 1]) - p.At(ph.stamp[i]) >= (last - 1 - i) * m;
        } else {
          assert (last - 1 - i) * m == 0;
        }
      }
    }
  }

  lemma LatestSending(cfg: Config, s: Sys, t: Sys)
    requires Latest(s) && DataInv(cfg, s) && s.pending != [] && t.sent == s.sent + 1
    requires t.payloads == s.payloads[s.seqNo := s.pending[0]]
    ensures Latest(t)
  {
    hide SentInv, Encodes;
    forall k <- t.payloads ensures t.sent - t.payloads[k].id <= 256 {
      if k != s.seqNo {
        assert HeldInv(cfg, s, k, s.payloads[k]);
        if s.sent - s.payloads[k].id == 256 {
          SamePlace(s.payloads[k].id, s.sent);
        }
      }
    }
  }

  lemma SamePlace(i: nat, j: nat)
    requires j - i == 256
    ensures SeqOf(i) == SeqOf(j)
  {
  }

  lemma SpacingOf(cfg: Config, p: Pace, m: nat, n: nat)
    requires Brisk(cfg, p, m) && 2 <= n <= 2 + cfg.maxPayload
    ensures cfg.Spacing(n) >= m
  {
  }

  lemma TimedSending(cfg: Config, env: Env, p: Pace, m: nat, s: Sys, ph: Phase) returns (qh: Phase)
    requires Brisk(cfg, p, m) && DataInv(cfg, s) && Timed(cfg, p, m, s, ph) && AfterReading(cfg, p, ph)
    requires s.pending != [] && CanSend(cfg, s.gate, s.now)
    requires forall i :: 0 <= i < |ph.stamp| ==> ph.stamp[i] < ph.round
    ensures Timed(cfg, p, m, SendNext(cfg, env, s), qh) && AfterReading(cfg, p, qh) && qh.round == ph.round
    ensures qh == ph.(stamp := ph.stamp + [ph.round])
  {
    hide DataInv, AirKnown, Spaced, Latest, SoundLog, Hop, Trip, ParseData, CanSend, Insert, DataFrame, SeqOf, Attempt;
    qh := ph.(stamp := ph.stamp + [ph.round]);
    BriskIsValid(cfg, p, m);
    NewFrameParses(cfg, s);
    NewFrameEncodes(cfg, s);
    HopNonNegative(cfg, p, ph);
    var t := SendNext(cfg, env, s);
    var d := Delivery(s.now + cfg.latencyMs, DataFrame(s.seqNo, s.pending[0].payload));
    assert Carries(cfg, p, t.dataset, d, |ph.stamp|, ph.round);
    TimedSendingAir(cfg, env, p, s, t, ph, qh, d);
    SpacingOf(cfg, p, m, 2 + |s.pending[0].payload|);
    SpacedSending(cfg, p, m, s, t, ph, qh, 2 + |s.pending[0].payload|);
    LatestSending(cfg, s, t);
    SoundGrows(cfg, s, t);
  }

  lemma BriskIsValid(cfg: Config, p: Pace, m: nat)
    requires Brisk(cfg, p, m)
    ensures cfg.Valid() && p.Valid() && cfg.maxRetries == 0 && cfg.window.Valid()
  {
  }

  lemma NewFrameEncodes(cfg: Config, s: Sys)
    requires DataInv(cfg, s) && s.pending != []
    ensures s.sent < |s.dataset| && s.pending[0].payload == cfg.encode(s.dataset[s.sent])
  {
    hide SentInv, HeldInv;
    assert Encodes(cfg, s.dataset, s.pending[0].id, s.pending[0].payload);
  }

  // ---------------------------------------------------------------------
  // The receiver
  // ---------------------------------------------------------------------

  lemma KnownFrameDue(cfg: Config, p: Pace, s: Sys, ph: Phase, id: nat)
    requires p.Valid() && s.now == p.At(ph.round) && s.link.toB != [] && id < |ph.stamp|
    requires Carries(cfg, p, s.dataset, s.link.toB[0], id, ph.stamp[id])
    requires ph.round - ph.stamp[id] <= Hop(cfg, p)
    ensures Deliverable(s.link.toB, s.now) <==> ph.round - ph.stamp[id] == Hop(cfg, p)
  {
    hide ParseData;
    ReadableFrom(cfg, p, ph.stamp[id], ph.round);
  }

  /** Frames behind a due frame, or behind a frame that is not due, are younger. */
  lemma LaterFramesAreYounger(cfg: Config, p: Pace, s: Sys, ph: Phase)
    requires p.Valid() && s.now == p.At(ph.round) && AirKnown(cfg, p, s, ph) && ph.dataMax == Hop(cfg, p)
    ensures forall x <- s.link.toB ::
              (s.link.toB[0].at < x.at || !Deliverable(s.link.toB, s.now)) ==>
                DataKnown(cfg, p, s, ph.(dataMax := Hop(cfg, p) - 1), x)
  {
    hide ParseData, SeqOf, AckKnown;
    if s.link.toB != [] {
      var first := s.link.toB[0];
      assert DataKnown(cfg, p, s, ph, first);
      var id0: nat :| id0 < |ph.stamp| && Carries(cfg, p, s.dataset, first, id0, ph.stamp[id0])
                      && ph.round - ph.stamp[id0] <= ph.dataMax;
      KnownFrameDue(cfg, p, s, ph, id0);
      var qh := ph.(dataMax := Hop(cfg, p) - 1);
      forall x <- s.link.toB | first.at < x.at || !Deliverable(s.link.toB, s.now)
        ensures DataKnown(cfg, p, s, qh, x)
      {
        assert DataKnown(cfg, p, s, ph, x);
        var id: nat :| id < |ph.stamp| && Carries(cfg, p, s.dataset, x, id, ph.stamp[id])
                       && ph.round - ph.stamp[id] <= ph.dataMax;
        FirstIsEarliest(s.link.toB, x);
        AtOrdered(p, ph.stamp[id0], ph.stamp[id]);
        AtOrdered(p, ph.stamp[id], ph.stamp[id0]);
        assert Carries(cfg, p, s.dataset, x, id, qh.stamp[id]);
      }
    }
  }

  /** The phase after the receiver has run. */
  function EndPhase(cfg: Config, p: Pace, ph: Phase): Phase
    requires p.Valid()
  {
    ph.(dataMax := Hop(cfg, p) - 1, ackMin := Hop(cfg, p))
  }

  lemma AckKnownLowerMin(cfg: Config, p: Pace, s: Sys, ph: Phase, qh: Phase)
    requires p.Valid() && qh.stamp == ph.stamp && qh.round == ph.round
    requires qh.ackMax == ph.ackMax && qh.ackMin <= ph.ackMin
    ensures forall d :: AckKnown(cfg, p, s, ph, d) ==> AckKnown(cfg, p, s, qh, d)
  {
    hide AckAt, Received;
    forall d | AckKnown(cfg, p, s, ph, d) ensures AckKnown(cfg, p, s, qh, d) {
      var id: nat :| id < |ph.stamp| && AckAt(cfg, p, d, id, ph.stamp[id])
                     && Received(cfg, s.log, s.dataset, id)
                     && ph.ackMin <= ph.round - ph.stamp[id] <= ph.ackMax;
      assert AckAt(cfg, p, d, id, qh.stamp[id]);
    }
  }

  lemma DataKnownSame(cfg: Config, p: Pace, s: Sys, ph: Phase, qh: Phase)
    requires qh.stamp == ph.stamp && qh.round == ph.round && qh.dataMax == ph.dataMax
    ensures forall d :: DataKnown(cfg, p, s, ph, d) ==> DataKnown(cfg, p, s, qh, d)
  {
    hide Carries;
    forall d | DataKnown(cfg, p, s, ph, d) ensures DataKnown(cfg, p, s, qh, d) {
      var id: nat :| id < |ph.stamp| && Carries(cfg, p, s.dataset, d, id, ph.stamp[id])
                     && ph.round - ph.stamp[id] <= ph.dataMax;
      assert Carries(cfg, p, s.dataset, d, id, qh.stamp[id]);
    }
  }

  /** An answer sent now is due after every answer already on its way. */
  lemma NewAnswerIsLast(cfg: Config, p: Pace, s: Sys, ph: Phase, d: Delivery)
    requires p.Valid() && s.now == p.At(ph.round) && AirKnown(cfg, p, s, ph) && d.at == s.now + cfg.latencyMs
    requires ph.ackMin == Hop(cfg, p) + 1
    ensures Insert(s.link.toA, d) == s.link.toA + [d] && Sorted(s.link.toA + [d])
  {
    hide DataKnown, ParseReply, SeqOf, Insert, Received, Hop;
    forall x <- s.link.toA ensures x.at < d.at {
      assert AckKnown(cfg, p, s, ph, x);
      var id: nat :| id < |ph.stamp| && AckAt(cfg, p, x, id, ph.stamp[id])
                     && Received(cfg, s.log, s.dataset, id)
                     && ph.ackMin <= ph.round - ph.stamp[id] <= ph.ackMax;
      AtOrdered(p, ph.stamp[id] + Hop(cfg, p), ph.round);
    }
    InsertLast(s.link.toA, d);
  }

  lemma TimedIdle(cfg: Config, p: Pace, m: nat, s: Sys, ph: Phase)
    requires p.Valid() && Timed(cfg, p, m, s, ph) && AfterReading(cfg, p, ph) && !Deliverable(s.link.toB, s.now)
    ensures Timed(cfg, p, m, s, EndPhase(cfg, p, ph))
  {
    hide DataKnown, AckKnown, SoundLog, Sorted, Trip, Hop;
    var qh := EndPhase(cfg, p, ph);
    LaterFramesAreYounger(cfg, p, s, ph);
    DataKnownSame(cfg, p, s, ph.(dataMax := Hop(cfg, p) - 1), qh);
    AckKnownLowerMin(cfg, p, s, ph, qh);
    assert AirKnown(cfg, p, s, qh);
    assert Spaced(cfg, p, m, s, qh);
  }

  lemma OldestFrame(cfg: Config, p: Pace, m: nat, s: Sys, ph: Phase) returns (id: nat)
    requires p.Valid() && Timed(cfg, p, m, s, ph) && AfterReading(cfg, p, ph) && Deliverable(s.link.toB, s.now)
    ensures id < |ph.stamp| && id < |s.dataset| && ph.round - ph.stamp[id] == Hop(cfg, p)
    ensures ParseData(cfg, s.link.toB[0].frame) == DataFor(SeqOf(id), cfg.encode(s.dataset[id]))
    ensures forall x <- s.link.toB[1..] :: DataKnown(cfg, p, s, ph.(dataMax := Hop(cfg, p) - 1), x)
  {
    hide ParseData, AckKnown, Spaced, SoundLog, SeqOf, Trip;
    assert DataKnown(cfg, p, s, ph, s.link.toB[0]);
    id :| id < |ph.stamp| && Carries(cfg, p, s.dataset, s.link.toB[0], id, ph.stamp[id])
          && ph.round - ph.stamp[id] <= ph.dataMax;
    KnownFrameDue(cfg, p, s, ph, id);
    LaterFramesAreYounger(cfg, p, s, ph);
    forall x <- s.link.toB[1..] ensures DataKnown(cfg, p, s, ph.(dataMax := Hop(cfg, p) - 1), x) {
      var j :| 0 <= j < |s.link.toB[1..]| && s.link.toB[1..][j] == x;
      assert x == s.link.toB[j + 1] && x in s.link.toB;
      assert s.link.toB[0].at < x.at;
    }
  }

  lemma TimedEchoAir(cfg: Config, p: Pace, s: Sys, t: Sys, ph: Phase, qh: Phase, d: Delivery, id: nat)
    requires p.Valid() && s.now == p.At(ph.round) && AirKnown(cfg, p, s, ph) && AfterReading(cfg, p, ph)
    requires Continues(s, t) && qh == EndPhase(cfg, p, ph)
    requires s.link.toB != [] && t.link.toB == s.link.toB[1..]
    requires t.link.toA == s.link.toA || t.link.toA == Insert(s.link.toA, d)
    requires d.at == s.now + cfg.latencyMs
    requires id < |ph.stamp| && AckAt(cfg, p, d, id, ph.stamp[id]) && Received(cfg, t.log, t.dataset, id)
    requires ph.round - ph.stamp[id] == Hop(cfg, p)
    requires forall x <- s.link.toB[1..] :: DataKnown(cfg, p, s, ph.(dataMax := Hop(cfg, p) - 1), x)
    ensures AirKnown(cfg, p, t, qh)
  {
    hide AckAt, Received, DataKnown, Insert, Hop;
    AirGrows(cfg, p, s, t, ph.(dataMax := Hop(cfg, p) - 1));
    DataKnownSame(cfg, p, t, ph.(dataMax := Hop(cfg, p) - 1), qh);
    AirGrows(cfg, p, s, t, ph);
    AckKnownLowerMin(cfg, p, t, ph, qh);
    InsertHolds(s.link.toA, d);
    NewAnswerIsLast(cfg, p, s, ph, d);
    forall x <- t.link.toA ensures AckKnown(cfg, p, t, qh, x) {
      if x in s.link.toA {
        assert AckKnown(cfg, p, s, ph, x);
        assert AckKnown(cfg, p, t, ph, x);
      } else {
        assert AckAt(cfg, p, x, id, qh.stamp[id]);
        AckMaxIsEnough(cfg, p, ph);
      }
    }
  }

  lemma AckMaxIsEnough(cfg: Config, p: Pace, ph: Phase)
    requires p.Valid() && AfterReading(cfg, p, ph)
    ensures Hop(cfg, p) <= ph.ackMax
  {
  }

  lemma EchoContinues(cfg: Config, env: Env, s: Sys, sn: byte, id: nat)
    requires id < |s.dataset|
    ensures var t := Echo(cfg, env, s, sn, cfg.encode(s.dataset[id]));
            && Continues(s, t) && Received(cfg, t.log, t.dataset, id)
            && t.now == s.now && t.sent == s.sent && t.gate == s.gate && t.payloads == s.payloads
            && (forall i :: |s.log| <= i < |t.log| ==> !t.log[i].AckReceived?)
  {
    hide SendFromB;
    var t := Echo(cfg, env, s, sn, cfg.encode(s.dataset[id]));
    assert ReceivedAt(cfg, t.log, t.dataset, id, |s.log|);
  }

  lemma EchoLinkShape(cfg: Config, env: Env, s: Sys, sn: byte, payload: bytes)
    ensures var t := Echo(cfg, env, s, sn, payload);
            && t.link.toB == s.link.toB
            && (t.link.toA == s.link.toA
                || t.link.toA == Insert(s.link.toA, Delivery(s.now + cfg.latencyMs, AckFrame(s.ackSeq, sn))))
  {
    hide Insert;
  }

  lemma TimedRelaying(cfg: Config, env: Env, p: Pace, m: nat, s: Sys, ph: Phase)
    requires Brisk(cfg, p, m) && Timed(cfg, p, m, s, ph) && AfterReading(cfg, p, ph)
    requires Deliverable(s.link.toB, s.now)
    ensures Timed(cfg, p, m, Relay(cfg, env, s), EndPhase(cfg, p, ph))
  {
    hide ParseData, ParseReply, AirKnown, Spaced, SoundLog, SeqOf, Hop, Trip, Echo, Brisk, AckFrame, Received,
      Continues, DataKnown, Insert;
    BriskIsValid(cfg, p, m);
    var id := OldestFrame(cfg, p, m, s, ph);
    var sn := SeqOf(id);
    var t := Relay(cfg, env, s);
    EchoContinues(cfg, env, PopB(s), sn, id);
    EchoLinkShape(cfg, env, PopB(s), sn, cfg.encode(s.dataset[id]));
    PoppedContinues(s, t);
    AnswerParses(cfg, s.ackSeq, sn);
    var d := Delivery(s.now + cfg.latencyMs, AckFrame(s.ackSeq, sn));
    assert AckAt(cfg, p, d, id, ph.stamp[id]);
    TimedEchoAir(cfg, p, s, t, ph, EndPhase(cfg, p, ph), d, id);
    SpacedSame(cfg, p, m, s, t, ph, EndPhase(cfg, p, ph));
    SoundGrows(cfg, s, t);
  }

  lemma PoppedContinues(s: Sys, t: Sys)
    requires s.link.toB != [] && Continues(PopB(s), t)
    ensures Continues(s, t)
  {
  }

  lemma SpacedSame(cfg: Config, p: Pace, m: nat, s: Sys, t: Sys, ph: Phase, qh: Phase)
    requires Spaced(cfg, p, m, s, ph) && t.gate == s.gate && qh.stamp == ph.stamp
    ensures Spaced(cfg, p, m, t, qh)
  {
  }

  // ---------------------------------------------------------------------
  // Rounds
  // ---------------------------------------------------------------------

  lemma TimedTick(cfg: Config, p: Pace, m: nat, t: Sys, qh: Phase, nh: Phase)
    requires p.Valid() && Timed(cfg, p, m, t, qh) && AtEnd(cfg, p, qh)
    requires nh == qh.(round := qh.round + 1, dataMax := Hop(cfg, p), ackMin := Hop(cfg, p) + 1, ackMax := Trip(cfg, p))
    ensures TimedStart(cfg, p, m, Tick(t, p.step), nh)
  {
    hide Hop, Trip, DataKnown, AckKnown, SoundLog;
    var v := Tick(t, p.step);
    assert (qh.round + 1) * p.step == qh.round * p.step + p.step;
    SpacedSame(cfg, p, m, t, v, qh, nh);
    KnownTick(cfg, p, t, v, qh, nh);
  }

  lemma KnownTick(cfg: Config, p: Pace, t: Sys, v: Sys, qh: Phase, nh: Phase)
    requires p.Valid() && v.log == t.log && v.dataset == t.dataset
    requires nh == qh.(round := qh.round + 1, dataMax := qh.dataMax + 1, ackMin := qh.ackMin + 1,
                       ackMax := qh.ackMax + 1)
    ensures forall d :: DataKnown(cfg, p, t, qh, d) ==> DataKnown(cfg, p, v, nh, d)
    ensures forall d :: AckKnown(cfg, p, t, qh, d) ==> AckKnown(cfg, p, v, nh, d)
  {
    hide Carries, AckAt, Received, Hop, Trip;
    forall d | DataKnown(cfg, p, t, qh, d) ensures DataKnown(cfg, p, v, nh, d) {
      var id: nat :| id < |qh.stamp| && Carries(cfg, p, t.dataset, d, id, qh.stamp[id])
                     && qh.round - qh.stamp[id] <= qh.dataMax;
      assert Carries(cfg, p, v.dataset, d, id, nh.stamp[id]);
    }
    forall d | AckKnown(cfg, p, t, qh, d) ensures AckKnown(cfg, p, v, nh, d) {
      var id: nat :| id < |qh.stamp| && AckAt(cfg, p, d, id, qh.stamp[id])
                     && Received(cfg, t.log, t.dataset, id)
                     && qh.ackMin <= qh.round - qh.stamp[id] <= qh.ackMax;
      assert AckAt(cfg, p, d, id, nh.stamp[id]);
    }
  }

  lemma TimedTxHalf(cfg: Config, env: Env, p: Pace, m: nat, s: Sys, ph: Phase) returns (qh: Phase)
    requires Brisk(cfg, p, m) && Reachable(cfg, env, s) && TimedStart(cfg, p, m, s, ph)
    ensures Timed(cfg, p, m, TxProcessOnce(cfg, env, s), qh) && AfterReading(cfg, p, qh)
  {
    hide Brisk, Reachable, Timed, TableInv, DataInv, CountInv, HandleIncoming, RetryExpired, QueueWindow,
      CanSend, SendNext, Hop, Trip;
    BriskIsValid(cfg, p, m);
    var a := QueueWindow(cfg, env, s);
    StepReachable(cfg, env, s, Sampling);
    TimedSampling(cfg, env, p, m, s, ph);
    CoreOf(cfg, env, a);
    TimedIncoming(cfg, p, m, a, ph);
    var b := HandleIncoming(cfg, a);
    HandleIncomingReachable(cfg, env, a);
    CoreOf(cfg, env, b);
    qh := ph.(ackMax := Trip(cfg, p) - 1);
    TimedExpiring(cfg, env, p, m, b, qh);
    RetryExpiredReachable(cfg, env, b);
    var c := RetryExpired(cfg, env, b);
    CoreOf(cfg, env, c);
    if c.pending != [] && CanSend(cfg, c.gate, c.now) {
      qh := TimedSending(cfg, env, p, m, c, qh);
    }
  }

  lemma TimedRound(cfg: Config, env: Env, p: Pace, m: nat, s: Sys, ph: Phase) returns (qh: Phase, nh: Phase)
    requires Brisk(cfg, p, m) && Reachable(cfg, env, s) && TimedStart(cfg, p, m, s, ph)
    ensures var t := RxProcessOnce(cfg, env, TxProcessOnce(cfg, env, s));
            Timed(cfg, p, m, t, qh) && TimedStart(cfg, p, m, Tick(t, p.step), nh)
  {
    hide Brisk, Reachable, Timed, TxProcessOnce, Relay, Hop, Trip;
    BriskIsValid(cfg, p, m);
    var mh := TimedTxHalf(cfg, env, p, m, s, ph);
    var u := TxProcessOnce(cfg, env, s);
    if Deliverable(u.link.toB, u.now) {
      TimedRelaying(cfg, env, p, m, u, mh);
    } else {
      TimedIdle(cfg, p, m, u, mh);
    }
    var t := RxProcessOnce(cfg, env, u);
    qh := EndPhase(cfg, p, mh);
    nh := qh.(round := qh.round + 1, dataMax := Hop(cfg, p), ackMin := Hop(cfg, p) + 1, ackMax := Trip(cfg, p));
    TimedTick(cfg, p, m, t, qh, nh);
  }

  lemma InitTimed(cfg: Config, p: Pace, m: nat)
    requires p.Valid()
    ensures TimedStart(cfg, p, m, Init(p.start), Phase(0, [], Hop(cfg, p), Hop(cfg, p) + 1, Trip(cfg, p)))
  {
    hide Hop, Trip;
  }

  lemma TimedIsSound(cfg: Config, p: Pace, m: nat, s: Sys, ph: Phase)
    requires p.Valid() && Timed(cfg, p, m, s, ph)
    ensures SoundLog(cfg, s.log, s.dataset)
  {
    hide AirKnown, Spaced, SoundLog;
  }

  lemma {:induction false} RunPairSound(cfg: Config, env: Env, p: Pace, m: nat, s: Sys, ph: Phase, n: nat)
    requires Brisk(cfg, p, m) && Reachable(cfg, env, s) && TimedStart(cfg, p, m, s, ph)
    ensures var t := RunPair(cfg, env, s, p.step, n); SoundLog(cfg, t.log, t.dataset)
    decreases n
  {
    hide Brisk, Reachable, Timed, TxProcessOnce, RxProcessOnce, SoundLog, AtStart, IsDone;
    BriskIsValid(cfg, p, m);
    if n == 0 {
      TimedIsSound(cfg, p, m, s, ph);
    } else {
      var qh, nh := TimedRound(cfg, env, p, m, s, ph);
      var t := RxProcessOnce(cfg, env, TxProcessOnce(cfg, env, s));
      TimedIsSound(cfg, p, m, t, qh);
      if !IsDone(cfg, t) {
        TxProcessOnceReachable(cfg, env, s);
        RxProcessOnceReachable(cfg, env, TxProcessOnce(cfg, env, s));
        StepReachable(cfg, env, t, Ticking(p.step));
        RunPairSound(cfg, env, p, m, Tick(t, p.step), nh, n - 1);
      }
    }
  }

  /** In `run_pair` without retries, under every loss pattern and for runs of any length: if a round
      trip takes at most 256 send spacings, then whenever window w is reported acknowledged, the
      receiver had logged, earlier, a frame with exactly the encoding of window w. */
  lemma AckSoundByTiming(cfg: Config, env: Env, p: Pace, m: nat, n: nat, i: nat, w: nat)
    requires Brisk(cfg, p, m)
    requires var t := RunPair(cfg, env, Init(p.start), p.step, n);
             i < |t.log| && t.log[i].AckReceived? && t.log[i].window == Some(w)
    ensures var t := RunPair(cfg, env, Init(p.start), p.step, n);
            && w < |t.dataset|
            && exists j :: 0 <= j < i && t.log[j].RxOk? && t.log[j].payload == cfg.encode(t.dataset[w])
  {
    hide Brisk, Reachable, RunPair, TimedStart, Hop, Trip;
    BriskIsValid(cfg, p, m);
    InitReachable(cfg, env, p.start);
    InitTimed(cfg, p, m);
    RunPairSound(cfg, env, p, m, Init(p.start), Phase(0, [], Hop(cfg, p), Hop(cfg, p) + 1, Trip(cfg, p)), n);
    var t := RunPair(cfg, env, Init(p.start), p.step, n);
    assert SoundAt(cfg, t.log, t.dataset, i, w);
    var j :| 0 <= j < i && ReceivedAt(cfg, t.log, t.dataset, w, j);
  }
}
