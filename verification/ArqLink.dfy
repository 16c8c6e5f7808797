/** Where every frame in the air and every reception event comes from, and the conservation of frames. */
module ArqLink {
  import opened Basics
  import opened PacketCodec
  import opened ArqModel
  import opened ArqInvariants
  import Windows

  // ---------------------------------------------------------------------
  // Origins
  // ---------------------------------------------------------------------

  /** Transmission `e` put delivery `d` on the way. */
  predicate IsSendOf(cfg: Config, e: Event, d: Delivery) {
    && e.TxSent?
    && d.at == e.ts + cfg.latencyMs
    && |e.payload| <= cfg.maxPayload
    && d.frame == DataFrame(e.sn, e.payload)
  }

  /** Reception `e` was answered by delivery `d`. */
  predicate IsEchoOf(cfg: Config, e: Event, d: Delivery) {
    && e.RxOk?
    && d.at == e.ts + cfg.latencyMs
    && |d.frame| == 3 && d.frame[0] == 1 && d.frame[2] == e.sn
  }

  ghost predicate DataOrigin(cfg: Config, log: seq<Event>, d: Delivery) {
    exists i :: 0 <= i < |log| && IsSendOf(cfg, log[i], d)
  }

  ghost predicate AckOrigin(cfg: Config, log: seq<Event>, d: Delivery) {
    exists i :: 0 <= i < |log| && IsEchoOf(cfg, log[i], d)
  }

  /** Transmission `e` is the frame that reception `f` reports. */
  predicate Arrives(cfg: Config, e: Event, f: Event)
    requires f.RxOk?
  {
    e.TxSent? && e.sn == f.sn && e.payload == f.payload && e.ts + cfg.latencyMs <= f.ts
  }

  /** Reception `e` is what acknowledgement `f` answers. */
  predicate Confirms(cfg: Config, e: Event, f: Event)
    requires f.AckReceived?
  {
    e.RxOk? && e.sn == f.sn && e.ts + cfg.latencyMs <= f.ts
  }

  ghost predicate ReceptionsHaveOrigin(cfg: Config, log: seq<Event>) {
    forall i :: 0 <= i < |log| && log[i].RxOk? ==> exists j :: 0 <= j < i && Arrives(cfg, log[j], log[i])
  }

  ghost predicate AcksHaveOrigin(cfg: Config, log: seq<Event>) {
    forall i :: 0 <= i < |log| && log[i].AckReceived? ==> exists j :: 0 <= j < i && Confirms(cfg, log[j], log[i])
  }

  ghost predicate OriginInv(cfg: Config, s: Sys) {
    && (forall d <- s.link.toB :: DataOrigin(cfg, s.log, d))
    && (forall d <- s.link.toA :: AckOrigin(cfg, s.log, d))
    && ReceptionsHaveOrigin(cfg, s.log)
    && AcksHaveOrigin(cfg, s.log)
  }

  lemma {:induction false} InsertHolds(q: seq<Delivery>, d: Delivery)
    ensures forall x :: x in Insert(q, d) <==> x == d || x in q
    ensures |Insert(q, d)| == |q| + 1
    decreases |q|
  {
    if q != [] && !Before(d, q[0]) {
      InsertHolds(q[1..], d);
      assert q == [q[0]] + q[1..];
    }
  }

  // ---------------------------------------------------------------------
  // What the nodes make of any frame
  // ---------------------------------------------------------------------

  /** The transmit node takes for an acknowledgement exactly the frames of one payload byte, whoever sent them,
      and that byte is the SEQ. */
  lemma ReplyIff(cfg: Config, frame: bytes, sn: byte)
    requires cfg.Valid()
    ensures ParseReply(cfg, frame) == AckFor(sn) <==> |frame| == 3 && frame[0] == 1 && frame[2] == sn
    ensures ParseReply(cfg, frame) == OtherFrame <==>
              |frame| >= 2 && frame[0] != 1 && frame[0] <= cfg.maxPayload && |frame| == frame[0] + 2
  {
  }

  /** The receive node accepts exactly the frames of a packet within the limit. */
  lemma IncomingIff(cfg: Config, frame: bytes, sn: byte, payload: bytes)
    requires cfg.Valid()
    ensures ParseData(cfg, frame) == DataFor(sn, payload) <==>
              |payload| <= cfg.maxPayload && frame == [|payload|, sn] + payload
  {
    hide FromBytes, ToBytes;
    RoundTrip(Packet(payload, sn), frame, Some(cfg.maxPayload));
    SerialisedIs(Packet(payload, sn), frame, Some(cfg.maxPayload));
  }

  lemma SerialisedIs(p: Packet, frame: bytes, maxPayload: Option<int>)
    requires 0 <= p.seqNo <= 255 && 1 <= Limit(maxPayload) <= 255
    ensures ToBytes(p, maxPayload) == Ok(frame)
            <==> |p.payload| <= Limit(maxPayload) && frame == [|p.payload|, p.seqNo] + p.payload
  {
  }

  /** A longer log explains at least what the shorter one did. */
  lemma OriginsGrow(cfg: Config, log: seq<Event>, more: seq<Event>)
    ensures forall d :: DataOrigin(cfg, log, d) ==> DataOrigin(cfg, log + more, d)
    ensures forall d :: AckOrigin(cfg, log, d) ==> AckOrigin(cfg, log + more, d)
  {
    forall d | DataOrigin(cfg, log, d) ensures DataOrigin(cfg, log + more, d) {
      var i :| 0 <= i < |log| && IsSendOf(cfg, log[i], d);
      assert (log + more)[i] == log[i];
    }
    forall d | AckOrigin(cfg, log, d) ensures AckOrigin(cfg, log + more, d) {
      var i :| 0 <= i < |log| && IsEchoOf(cfg, log[i], d);
      assert (log + more)[i] == log[i];
    }
  }

  lemma EventsGrow(cfg: Config, log: seq<Event>, e: Event)
    requires ReceptionsHaveOrigin(cfg, log) && AcksHaveOrigin(cfg, log)
    requires e.RxOk? ==> exists j :: 0 <= j < |log| && Arrives(cfg, log[j], e)
    requires e.AckReceived? ==> exists j :: 0 <= j < |log| && Confirms(cfg, log[j], e)
    ensures ReceptionsHaveOrigin(cfg, log + [e]) && AcksHaveOrigin(cfg, log + [e])
  {
    var all := log + [e];
    forall i | 0 <= i < |all| && all[i].RxOk?
      ensures exists j :: 0 <= j < i && Arrives(cfg, all[j], all[i])
    {
      if i < |log| {
        var j :| 0 <= j < i && Arrives(cfg, log[j], log[i]);
        assert Arrives(cfg, all[j], all[i]);
      } else {
        var j :| 0 <= j < |log| && Arrives(cfg, log[j], e);
        assert Arrives(cfg, all[j], all[i]);
      }
    }
    forall i | 0 <= i < |all| && all[i].AckReceived?
      ensures exists j :: 0 <= j < i && Confirms(cfg, all[j], all[i])
    {
      if i < |log| {
        var j :| 0 <= j < i && Confirms(cfg, log[j], log[i]);
        assert Confirms(cfg, all[j], all[i]);
      } else {
        var j :| 0 <= j < |log| && Confirms(cfg, log[j], e);
        assert Confirms(cfg, all[j], all[i]);
      }
    }
  }

  lemma DataFrameParses(cfg: Config, e: Event, d: Delivery)
    requires 1 <= cfg.maxPayload <= 255 && IsSendOf(cfg, e, d)
    ensures ParseData(cfg, d.frame) == DataFor(e.sn, e.payload)
  {
    RoundTrip(Packet(e.payload, e.sn), d.frame, Some(cfg.maxPayload));
  }

  lemma AckFrameParses(cfg: Config, e: Event, d: Delivery)
    requires 1 <= cfg.maxPayload <= 255 && IsEchoOf(cfg, e, d)
    ensures ParseReply(cfg, d.frame) == AckFor(e.sn)
  {
    assert FromBytes(d.frame, Some(cfg.maxPayload)).Ok?;
    assert d.frame[2..] == [e.sn];
  }

  lemma OriginTransmitting(cfg: Config, env: Env, s: Sys, t: Sys, w: PendingWindow, sn: byte)
    requires OriginInv(cfg, s) && |w.payload| <= cfg.maxPayload <= 253
    requires t.log == Transmit(cfg, env, s, w, sn).log && t.link == Transmit(cfg, env, s, w, sn).link
    ensures OriginInv(cfg, t)
  {
    hide RecordSend, Attempt, Arrives, Confirms, DataFrame;
    var e := t.log[|s.log|];
    var d := Delivery(s.now + cfg.latencyMs, DataFrame(sn, w.payload));
    OriginsGrow(cfg, s.log, [e]);
    EventsGrow(cfg, s.log, e);
    assert t.log == s.log + [e];
    InsertHolds(s.link.toB, d);
    forall x <- t.link.toB ensures DataOrigin(cfg, t.log, x) {
      if x !in s.link.toB {
        assert x == d && IsSendOf(cfg, t.log[|s.log|], x);
      }
    }
  }

  lemma OriginQuiet(cfg: Config, s: Sys, t: Sys)
    requires OriginInv(cfg, s)
    requires forall d <- t.link.toA :: d in s.link.toA
    requires forall d <- t.link.toB :: d in s.link.toB
    requires t.log == s.log
    ensures OriginInv(cfg, t)
  {
  }

  lemma OriginLogging(cfg: Config, s: Sys, t: Sys, e: Event)
    requires OriginInv(cfg, s) && t.link == s.link && t.log == s.log + [e]
    requires !e.RxOk?
    requires e.AckReceived? ==> exists j :: 0 <= j < |s.log| && Confirms(cfg, s.log[j], e)
    ensures OriginInv(cfg, t)
  {
    hide DataOrigin, AckOrigin, ReceptionsHaveOrigin, AcksHaveOrigin;
    OriginsGrow(cfg, s.log, [e]);
    EventsGrow(cfg, s.log, e);
  }

  lemma OriginReceiving(cfg: Config, s: Sys)
    requires cfg.Valid() && OriginInv(cfg, s) && Deliverable(s.link.toA, s.now)
    ensures OriginInv(cfg, HandleFrame(cfg, s))
    ensures ParseReply(cfg, s.link.toA[0].frame).AckFor?
  {
    hide ParseReply, Drop, ReceptionsHaveOrigin, AcksHaveOrigin, DataOrigin;
    var d := s.link.toA[0];
    assert AckOrigin(cfg, s.log, d);
    var j :| 0 <= j < |s.log| && IsEchoOf(cfg, s.log[j], d);
    AckFrameParses(cfg, s.log[j], d);
    OriginQuiet(cfg, s, PopA(s));
    var sn := s.log[j].sn;
    if sn in s.gate.inflight {
      assert Confirms(cfg, s.log[j], AckEvent(s, sn));
      OriginLogging(cfg, PopA(s), HandleFrame(cfg, s), AckEvent(s, sn));
    }
  }

  lemma OriginEcho(cfg: Config, env: Env, s: Sys, sn: byte, payload: bytes)
    requires OriginInv(cfg, s)
    requires exists j :: 0 <= j < |s.log| && Arrives(cfg, s.log[j], RxOk(s.now, sn, payload))
    ensures OriginInv(cfg, Echo(cfg, env, s, sn, payload))
  {
    hide DataOrigin, ReceptionsHaveOrigin, AcksHaveOrigin, Arrives, Confirms;
    var t := Echo(cfg, env, s, sn, payload);
    var e, f := RxOk(s.now, sn, payload), AckSent(s.now, sn);
    OriginsGrow(cfg, s.log, [e, f]);
    EventsGrow(cfg, s.log, e);
    EventsGrow(cfg, s.log + [e], f);
    assert s.log + [e, f] == s.log + [e] + [f];
    var d := Delivery(s.now + cfg.latencyMs, AckFrame(s.ackSeq, sn));
    InsertHolds(s.link.toA, d);
    forall x <- t.link.toA ensures AckOrigin(cfg, t.log, x) {
      if x !in s.link.toA {
        assert x == d && IsEchoOf(cfg, t.log[|s.log|], x);
      }
    }
  }

  lemma OriginRelaying(cfg: Config, env: Env, s: Sys)
    requires cfg.Valid() && OriginInv(cfg, s) && Deliverable(s.link.toB, s.now)
    ensures OriginInv(cfg, Relay(cfg, env, s))
    ensures ParseData(cfg, s.link.toB[0].frame).DataFor?
  {
    hide ParseData, ReceptionsHaveOrigin, AcksHaveOrigin, AckOrigin, Echo;
    var d := s.link.toB[0];
    assert DataOrigin(cfg, s.log, d);
    var j :| 0 <= j < |s.log| && IsSendOf(cfg, s.log[j], d);
    DataFrameParses(cfg, s.log[j], d);
    OriginQuiet(cfg, s, PopB(s));
    assert Arrives(cfg, s.log[j], RxOk(s.now, s.log[j].sn, s.log[j].payload));
    OriginEcho(cfg, env, PopB(s), s.log[j].sn, s.log[j].payload);
  }

  lemma OriginSending(cfg: Config, env: Env, s: Sys)
    requires cfg.Valid() && DataInv(cfg, s) && OriginInv(cfg, s) && s.pending != []
    ensures OriginInv(cfg, SendNext(cfg, env, s))
  {
    hide OriginInv, RecordSend, SendFromA;
    assert Encodes(cfg, s.dataset, s.pending[0].id, s.pending[0].payload);
    OriginTransmitting(cfg, env, s, SendNext(cfg, env, s), s.pending[0], s.seqNo);
  }

  lemma OriginRetrying(cfg: Config, env: Env, s: Sys, sn: byte)
    requires cfg.Valid() && DataInv(cfg, s) && OriginInv(cfg, s) && sn in s.payloads
    ensures OriginInv(cfg, Retry(cfg, env, s, sn))
  {
    hide OriginInv, RecordSend, SendFromA;
    assert HeldInv(cfg, s, sn, s.payloads[sn]);
    OriginTransmitting(cfg, env, s, Retry(cfg, env, s, sn), s.payloads[sn], sn);
  }

  lemma OriginInvStep(cfg: Config, env: Env, s: Sys, step: Step)
    requires cfg.Valid() && DataInv(cfg, s) && OriginInv(cfg, s) && Enabled(cfg, s, step)
    ensures OriginInv(cfg, Apply(cfg, env, s, step))
  {
    hide OriginInv, DataInv, HandleFrame, Retry, SendNext, Relay, Windows.Feed, CanSend, Drop;
    match step {
      case Sampling => OriginQuiet(cfg, s, QueueWindow(cfg, env, s));
      case Receiving => OriginReceiving(cfg, s);
      case Retrying(sn) => OriginRetrying(cfg, env, s, sn);
      case Failing(sn) => OriginLogging(cfg, s, Fail(s, sn), Fail(s, sn).log[|s.log|]);
      case Sending => OriginSending(cfg, env, s);
      case Relaying => OriginRelaying(cfg, env, s);
      case Ticking(ms) => OriginQuiet(cfg, s, Tick(s, ms));
    }
  }

  // ---------------------------------------------------------------------
  // Conservation of frames
  // ---------------------------------------------------------------------

  /** How many of the first n drop decisions were drops. */
  function Dropped(drop: nat -> bool, n: nat): nat {
    if n == 0 then 0 else Dropped(drop, n - 1) + (if drop(n - 1) then 1 else 0)
  }

  ghost predicate FrameInv(env: Env, s: Sys) {
    && s.link.usedAb == Dropped(env.dropAb, s.link.usedAb) + |s.link.toB| + s.rxOkCount
    && s.gate.ackedCount + Dropped(env.dropBa, s.link.usedBa) + |s.link.toA| <= s.link.usedBa
  }

  lemma FrameTransmitting(cfg: Config, env: Env, s: Sys, w: PendingWindow, sn: byte)
    requires FrameInv(env, s)
    ensures FrameInv(env, Transmit(cfg, env, s, w, sn))
  {
    hide Attempt, DataFrame, Insert;
    InsertHolds(s.link.toB, Delivery(s.now + cfg.latencyMs, DataFrame(sn, w.payload)));
  }

  lemma FrameRelaying(cfg: Config, env: Env, s: Sys)
    requires FrameInv(env, s) && Deliverable(s.link.toB, s.now) && ParseData(cfg, s.link.toB[0].frame).DataFor?
    ensures FrameInv(env, Relay(cfg, env, s))
  {
    hide ParseData, Insert;
    var sn := ParseData(cfg, s.link.toB[0].frame).sn;
    InsertHolds(s.link.toA, Delivery(s.now + cfg.latencyMs, AckFrame(s.ackSeq, sn)));
  }

  lemma FrameReceiving(cfg: Config, env: Env, s: Sys)
    requires FrameInv(env, s) && Deliverable(s.link.toA, s.now)
    ensures FrameInv(env, HandleFrame(cfg, s))
  {
    hide ParseReply;
  }

  lemma FrameInvStep(cfg: Config, env: Env, s: Sys, step: Step)
    requires cfg.Valid() && OriginInv(cfg, s) && FrameInv(env, s) && Enabled(cfg, s, step)
    ensures FrameInv(env, Apply(cfg, env, s, step))
  {
    hide OriginInv, HandleFrame, Transmit, Relay, Windows.Feed, CanSend, Dropped;
    match step {
      case Receiving => FrameReceiving(cfg, env, s);
      case Retrying(sn) => FrameTransmitting(cfg, env, s, s.payloads[sn], sn);
      case Sending => FrameTransmitting(cfg, env, s, s.pending[0], s.seqNo);
      case Relaying =>
        OriginRelaying(cfg, env, s);
        FrameRelaying(cfg, env, s);
      case _ =>
    }
  }
}
