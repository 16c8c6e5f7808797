/** What every elementary step keeps: the in-flight table, the window numbering, the payload join,
    and the conservation of windows. Each property is proved for every reachable state. */
module ArqInvariants {
  import opened Basics
  import opened PacketCodec
  import opened Windows
  import opened ArqModel
  import opened LogCounts

  // ---------------------------------------------------------------------
  // The in-flight table
  // ---------------------------------------------------------------------

  ghost predicate TableInv(cfg: Config, s: Sys) {
    && s.payloads.Keys == s.gate.inflight.Keys
    && |s.gate.inflight| <= cfg.maxInflight
    && (forall k <- s.gate.inflight :: EntryInv(s.gate.inflight[k], k, s.now))
    && (s.gate.lastTxMs.None? ==> s.gate.inflight == map[] && s.gate.sentCount == 0)
    && (s.gate.lastTxMs.Some? ==> s.gate.lastTxMs.value <= s.now)
  }

  ghost predicate EntryInv(e: Inflight, k: byte, now: int) {
    && e.sn == k
    && 1 <= e.attempts
    && e.firstTxMs <= e.lastTxMs <= now
    && e.ackTimeoutMs > 0
  }

  lemma RemoveSize<K, V>(m: map<K, V>, k: K)
    requires k in m
    ensures |m - {k}| == |m| - 1
  {
    assert (m - {k}).Keys == m.Keys - {k};
    assert |(m - {k}).Keys| == |m - {k}|;
  }

  lemma UpdateSize<K, V>(m: map<K, V>, k: K, v: V)
    ensures |m[k := v]| == if k in m then |m| else |m| + 1
  {
    assert m[k := v].Keys == m.Keys + {k};
    assert |m[k := v].Keys| == |m[k := v]|;
    if k in m {
      assert m.Keys + {k} == m.Keys;
    }
  }

  lemma HasEntry<K, V>(m: map<K, V>, k: K)
    requires k in m
    ensures |m| >= 1
  {
    assert k in m.Keys;
    assert |m| == |m.Keys|;
  }

  lemma TableTransmitted(cfg: Config, s: Sys, t: Sys, n: nat, sn: byte)
    requires cfg.Valid() && TableInv(cfg, s) && n <= 255 && CanSend(cfg, s.gate, s.now)
    requires t.gate == RecordSend(s.gate, s.now, sn, cfg.toaMs(n), cfg.ackTimeoutMs(n)) && t.now == s.now
    requires t.payloads.Keys == s.payloads.Keys + {sn}
    ensures TableInv(cfg, t)
  {
    assert cfg.ackTimeoutMs(n) > 0;
    UpdateSize(s.gate.inflight, sn, t.gate.inflight[sn]);
    forall k <- t.gate.inflight ensures EntryInv(t.gate.inflight[k], k, t.now) {
      if k in s.gate.inflight {
        assert EntryInv(s.gate.inflight[k], k, s.now);
      }
    }
  }

  lemma DropTable(cfg: Config, s: Sys, t: Sys, sn: byte)
    requires TableInv(cfg, s) && sn in s.gate.inflight
    requires t.gate.inflight == s.gate.inflight - {sn} && t.payloads == s.payloads - {sn}
    requires t.gate.lastTxMs == s.gate.lastTxMs && t.gate.sentCount == s.gate.sentCount && t.now == s.now
    ensures TableInv(cfg, t)
  {
    RemoveSize(s.gate.inflight, sn);
  }

  lemma TableUnchanged(cfg: Config, s: Sys, t: Sys)
    requires TableInv(cfg, s)
    requires t.gate == s.gate && t.payloads == s.payloads && t.now >= s.now
    ensures TableInv(cfg, t)
  {
    forall k <- t.gate.inflight ensures EntryInv(t.gate.inflight[k], k, t.now) {
      assert EntryInv(s.gate.inflight[k], k, s.now);
    }
  }

  lemma TableReceiving(cfg: Config, s: Sys)
    requires TableInv(cfg, s) && Deliverable(s.link.toA, s.now)
    ensures TableInv(cfg, HandleFrame(cfg, s))
  {
    hide FromBytes, ParseReply, ParseData, EntryInv, Without;
    match ParseReply(cfg, s.link.toA[0].frame) {
      case AckFor(sn) =>
        if sn in s.gate.inflight {
          DropTable(cfg, s, Acknowledge(PopA(s), sn), sn);
        }
      case _ => TableUnchanged(cfg, s, HandleFrame(cfg, s));
    }
  }

  lemma TableRetrying(cfg: Config, env: Env, s: Sys, sn: byte)
    requires cfg.Valid() && TableInv(cfg, s) && DataInv(cfg, s)
    requires sn in s.payloads && CanSend(cfg, s.gate, s.now)
    ensures TableInv(cfg, Retry(cfg, env, s, sn))
  {
    hide RecordSend, SendFromA, EntryInv, CanSend;
    assert HeldInv(cfg, s, sn, s.payloads[sn]);
    assert s.payloads.Keys == s.payloads.Keys + {sn};
    TableTransmitted(cfg, s, Retry(cfg, env, s, sn), 2 + |s.payloads[sn].payload|, sn);
  }

  lemma TableSending(cfg: Config, env: Env, s: Sys)
    requires cfg.Valid() && TableInv(cfg, s) && DataInv(cfg, s)
    requires s.pending != [] && CanSend(cfg, s.gate, s.now)
    ensures TableInv(cfg, SendNext(cfg, env, s))
  {
    hide RecordSend, SendFromA, EntryInv, CanSend;
    assert Encodes(cfg, s.dataset, s.pending[0].id, s.pending[0].payload);
    TableTransmitted(cfg, s, SendNext(cfg, env, s), 2 + |s.pending[0].payload|, s.seqNo);
  }

  lemma TableRelaying(cfg: Config, env: Env, s: Sys)
    requires TableInv(cfg, s) && Deliverable(s.link.toB, s.now)
    ensures TableInv(cfg, Relay(cfg, env, s))
  {
    hide FromBytes, ParseReply, ParseData, SendFromB, TableInv;
    TableUnchanged(cfg, s, Relay(cfg, env, s));
  }

  lemma TableInvStep(cfg: Config, env: Env, s: Sys, step: Step)
    requires cfg.Valid() && TableInv(cfg, s) && DataInv(cfg, s) && Enabled(cfg, s, step)
    ensures TableInv(cfg, Apply(cfg, env, s, step))
  {
    hide TableInv, DataInv, HandleFrame, Retry, SendNext, Relay, Feed, CanSend, Without, Expired;
    match step {
      case Receiving => TableReceiving(cfg, s);
      case Failing(sn) => DropTable(cfg, s, Fail(s, sn), sn);
      case Retrying(sn) => TableRetrying(cfg, env, s, sn);
      case Sending => TableSending(cfg, env, s);
      case Sampling => TableUnchanged(cfg, s, QueueWindow(cfg, env, s));
      case Relaying => TableRelaying(cfg, env, s);
      case Ticking(ms) => TableUnchanged(cfg, s, Tick(s, ms));
    }
  }

  // ---------------------------------------------------------------------
  // Window numbering and the join between windows, frames and samples
  // ---------------------------------------------------------------------

  /** `w` is the window that was built from the dataset record with its id. */
  ghost predicate Encodes(cfg: Config, dataset: seq<seq<real>>, id: nat, payload: bytes) {
    id < |dataset| && payload == cfg.encode(dataset[id])
  }

  ghost predicate DataInv(cfg: Config, s: Sys) {
    && |s.dataset| == s.generated == s.sent + |s.pending|
    && s.seqNo == SeqOf(s.sent)
    && PendingInv(cfg, s.dataset, s.sent, s.pending)
    && (forall k <- s.payloads :: HeldInv(cfg, s, k, s.payloads[k]))
    && (forall i :: 0 <= i < |s.log| && s.log[i].TxSent? ==> SentInv(cfg, s, s.log[i]))
  }

  /** The queue holds the windows not yet sent, in order. */
  ghost predicate PendingInv(cfg: Config, dataset: seq<seq<real>>, sent: nat, pending: seq<PendingWindow>) {
    forall i :: 0 <= i < |pending| ==>
      pending[i].id == sent + i && Encodes(cfg, dataset, pending[i].id, pending[i].payload)
  }

  ghost predicate HeldInv(cfg: Config, s: Sys, k: byte, w: PendingWindow) {
    w.id < s.sent && SeqOf(w.id) == k && Encodes(cfg, s.dataset, w.id, w.payload)
  }

  ghost predicate SentInv(cfg: Config, s: Sys, e: Event)
    requires e.TxSent?
  {
    && e.id < s.sent && e.sn == SeqOf(e.id) && Encodes(cfg, s.dataset, e.id, e.payload)
    && e.toaMs == cfg.toaMs(2 + |e.payload|) && e.ackTimeoutMs == cfg.ackTimeoutMs(2 + |e.payload|)
    && e.guardMs == cfg.guardMs && e.ts <= s.now && e.attempt >= 1
  }

  /** Steps that keep the queue, hold no new window and log no transmission. */
  lemma DataQuiet(cfg: Config, s: Sys, t: Sys)
    requires DataInv(cfg, s)
    requires t.dataset == s.dataset && t.generated == s.generated && t.sent == s.sent
    requires t.pending == s.pending && t.seqNo == s.seqNo && t.now >= s.now
    requires forall k <- t.payloads :: k in s.payloads && t.payloads[k] == s.payloads[k]
    requires |t.log| >= |s.log| && t.log[..|s.log|] == s.log
    requires forall i :: |s.log| <= i < |t.log| ==> !t.log[i].TxSent?
    ensures DataInv(cfg, t)
  {
    forall k <- t.payloads ensures HeldInv(cfg, t, k, t.payloads[k]) {
      assert HeldInv(cfg, s, k, s.payloads[k]);
    }
    forall i | 0 <= i < |t.log| && t.log[i].TxSent? ensures SentInv(cfg, t, t.log[i]) {
      assert t.log[i] == t.log[..|s.log|][i] == s.log[i];
      assert SentInv(cfg, s, s.log[i]);
    }
  }

  lemma DataSampling(cfg: Config, env: Env, s: Sys)
    requires cfg.Valid() && DataInv(cfg, s)
    ensures DataInv(cfg, QueueWindow(cfg, env, s))
  {
    hide SeqOf, Feed;
    var t := QueueWindow(cfg, env, s);
    if t.generated == s.generated {
      DataQuiet(cfg, s, t);
    } else {
      assert forall id, p :: Encodes(cfg, s.dataset, id, p) ==> Encodes(cfg, t.dataset, id, p);
      forall k <- t.payloads ensures HeldInv(cfg, t, k, t.payloads[k]) {
        assert HeldInv(cfg, s, k, s.payloads[k]);
      }
      forall i | 0 <= i < |t.log| && t.log[i].TxSent? ensures SentInv(cfg, t, t.log[i]) {
        assert SentInv(cfg, s, s.log[i]);
      }
    }
  }

  /** Logging one transmission of a window that the node holds. */
  lemma LogsTransmission(cfg: Config, s: Sys, t: Sys, w: PendingWindow, sn: byte)
    requires cfg.Valid() && DataInv(cfg, s) && TableInv(cfg, s)
    requires t.dataset == s.dataset && t.sent >= s.sent && t.now == s.now && w.id < t.sent
    requires sn == SeqOf(w.id) && Encodes(cfg, s.dataset, w.id, w.payload)
    requires |t.log| == |s.log| + 1 && t.log[..|s.log|] == s.log
    requires var e := t.log[|s.log|];
             e.TxSent? && e.ts == s.now && e.id == w.id && e.sn == sn && e.payload == w.payload
             && e.toaMs == cfg.toaMs(2 + |w.payload|) && e.ackTimeoutMs == cfg.ackTimeoutMs(2 + |w.payload|)
             && e.attempt == Attempt(s.gate, sn) && e.guardMs == cfg.guardMs
    ensures forall i :: 0 <= i < |t.log| && t.log[i].TxSent? ==> SentInv(cfg, t, t.log[i])
  {
    hide SeqOf;
    forall i | 0 <= i < |t.log| && t.log[i].TxSent? ensures SentInv(cfg, t, t.log[i]) {
      if i < |s.log| {
        assert t.log[i] == t.log[..|s.log|][i] == s.log[i];
        assert SentInv(cfg, s, s.log[i]);
      } else {
        assert sn in s.gate.inflight ==> EntryInv(s.gate.inflight[sn], sn, s.now);
      }
    }
  }

  lemma PendingPops(cfg: Config, dataset: seq<seq<real>>, sent: nat, pending: seq<PendingWindow>)
    requires PendingInv(cfg, dataset, sent, pending) && pending != []
    ensures PendingInv(cfg, dataset, sent + 1, pending[1..])
    ensures pending[0].id == sent && Encodes(cfg, dataset, sent, pending[0].payload)
  {
  }

  lemma NextSeq(n: nat)
    ensures SeqOf(n + 1) == (SeqOf(n) + 1) % 256
  {
  }

  lemma DataSending(cfg: Config, env: Env, s: Sys)
    requires cfg.Valid() && TableInv(cfg, s) && DataInv(cfg, s) && s.pending != []
    ensures DataInv(cfg, SendNext(cfg, env, s))
  {
    hide RecordSend, SendFromA, EntryInv, Encodes, HeldInv, SentInv, DataFrame, CanSend, PendingInv, Attempt, SeqOf;
    var t := SendNext(cfg, env, s);
    NextSeq(s.sent);
    PendingPops(cfg, s.dataset, s.sent, s.pending);
    LogsTransmission(cfg, s, t, s.pending[0], s.seqNo);
    HoldingNewWindow(cfg, s, t, s.pending[0]);
  }

  lemma HoldingNewWindow(cfg: Config, s: Sys, t: Sys, w: PendingWindow)
    requires DataInv(cfg, s) && t.dataset == s.dataset
    requires w.id == s.sent && t.sent == s.sent + 1 && Encodes(cfg, s.dataset, w.id, w.payload)
    requires t.payloads == s.payloads[s.seqNo := w]
    ensures forall k <- t.payloads :: HeldInv(cfg, t, k, t.payloads[k])
  {
    hide SeqOf;
    forall k <- t.payloads ensures HeldInv(cfg, t, k, t.payloads[k]) {
      if k != s.seqNo {
        assert HeldInv(cfg, s, k, s.payloads[k]);
      }
    }
  }

  lemma DataRetrying(cfg: Config, env: Env, s: Sys, sn: byte)
    requires cfg.Valid() && TableInv(cfg, s) && DataInv(cfg, s) && sn in s.payloads
    ensures DataInv(cfg, Retry(cfg, env, s, sn))
  {
    hide SeqOf, RecordSend, SendFromA, EntryInv;
    var t := Retry(cfg, env, s, sn);
    assert HeldInv(cfg, s, sn, s.payloads[sn]);
    LogsTransmission(cfg, s, t, s.payloads[sn], sn);
    forall k <- t.payloads ensures HeldInv(cfg, t, k, t.payloads[k]) {
      assert HeldInv(cfg, s, k, s.payloads[k]);
    }
  }

  lemma DataReceiving(cfg: Config, s: Sys)
    requires DataInv(cfg, s) && Deliverable(s.link.toA, s.now)
    ensures DataInv(cfg, HandleFrame(cfg, s))
  {
    hide DataInv, FromBytes, Without;
    DataQuiet(cfg, s, HandleFrame(cfg, s));
  }

  lemma DataRelaying(cfg: Config, env: Env, s: Sys)
    requires DataInv(cfg, s) && Deliverable(s.link.toB, s.now)
    ensures DataInv(cfg, Relay(cfg, env, s))
  {
    hide DataInv, FromBytes, SendFromB;
    DataQuiet(cfg, s, Relay(cfg, env, s));
  }

  lemma DataInvStep(cfg: Config, env: Env, s: Sys, step: Step)
    requires cfg.Valid() && TableInv(cfg, s) && DataInv(cfg, s) && Enabled(cfg, s, step)
    ensures DataInv(cfg, Apply(cfg, env, s, step))
  {
    hide DataInv, TableInv, HandleFrame, Retry, SendNext, Relay, QueueWindow, CanSend, Without;
    match step {
      case Sampling => DataSampling(cfg, env, s);
      case Sending => DataSending(cfg, env, s);
      case Retrying(sn) => DataRetrying(cfg, env, s, sn);
      case Receiving => DataReceiving(cfg, s);
      case Failing(sn) => DataQuiet(cfg, s, Fail(s, sn));
      case Relaying => DataRelaying(cfg, env, s);
      case Ticking(ms) => DataQuiet(cfg, s, Tick(s, ms));
    }
  }

  /** The builder and the dataset are what the window builder makes of the samples so far. */
  ghost predicate SampleInv(cfg: Config, s: Sys)
    requires cfg.window.Valid()
  {
    && s.builder == After(cfg.window, s.fed)
    && s.dataset == Emitted(cfg.window, s.fed)
    && (cfg.maxWindows.Some? ==> s.generated <= cfg.maxWindows.value)
  }

  lemma SampleSampling(cfg: Config, env: Env, s: Sys)
    requires cfg.Valid() && SampleInv(cfg, s)
    ensures SampleInv(cfg, QueueWindow(cfg, env, s))
  {
    hide Feed;
    if WantsSample(cfg, s) {
      match env.sample(s.samplesTaken) {
        case SampleRow(row) => EmittedStep(cfg.window, s.fed, row);
        case _ =>
      }
    }
  }

  lemma EmittedStep(w: WindowSpec, rows: seq<Row>, row: Row)
    requires w.Valid()
    ensures var (b, out) := Feed(w, After(w, rows), row);
            && After(w, rows + [row]) == b
            && Emitted(w, rows + [row]) == if out.Some? then Emitted(w, rows) + [out.value] else Emitted(w, rows)
  {
    hide Feed;
    assert (rows + [row])[..|rows + [row]| - 1] == rows;
  }

  lemma SampleInvStep(cfg: Config, env: Env, s: Sys, step: Step)
    requires cfg.Valid() && SampleInv(cfg, s) && Enabled(cfg, s, step)
    ensures SampleInv(cfg, Apply(cfg, env, s, step))
  {
    hide Feed, After, Emitted, QueueWindow, RecordSend, SendFromA, SendFromB, FromBytes, Without, CanSend;
    match step {
      case Sampling => SampleSampling(cfg, env, s);
      case _ =>
    }
  }

  // ---------------------------------------------------------------------
  // Conservation of windows
  // ---------------------------------------------------------------------

  predicate IsInFlight(s: Sys, w: nat) {
    SeqOf(w) in s.payloads && s.payloads[SeqOf(w)].id == w
  }

  function One(b: bool): nat {
    if b then 1 else 0
  }

  /** Nothing is lost only if the SEQ of the window sent was free. */
  lemma NotHeld(s: Sys, t: Sys)
    requires t.lost == if s.seqNo in s.payloads then s.lost + {s.payloads[s.seqNo].id} else s.lost
    ensures s.seqNo in s.payloads ==> s.payloads[s.seqNo].id in t.lost
    ensures t.lost == {} ==> s.lost == {}
  {
  }

  /** Every window sent so far is in exactly one place: reported once as acknowledged or failed, in
      flight, or lost to a reuse of its SEQ. */
  ghost predicate FateInv(s: Sys) {
    forall w: nat ::
      Resolutions(s.log, w) + One(IsInFlight(s, w)) + One(w in s.lost) == One(w < s.sent)
  }

  lemma FateAt(s: Sys, w: nat)
    requires FateInv(s)
    ensures Resolutions(s.log, w) + One(IsInFlight(s, w)) + One(w in s.lost) == One(w < s.sent)
  {
  }

  lemma FateUnchanged(s: Sys, t: Sys)
    requires FateInv(s)
    requires t.payloads == s.payloads && t.lost == s.lost && t.sent == s.sent
    requires t.log == s.log || (t.log != [] && t.log[..|t.log| - 1] == s.log && !t.log[|t.log| - 1].AckReceived?
                                && !t.log[|t.log| - 1].TxFailed?)
    ensures FateInv(t)
  {
    hide SeqOf;
    forall w: nat
      ensures Resolutions(t.log, w) + One(IsInFlight(t, w)) + One(w in t.lost) == One(w < t.sent)
    {
      FateAt(s, w);
      if t.log != s.log {
        Snoc(s.log, t.log[|t.log| - 1]);
        assert t.log == s.log + [t.log[|t.log| - 1]];
      }
    }
  }

  lemma FateResolved(cfg: Config, s: Sys, t: Sys, sn: byte, e: Event)
    requires DataInv(cfg, s) && FateInv(s) && sn in s.payloads
    requires t.payloads == s.payloads - {sn} && t.lost == s.lost && t.sent == s.sent && t.log == s.log + [e]
    requires (e.AckReceived? || e.TxFailed?) && e.window == Some(s.payloads[sn].id)
    ensures FateInv(t)
  {
    hide SeqOf;
    Snoc(s.log, e);
    assert HeldInv(cfg, s, sn, s.payloads[sn]);
    forall w: nat
      ensures Resolutions(t.log, w) + One(IsInFlight(t, w)) + One(w in t.lost) == One(w < t.sent)
    {
      FateAt(s, w);
      assert Resolves(e, w) <==> w == s.payloads[sn].id;
    }
  }

  lemma FateSent(cfg: Config, env: Env, s: Sys)
    requires cfg.Valid() && DataInv(cfg, s) && FateInv(s) && s.pending != []
    ensures FateInv(SendNext(cfg, env, s))
  {
    hide SeqOf, RecordSend, SendFromA, Resolutions, Encodes;
    var t := SendNext(cfg, env, s);
    var w0 := s.pending[0].id;
    Snoc(s.log, t.log[|s.log|]);
    forall w: nat
      ensures Resolutions(t.log, w) + One(IsInFlight(t, w)) + One(w in t.lost) == One(w < t.sent)
    {
      FateAt(s, w);
      assert w0 == s.sent && s.seqNo == SeqOf(w0);
      if SeqOf(w) == s.seqNo && s.seqNo in s.payloads {
        assert HeldInv(cfg, s, s.seqNo, s.payloads[s.seqNo]);
      }
    }
  }

  lemma FateReceiving(cfg: Config, s: Sys)
    requires TableInv(cfg, s) && DataInv(cfg, s) && FateInv(s) && Deliverable(s.link.toA, s.now)
    ensures FateInv(HandleFrame(cfg, s))
  {
    hide SeqOf, FateInv, DataInv, FromBytes, Without;
    var t := HandleFrame(cfg, s);
    match ParseReply(cfg, s.link.toA[0].frame) {
      case AckFor(sn) =>
        if sn in s.gate.inflight {
          FateResolved(cfg, s, t, sn, AckEvent(s, sn));
        } else {
          FateUnchanged(s, t);
        }
      case _ => FateUnchanged(s, t);
    }
  }

  lemma FateFailing(cfg: Config, s: Sys, sn: byte)
    requires TableInv(cfg, s) && DataInv(cfg, s) && FateInv(s) && sn in s.gate.inflight
    ensures FateInv(Fail(s, sn))
  {
    hide FateInv, DataInv, Without;
    FateResolved(cfg, s, Fail(s, sn), sn, Fail(s, sn).log[|s.log|]);
  }

  lemma FateEcho(cfg: Config, env: Env, s: Sys, sn: byte, payload: bytes)
    requires FateInv(s)
    ensures FateInv(Echo(cfg, env, s, sn, payload))
  {
    hide SeqOf, SendFromB, Resolutions;
    var t := Echo(cfg, env, s, sn, payload);
    Snoc2(s.log, RxOk(s.now, sn, payload), AckSent(s.now, sn));
    forall w: nat
      ensures Resolutions(t.log, w) + One(IsInFlight(t, w)) + One(w in t.lost) == One(w < t.sent)
    {
      FateAt(s, w);
    }
  }

  lemma FateRelaying(cfg: Config, env: Env, s: Sys)
    requires FateInv(s) && Deliverable(s.link.toB, s.now)
    ensures FateInv(Relay(cfg, env, s))
  {
    hide FateInv, ParseData, Echo;
    FateUnchanged(s, PopB(s));
    match ParseData(cfg, s.link.toB[0].frame) {
      case DataFor(sn, payload) => FateEcho(cfg, env, PopB(s), sn, payload);
      case Malformed => FateUnchanged(s, Relay(cfg, env, s));
    }
  }

  lemma FateInvStep(cfg: Config, env: Env, s: Sys, step: Step)
    requires cfg.Valid() && TableInv(cfg, s) && DataInv(cfg, s) && FateInv(s) && Enabled(cfg, s, step)
    ensures FateInv(Apply(cfg, env, s, step))
  {
    hide FateInv, DataInv, TableInv, HandleFrame, Fail, SendNext, Relay, CanSend, RecordSend, SendFromA, Feed;
    match step {
      case Receiving => FateReceiving(cfg, s);
      case Failing(sn) => FateFailing(cfg, s, sn);
      case Sending => FateSent(cfg, env, s);
      case Relaying => FateRelaying(cfg, env, s);
      case Retrying(sn) => FateUnchanged(s, Retry(cfg, env, s, sn));
      case Sampling => FateUnchanged(s, QueueWindow(cfg, env, s));
      case Ticking(ms) => FateUnchanged(s, Tick(s, ms));
    }
  }

  /** The counters of the gate are the counts of the log, and every window is accounted for. */
  ghost predicate CountInv(s: Sys) {
    && s.gate.sentCount == Num(AnySent, s.log)
    && s.gate.ackedCount == Num(Acked, s.log)
    && s.gate.retriesTotal == Num(Resent, s.log)
    && s.gate.totalToaMs == ToaSum(s.log)
    && s.rxOkCount == Num(Received, s.log) == Num(Echoed, s.log)
    && s.generated == |s.pending| + |s.gate.inflight| + s.gate.ackedCount + Num(Failed, s.log) + |s.lost|
    && s.sent + s.gate.retriesTotal == s.gate.sentCount + |s.lost|
    && s.link.usedAb == s.gate.sentCount
    && s.link.usedBa == s.rxOkCount
  }

  lemma CountTransmit(cfg: Config, env: Env, s: Sys, w: PendingWindow, sn: byte)
    requires cfg.Valid() && TableInv(cfg, s) && CountInv(s)
    ensures var t := Transmit(cfg, env, s, w, sn);
            && t.gate.sentCount == Num(AnySent, t.log) == s.gate.sentCount + 1
            && t.gate.ackedCount == Num(Acked, t.log) == s.gate.ackedCount
            && t.gate.retriesTotal == Num(Resent, t.log) == s.gate.retriesTotal + One(sn in s.gate.inflight)
            && t.gate.totalToaMs == ToaSum(t.log)
            && Num(Received, t.log) == Num(Received, s.log) && Num(Echoed, t.log) == Num(Echoed, s.log)
            && Num(Failed, t.log) == Num(Failed, s.log)
            && |t.gate.inflight| == |s.gate.inflight| + One(sn !in s.gate.inflight)
            && t.link.usedAb == s.link.usedAb + 1 && t.link.usedBa == s.link.usedBa
  {
    hide SeqOf, Num, ToaSum, Insert, DataFrame;
    var t := Transmit(cfg, env, s, w, sn);
    Snoc(s.log, t.log[|s.log|]);
    UpdateSize(s.gate.inflight, sn, t.gate.inflight[sn]);
    assert sn in s.gate.inflight ==> EntryInv(s.gate.inflight[sn], sn, s.now);
  }

  lemma CountAcknowledging(s: Sys, sn: byte)
    requires CountInv(s) && sn in s.gate.inflight
    ensures CountInv(Acknowledge(s, sn))
  {
    hide Num, ToaSum, Without;
    RemoveSize(s.gate.inflight, sn);
    Snoc(s.log, AckEvent(s, sn));
  }

  lemma CountReceiving(cfg: Config, s: Sys)
    requires CountInv(s) && Deliverable(s.link.toA, s.now)
    ensures CountInv(HandleFrame(cfg, s))
  {
    hide Num, ToaSum, FromBytes, Acknowledge;
    match ParseReply(cfg, s.link.toA[0].frame) {
      case AckFor(sn) =>
        if sn in s.gate.inflight {
          CountAcknowledging(PopA(s), sn);
        }
      case BadFrame => Snoc(s.log, TxParseFail(s.now));
      case OtherFrame =>
    }
  }

  lemma CountSending(cfg: Config, env: Env, s: Sys)
    requires cfg.Valid() && TableInv(cfg, s) && DataInv(cfg, s) && FateInv(s) && CountInv(s) && s.pending != []
    ensures CountInv(SendNext(cfg, env, s))
  {
    hide SeqOf, Num, ToaSum, RecordSend, SendFromA, Resolutions, Encodes;
    CountTransmit(cfg, env, s, s.pending[0], s.seqNo);
    if s.seqNo in s.payloads {
      var w := s.payloads[s.seqNo].id;
      assert HeldInv(cfg, s, s.seqNo, s.payloads[s.seqNo]);
      FateAt(s, w);
      assert w !in s.lost;
    }
  }

  lemma CountEcho(cfg: Config, env: Env, s: Sys, sn: byte, payload: bytes)
    requires CountInv(s)
    ensures CountInv(Echo(cfg, env, s, sn, payload))
  {
    hide Num, ToaSum, AckFrame, Insert;
    Snoc2(s.log, RxOk(s.now, sn, payload), AckSent(s.now, sn));
  }

  lemma CountRelaying(cfg: Config, env: Env, s: Sys)
    requires CountInv(s) && Deliverable(s.link.toB, s.now)
    ensures CountInv(Relay(cfg, env, s))
  {
    hide Num, ToaSum, ParseData, Echo;
    match ParseData(cfg, s.link.toB[0].frame) {
      case DataFor(sn, payload) => CountEcho(cfg, env, PopB(s), sn, payload);
      case Malformed => Snoc(s.log, RxParseFail(s.now));
    }
  }

  lemma CountFailing(s: Sys, sn: byte)
    requires CountInv(s) && sn in s.gate.inflight
    ensures CountInv(Fail(s, sn))
  {
    hide Num, ToaSum, Without;
    RemoveSize(s.gate.inflight, sn);
    Snoc(s.log, Fail(s, sn).log[|s.log|]);
  }

  lemma CountRetrying(cfg: Config, env: Env, s: Sys, sn: byte)
    requires cfg.Valid() && TableInv(cfg, s) && CountInv(s) && sn in s.payloads
    ensures CountInv(Retry(cfg, env, s, sn))
  {
    CountTransmit(cfg, env, s, s.payloads[sn], sn);
  }

  lemma CountQuiet(s: Sys, t: Sys)
    requires CountInv(s)
    requires t.gate == s.gate && t.log == s.log && t.rxOkCount == s.rxOkCount && t.lost == s.lost
    requires t.sent == s.sent && t.link == s.link && t.generated - |t.pending| == s.generated - |s.pending|
    ensures CountInv(t)
  {
  }

  lemma CountInvStep(cfg: Config, env: Env, s: Sys, step: Step)
    requires cfg.Valid() && TableInv(cfg, s) && DataInv(cfg, s) && FateInv(s) && CountInv(s)
    requires Enabled(cfg, s, step)
    ensures CountInv(Apply(cfg, env, s, step))
  {
    hide CountInv, TableInv, DataInv, FateInv, Feed, HandleFrame, Retry, Fail, SendNext, Relay, CanSend;
    match step {
      case Receiving => CountReceiving(cfg, s);
      case Failing(sn) => CountFailing(s, sn);
      case Retrying(sn) => CountRetrying(cfg, env, s, sn);
      case Sending => CountSending(cfg, env, s);
      case Relaying => CountRelaying(cfg, env, s);
      case Sampling => CountQuiet(s, QueueWindow(cfg, env, s));
      case Ticking(ms) => CountQuiet(s, Tick(s, ms));
    }
  }
}
