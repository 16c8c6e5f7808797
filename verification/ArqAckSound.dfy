/** When an acknowledgement proves delivery: three conditions under which it does in every run. (That it
    does under no other condition is the subject of ArqStaleAck.) */
module ArqAckSound {
  import opened Basics
  import opened PacketCodec
  import opened Windows
  import opened ArqModel
  import opened ArqInvariants
  import opened ArqCore
  import opened ArqSoundness
  import opened ArqStuck
  import ArqLink
  import opened ArqSampling
  import Arith

  /** One of the first n events is the reception of this payload. */
  ghost predicate Heard(log: seq<Event>, n: int, payload: bytes) {
    exists j :: 0 <= j < n <= |log| && log[j].RxOk? && log[j].payload == payload
  }

  /** Before window w is reported acknowledged, the receiver has received the encoding of record w. */
  ghost predicate AckHeard(cfg: Config, s: Sys, i: nat, w: nat)
    requires i < |s.log|
  {
    w < |s.dataset| && Heard(s.log, i, cfg.encode(s.dataset[w]))
  }

  ghost predicate AcksSound(cfg: Config, s: Sys) {
    forall i: nat, w: nat :: AcksWindow(s.log, i, w) ==> AckHeard(cfg, s, i, w)
  }

  // ---------------------------------------------------------------------
  // A table of one that never gives up
  // ---------------------------------------------------------------------

  /** At most one frame or answer is on its way; it belongs to the window in flight. */
  ghost predicate OneFrame(s: Sys) {
    && |s.link.toA| + |s.link.toB| <= |s.gate.inflight|
    && (forall k <- s.payloads, d <- s.link.toB :: d.frame == DataFrame(k, s.payloads[k].payload))
    && (s.link.toA != [] ==> forall k <- s.payloads :: Heard(s.log, |s.log|, s.payloads[k].payload))
  }

  ghost predicate OneSlotInv(cfg: Config, s: Sys) {
    SingleInv(s) && OneFrame(s) && AcksSound(cfg, s)
  }

  lemma HeardGrows(log: seq<Event>, more: seq<Event>, n: int, payload: bytes)
    requires Heard(log, n, payload)
    ensures Heard(log + more, n, payload) && Heard(log + more, |log + more|, payload)
  {
    var j :| 0 <= j < n <= |log| && log[j].RxOk? && log[j].payload == payload;
    assert (log + more)[j] == log[j];
  }

  ghost predicate NewAckHeard(cfg: Config, s: Sys, e: Event) {
    e.AckReceived? ==>
      && e.window.Some? && e.window.value < |s.dataset|
      && Heard(s.log, |s.log|, cfg.encode(s.dataset[e.window.value]))
  }

  /** Events that acknowledge nothing, and further records, leave the acknowledgements sound. */
  lemma SoundGrows(cfg: Config, s: Sys, t: Sys, more: seq<Event>)
    requires AcksSound(cfg, s) && t.log == s.log + more && s.dataset <= t.dataset
    requires forall e <- more :: NewAckHeard(cfg, s, e)
    ensures AcksSound(cfg, t)
  {
    forall i: nat, w: nat | AcksWindow(t.log, i, w) ensures AckHeard(cfg, t, i, w) {
      if i < |s.log| {
        assert AcksWindow(s.log, i, w);
        assert AckHeard(cfg, s, i, w);
        HeardGrows(s.log, more, i, cfg.encode(s.dataset[w]));
      } else {
        assert t.log[i] in more;
        HeardGrows(s.log, more, |s.log|, cfg.encode(s.dataset[w]));
        HeardLater(t.log, |s.log|, i, cfg.encode(s.dataset[w]));
      }
    }
  }

  lemma HeardLater(log: seq<Event>, n: int, m: int, payload: bytes)
    requires Heard(log, n, payload) && n <= m <= |log|
    ensures Heard(log, m, payload)
  {
  }

  lemma OnlyKey(m: map<byte, PendingWindow>, k: byte, l: byte)
    requires |m| <= 1 && k in m && l in m
    ensures k == l
  {
    if k != l {
      RemoveSize(m, k);
      HasEntry(m - {k}, l);
    }
  }

  lemma TableSizes(cfg: Config, s: Sys)
    requires TableInv(cfg, s)
    ensures |s.payloads| == |s.gate.inflight| <= cfg.maxInflight
  {
    assert |s.payloads| == |s.payloads.Keys| == |s.gate.inflight.Keys| == |s.gate.inflight|;
  }

  lemma NoFrame(s: Sys, t: Sys)
    requires OneFrame(s) && |s.gate.inflight| <= 1
    requires t.log == s.log && t.gate == s.gate && t.payloads == s.payloads
    requires t.link.toB == s.link.toB && s.link.toA != [] && t.link.toA == s.link.toA[1..]
    ensures OneFrame(t) && t.link.toA == [] && t.link.toB == []
  {
  }

  lemma AckOfHeld(cfg: Config, s: Sys, sn: byte)
    requires TableInv(cfg, s) && DataInv(cfg, s) && OneFrame(s) && sn in s.gate.inflight && s.link.toA != []
    ensures NewAckHeard(cfg, s, AckEvent(s, sn)) && sn in s.payloads
  {
    hide Heard, EntryInv, SentInv, PendingInv, SeqOf;
    assert HeldInv(cfg, s, sn, s.payloads[sn]);
  }

  lemma OneSlotReceiving(cfg: Config, s: Sys)
    requires cfg.maxInflight == 1 && TableInv(cfg, s) && DataInv(cfg, s) && OneSlotInv(cfg, s)
    requires Deliverable(s.link.toA, s.now)
    ensures OneFrame(HandleFrame(cfg, s)) && AcksSound(cfg, HandleFrame(cfg, s))
  {
    hide ParseReply, Without, AcksSound, Heard, EntryInv, DataInv;
    var t, u := HandleFrame(cfg, s), PopA(s);
    NoFrame(s, u);
    match ParseReply(cfg, s.link.toA[0].frame) {
      case AckFor(sn) =>
        if sn in s.gate.inflight {
          RemoveSize(s.gate.inflight, sn);
          AckOfHeld(cfg, s, sn);
          SoundGrows(cfg, s, t, [AckEvent(s, sn)]);
        } else {
          SoundGrows(cfg, s, t, []);
        }
      case OtherFrame => SoundGrows(cfg, s, t, []);
      case BadFrame => SoundGrows(cfg, s, t, [TxParseFail(s.now)]);
    }
  }

  lemma OneSlotSending(cfg: Config, env: Env, s: Sys)
    requires cfg.maxInflight == 1 && TableInv(cfg, s) && OneSlotInv(cfg, s)
    requires s.pending != [] && CanSend(cfg, s.gate, s.now)
    ensures OneFrame(SendNext(cfg, env, s)) && AcksSound(cfg, SendNext(cfg, env, s))
  {
    hide AcksSound, Heard, EntryInv, DataFrame, Attempt, Insert, PaceDeadline;
    var t := SendNext(cfg, env, s);
    TableSizes(cfg, s);
    UpdateSize(s.gate.inflight, s.seqNo, t.gate.inflight[s.seqNo]);
    assert s.payloads == map[] && s.link.toA == [] && s.link.toB == [];
    assert s.gate.inflight == map[];
    ArqLink.InsertHolds([], Delivery(s.now + cfg.latencyMs, DataFrame(s.seqNo, s.pending[0].payload)));
    SoundGrows(cfg, s, t, [t.log[|s.log|]]);
  }

  lemma HeardNow(log: seq<Event>, e: Event, f: Event)
    requires e.RxOk?
    ensures Heard(log + [e, f], |log + [e, f]|, e.payload)
  {
    assert (log + [e, f])[|log|] == e;
  }

  lemma OneSlotRelaying(cfg: Config, env: Env, s: Sys)
    requires cfg.Valid() && cfg.maxInflight == 1 && TableInv(cfg, s) && DataInv(cfg, s) && OneSlotInv(cfg, s)
    requires Deliverable(s.link.toB, s.now)
    ensures OneFrame(Relay(cfg, env, s)) && AcksSound(cfg, Relay(cfg, env, s))
  {
    hide AcksSound, Heard, EntryInv, DataInv, AckFrame, ParseData, DataFrame, Insert;
    TableSizes(cfg, s);
    assert s.gate.inflight != map[];
    var k :| k in s.payloads;
    HeldParses(cfg, s, k);
    var e, f := RxOk(s.now, k, s.payloads[k].payload), AckSent(s.now, k);
    var t := Relay(cfg, env, s);
    ArqLink.InsertHolds([], Delivery(s.now + cfg.latencyMs, AckFrame(s.ackSeq, k)));
    HeardNow(s.log, e, f);
    SoundGrows(cfg, s, t, [e, f]);
    forall l <- t.payloads ensures Heard(t.log, |t.log|, t.payloads[l].payload) {
      OnlyKey(s.payloads, k, l);
    }
  }

  lemma HeldParses(cfg: Config, s: Sys, k: byte)
    requires cfg.Valid() && DataInv(cfg, s) && OneFrame(s) && k in s.payloads && s.link.toB != []
    ensures ParseData(cfg, s.link.toB[0].frame) == DataFor(k, s.payloads[k].payload)
  {
    hide Heard, SentInv, PendingInv, SeqOf, ParseData, DataFrame;
    var d := s.link.toB[0];
    assert d in s.link.toB && d.frame == DataFrame(k, s.payloads[k].payload);
    assert HeldInv(cfg, s, k, s.payloads[k]);
    FrameParses(cfg, k, s.payloads[k].payload);
  }

  lemma FrameParses(cfg: Config, sn: byte, payload: bytes)
    requires 1 <= cfg.maxPayload <= 255 && |payload| <= cfg.maxPayload
    ensures ParseData(cfg, DataFrame(sn, payload)) == DataFor(sn, payload)
  {
    RoundTrip(Packet(payload, sn), DataFrame(sn, payload), Some(cfg.maxPayload));
  }

  lemma OneSlotQuiet(cfg: Config, s: Sys, t: Sys)
    requires OneSlotInv(cfg, s) && t.log == s.log && t.gate == s.gate && t.payloads == s.payloads && t.link == s.link
    requires s.dataset <= t.dataset
    ensures OneFrame(t) && AcksSound(cfg, t)
  {
    hide AcksSound, Heard;
    SoundGrows(cfg, s, t, []);
  }

  lemma OneSlotInvStep(cfg: Config, env: Env, s: Sys, step: Step)
    requires cfg.Valid() && cfg.maxInflight == 1 && cfg.maxRetries >= 1
    requires TableInv(cfg, s) && DataInv(cfg, s) && OneSlotInv(cfg, s) && Enabled(cfg, s, step)
    ensures OneSlotInv(cfg, Apply(cfg, env, s, step))
  {
    hide TableInv, DataInv, SingleInv, OneFrame, AcksSound, HandleFrame, SendNext, Transmit, Relay, Without, Feed,
      CanSend, RetryDue, FailureDue;
    SingleInvStep(cfg, env, s, step);
    match step {
      case Receiving => OneSlotReceiving(cfg, s);
      case Retrying(sn) => DueIsKnown(cfg, s, sn);
      case Failing(sn) => SingleIsYoung(cfg, s, sn);
      case Sending => OneSlotSending(cfg, env, s);
      case Relaying => OneSlotRelaying(cfg, env, s);
      case Sampling => OneSlotQuiet(cfg, s, QueueWindow(cfg, env, s));
      case Ticking(ms) => OneSlotQuiet(cfg, s, Tick(s, ms));
    }
  }

  /** A retry is never enabled: its own entry fills the table. */
  lemma DueIsKnown(cfg: Config, s: Sys, sn: byte)
    requires cfg.maxInflight == 1
    ensures !(RetryDue(cfg, s.gate, s.now, sn) && CanSend(cfg, s.gate, s.now))
  {
    hide CanSend;
    if RetryDue(cfg, s.gate, s.now, sn) {
      RetryNeedsRoom(cfg, s, sn);
    }
  }

  lemma {:induction false} OneSlotInvAlong(cfg: Config, env: Env, s: Sys, steps: seq<Step>, t: Sys)
    requires cfg.Valid() && cfg.maxInflight == 1 && cfg.maxRetries >= 1
    requires CoreInv(cfg, env, s) && OneSlotInv(cfg, s) && Leads(cfg, env, s, steps, t)
    ensures OneSlotInv(cfg, t)
    decreases |steps|
  {
    hide Apply, Enabled, OneSlotInv;
    hide TableInv, DataInv, SampleInv, FateInv, CountInv, ArqLink.OriginInv, ArqLink.FrameInv;
    if steps != [] {
      CoreInvStep(cfg, env, s, steps[0]);
      OneSlotInvStep(cfg, env, s, steps[0]);
      OneSlotInvAlong(cfg, env, Apply(cfg, env, s, steps[0]), steps[1..], t);
    }
  }

  lemma OneSlotInvariant(cfg: Config, env: Env, s: Sys)
    requires cfg.Valid() && cfg.maxInflight == 1 && cfg.maxRetries >= 1 && Reachable(cfg, env, s)
    ensures OneSlotInv(cfg, s)
  {
    hide Leads, CoreInv;
    var start: nat, steps :| Leads(cfg, env, Init(start), steps, s);
    CoreInvInit(cfg, env, start);
    OneSlotInvAlong(cfg, env, Init(start), steps, s);
  }

  /** With `max_inflight = 1` and at least one retry allowed, each window is sent once and stays in the
      table until its only answer is read, so every acknowledgement is sound, in runs of any length. */
  lemma OneSlotSound(cfg: Config, env: Env, s: Sys)
    requires cfg.Valid() && cfg.maxInflight == 1 && cfg.maxRetries >= 1 && Reachable(cfg, env, s)
    ensures AcksSound(cfg, s)
  {
    hide Reachable, AcksSound, OneFrame, SingleInv;
    OneSlotInvariant(cfg, env, s);
  }

  // ---------------------------------------------------------------------
  // At most 256 windows
  // ---------------------------------------------------------------------

  lemma FewWindowsSound(cfg: Config, env: Env, s: Sys)
    requires cfg.Valid() && Reachable(cfg, env, s) && s.sent <= 256
    ensures AcksSound(cfg, s)
  {
    hide Reachable, Heard;
    forall i: nat, w: nat | AcksWindow(s.log, i, w) ensures AckHeard(cfg, s, i, w) {
      AckSoundUpTo256(cfg, env, s, i, w);
      var j :| 0 <= j < i && s.log[j].RxOk? && s.log[j].payload == cfg.encode(s.dataset[w]);
      HeardAt(s.log, j, i);
    }
  }

  lemma HeardAt(log: seq<Event>, j: nat, i: nat)
    requires j < i <= |log| && log[j].RxOk?
    ensures Heard(log, i, log[j].payload)
  {
  }

  // ---------------------------------------------------------------------
  // Windows that cannot be told apart
  // ---------------------------------------------------------------------

  /** The rows of windows 0 to 256 for which windows 0 and 256 are encoded differently. */
  ghost predicate ToldApart(cfg: Config, dims: nat, rows: seq<Row>)
    requires cfg.window.Valid()
  {
    && |rows| == 256 * cfg.window.stride + cfg.window.W && Fit(rows, dims)
    && cfg.encode(Flatten(rows[..cfg.window.W])) != cfg.encode(Flatten(rows[256 * cfg.window.stride..]))
  }

  /** Some 257 windows have different encodings in the first and the last of them. */
  ghost predicate Tells(cfg: Config, dims: nat)
    requires cfg.window.Valid()
  {
    exists rows: seq<Row> :: ToldApart(cfg, dims, rows)
  }

  /** Unless windows 0 and 256 overlap, this is to say that some two windows have different encodings. */
  lemma TellsIff(cfg: Config, dims: nat)
    requires cfg.window.Valid() && cfg.window.W <= 256 * cfg.window.stride
    ensures Tells(cfg, dims)
            <==> exists a: seq<Row>, b: seq<Row> :: |a| == |b| == cfg.window.W && Fit(a, dims) && Fit(b, dims)
                                                    && cfg.encode(Flatten(a)) != cfg.encode(Flatten(b))
  {
    hide Flatten;
    var w := cfg.window;
    if rows: seq<Row> :| ToldApart(cfg, dims, rows) {
      var a, b := rows[..w.W], rows[256 * w.stride..];
      assert |a| == |b| == w.W && Fit(a, dims) && Fit(b, dims) && cfg.encode(Flatten(a)) != cfg.encode(Flatten(b));
    }
    if a: seq<Row>, b: seq<Row> :| |a| == |b| == w.W && Fit(a, dims) && Fit(b, dims)
                                   && cfg.encode(Flatten(a)) != cfg.encode(Flatten(b)) {
      var rows := a + seq(256 * w.stride - w.W, i => a[0]) + b;
      assert rows[..w.W] == a && rows[256 * w.stride..] == b;
      assert ToldApart(cfg, dims, rows);
    }
  }

  /** If 256 windows apart nothing can be told apart, nothing can at any multiple of 256. */
  lemma {:induction false} SameEncoding(cfg: Config, dims: nat, fed: seq<Row>, a: nat, b: nat)
    requires cfg.window.Valid() && !Tells(cfg, dims) && Fit(fed, dims)
    requires a <= b < |Emitted(cfg.window, fed)| && a % 256 == b % 256
    ensures cfg.encode(Emitted(cfg.window, fed)[a]) == cfg.encode(Emitted(cfg.window, fed)[b])
    decreases b
  {
    hide Emitted, Flatten, Tells, ToldApart;
    if a < b {
      Arith.SameResidue(a, b, 256);
      SameEncoding(cfg, dims, fed, a, b - 256);
      Neighbours(cfg, dims, fed, b - 256);
    }
  }

  lemma Neighbours(cfg: Config, dims: nat, fed: seq<Row>, a: nat)
    requires cfg.window.Valid() && !Tells(cfg, dims) && Fit(fed, dims) && a + 256 < |Emitted(cfg.window, fed)|
    ensures cfg.encode(Emitted(cfg.window, fed)[a]) == cfg.encode(Emitted(cfg.window, fed)[a + 256])
  {
    hide Emitted, Flatten;
    var w := cfg.window;
    WindowJoin(w, fed);
    assert IsWindowAt(w, fed, a * w.stride, Emitted(w, fed)[a]);
    assert IsWindowAt(w, fed, (a + 256) * w.stride, Emitted(w, fed)[a + 256]);
    assert (a + 256) * w.stride == a * w.stride + 256 * w.stride;
    var from := a * w.stride;
    var rows := fed[from..from + 256 * w.stride + w.W];
    assert rows[..w.W] == fed[from..from + w.W];
    assert rows[256 * w.stride..] == fed[from + 256 * w.stride..from + 256 * w.stride + w.W];
    assert !ToldApart(cfg, dims, rows);
  }

  lemma AlikeSound(cfg: Config, env: Env, dims: nat, s: Sys)
    requires cfg.Valid() && RowsFit(env, dims) && !Tells(cfg, dims) && Reachable(cfg, env, s)
    ensures AcksSound(cfg, s)
  {
    hide Reachable, Tells, RowsFit, Heard, Emitted, DataInv;
    FedFits(cfg, env, dims, s);
    CoreParts(cfg, env, s);
    SentAtMostGenerated(cfg, s);
    RecordsOf(cfg, s);
    forall i: nat, w: nat | AcksWindow(s.log, i, w) ensures AckHeard(cfg, s, i, w) {
      var j, k := AckProvenance(cfg, env, s, i, w);
      var id := s.log[k].id;
      SameEncoding(cfg, dims, s.fed, Min(id, w), Max(id, w));
      HeardAt(s.log, j, i);
    }
  }

  lemma RecordsOf(cfg: Config, s: Sys)
    requires cfg.window.Valid() && DataInv(cfg, s) && SampleInv(cfg, s)
    ensures |s.dataset| == s.generated && s.dataset == Emitted(cfg.window, s.fed)
  {
  }

  // ---------------------------------------------------------------------
  // Together
  // ---------------------------------------------------------------------

  /** Few windows; or a table of one that never gives up; or windows whose encodings cannot be told apart. */
  ghost predicate AckSafe(cfg: Config, dims: nat)
    requires cfg.window.Valid()
  {
    || (cfg.maxWindows.Some? && cfg.maxWindows.value <= 256)
    || (cfg.maxInflight == 1 && cfg.maxRetries >= 1)
    || !Tells(cfg, dims)
  }

  /** Under each of these conditions every acknowledgement in every reachable state is sound. */
  lemma AckSoundWhenSafe(cfg: Config, env: Env, dims: nat, s: Sys)
    requires cfg.Valid() && RowsFit(env, dims) && AckSafe(cfg, dims) && Reachable(cfg, env, s)
    ensures AcksSound(cfg, s)
  {
    hide Reachable, RowsFit, Tells, AcksSound, DataInv, SampleInv;
    if cfg.maxWindows.Some? && cfg.maxWindows.value <= 256 {
      CoreParts(cfg, env, s);
      SentAtMostGenerated(cfg, s);
      FewWindowsSound(cfg, env, s);
    } else if cfg.maxInflight == 1 && cfg.maxRetries >= 1 {
      OneSlotSound(cfg, env, s);
    } else {
      AlikeSound(cfg, env, dims, s);
    }
  }
}
