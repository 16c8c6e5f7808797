/** The ARQ link as values: transmit gate, transmit node, mock radio and receive node, the elementary
    steps they take, and the loops that string those steps together.

    Sources: loralink_mllc/runtime/tx_node.py, scheduler.py, rx_node.py, loralink_mllc/radio/mock.py,
    loralink_mllc/experiments/controller.py. Time is an integer millisecond clock that stands still
    during one `process_once`; time on air is a real number of milliseconds. */
module ArqModel {
  import opened Basics
  import opened PacketCodec
  import opened Windows

  // ---------------------------------------------------------------------
  // Configuration and environment
  // ---------------------------------------------------------------------

  /** What a run specification fixes. `toaMs` and `ackTimeoutMs` are functions of the frame length,
      because the program computes both per frame. */
  datatype Config = Config(
    toaMs: nat -> real,
    ackTimeoutMs: nat -> int,
    guardMs: nat,
    maxRetries: nat,
    maxInflight: nat,
    maxWindows: Option<nat>,
    maxPayload: int,
    latencyMs: nat,
    window: WindowSpec,
    encode: seq<real> -> bytes)
  {
    ghost predicate Valid() {
      && 1 <= maxPayload <= 253
      && maxInflight >= 1
      && window.Valid()
      && (forall n: nat :: n <= 255 ==> toaMs(n) >= 0.0)
      && (forall n: nat :: n <= 255 ==> ackTimeoutMs(n) > 0)
      && (forall w :: |encode(w)| <= maxPayload)
    }

    /** Pacing after a frame of n bytes: how long the gate then stays closed. */
    function Spacing(n: nat): int {
      (toaMs(n) + guardMs as real).Floor
    }
  }

  /** Answer of the sampler to one request. */
  datatype Sample = SampleRow(row: Row) | NoSampleYet | SamplesExhausted

  /** Everything the program does not decide: the n-th drop decision in each direction and the n-th
      answer of the sampler. Every loss pattern and every sampler is some environment. */
  datatype Env = Env(dropAb: nat -> bool, dropBa: nat -> bool, sample: nat -> Sample)

  // ---------------------------------------------------------------------
  // State
  // ---------------------------------------------------------------------

  datatype Inflight = Inflight(
    sn: byte, firstTxMs: int, lastTxMs: int, attempts: int, toaMs: real, ackTimeoutMs: int)

  /** The transmit gate. `order` is the insertion order of the dictionary `inflight`. */
  datatype Gate = Gate(
    lastTxMs: Option<int>,
    lastToaMs: real,
    inflight: map<byte, Inflight>,
    order: seq<byte>,
    sentCount: nat,
    ackedCount: nat,
    retriesTotal: nat,
    totalToaMs: real)

  datatype PendingWindow = PendingWindow(id: nat, payload: bytes, builtMs: int)

  datatype Delivery = Delivery(at: int, frame: bytes)

  /** The two priority queues and how many drop decisions each direction has consumed. */
  datatype Link = Link(toA: seq<Delivery>, toB: seq<Delivery>, usedAb: nat, usedBa: nat)

  /** Log events of both nodes. `TxSent` also carries the payload handed to the radio, of which the
      program logs only the length. */
  datatype Event =
    | TxSent(ts: int, id: nat, sn: byte, payload: bytes, toaMs: real, guardMs: nat,
             ackTimeoutMs: int, attempt: int, ageMs: int)
    | AckReceived(ts: int, sn: byte, window: Option<nat>, rttMs: int, queueMs: int, e2eMs: int)
    | TxFailed(ts: int, sn: byte, window: Option<nat>, attempts: int)
    | TxParseFail(ts: int)
    | RxOk(ts: int, sn: byte, payload: bytes)
    | AckSent(ts: int, sn: byte)
    | RxParseFail(ts: int)

  /** The whole system. `log` is the merged log of both nodes in the order of writing. `fed` (all
      samples so far) and `lost` (windows whose table entry was taken over by a later window with
      the same SEQ) are history the program does not keep. */
  datatype Sys = Sys(
    now: int,
    gate: Gate,
    seqNo: byte,
    pending: seq<PendingWindow>,
    payloads: map<byte, PendingWindow>,
    builder: Builder,
    generated: nat,
    sent: nat,
    noMoreSamples: bool,
    samplesTaken: nat,
    ackSeq: byte,
    rxOkCount: nat,
    link: Link,
    log: seq<Event>,
    dataset: seq<seq<real>>,
    fed: seq<Row>,
    lost: set<nat>)

  const EmptyGate := Gate(None, 0.0, map[], [], 0, 0, 0, 0.0)

  function Init(start: nat): Sys {
    Sys(start, EmptyGate, 0, [], map[], EmptyBuilder, 0, 0, false, 0, 0, 0,
        Link([], [], 0, 0), [], [], [], {})
  }

  // ---------------------------------------------------------------------
  // Transmit gate
  // ---------------------------------------------------------------------

  /** The instant the pacing rule opens again after the last transmission. */
  function PaceDeadline(cfg: Config, g: Gate): int
    requires g.lastTxMs.Some?
  {
    (g.lastTxMs.value as real + g.lastToaMs + cfg.guardMs as real).Floor
  }

  predicate CanSend(cfg: Config, g: Gate, now: int) {
    && |g.inflight| < cfg.maxInflight
    && (g.lastTxMs.Some? ==> now >= PaceDeadline(cfg, g))
  }

  function Attempt(g: Gate, sn: byte): int {
    if sn in g.inflight then g.inflight[sn].attempts + 1 else 1
  }

  function RecordSend(g: Gate, now: int, sn: byte, toaMs: real, ackTimeoutMs: int): Gate {
    var entry :=
      if sn in g.inflight then
        Inflight(sn, g.inflight[sn].firstTxMs, now, g.inflight[sn].attempts + 1, toaMs, ackTimeoutMs)
      else
        Inflight(sn, now, now, 1, toaMs, ackTimeoutMs);
    Gate(Some(now), toaMs,
         g.inflight[sn := entry],
         if sn in g.inflight then g.order else g.order + [sn],
         g.sentCount + 1,
         g.ackedCount,
         if sn in g.inflight then g.retriesTotal + 1 else g.retriesTotal,
         g.totalToaMs + toaMs)
  }

  function Without(order: seq<byte>, sn: byte): seq<byte> {
    if order == [] then []
    else (if order[0] == sn then [] else [order[0]]) + Without(order[1..], sn)
  }

  /** Removing a table entry. */
  function Drop(g: Gate, sn: byte): Gate {
    g.(inflight := g.inflight - {sn}, order := Without(g.order, sn))
  }

  /** No key is listed twice. */
  predicate Distinct(order: seq<byte>) {
    forall i, j :: 0 <= i < j < |order| ==> order[i] != order[j]
  }

  /** Removing several entries one after the other. */
  function DropAll(g: Gate, sns: seq<byte>): Gate
    decreases |sns|
  {
    if sns == [] then g else DropAll(Drop(g, sns[0]), sns[1..])
  }

  predicate Expired(e: Inflight, now: int) {
    now - e.lastTxMs >= e.ackTimeoutMs
  }

  predicate RetryDue(cfg: Config, g: Gate, now: int, sn: byte) {
    sn in g.inflight && g.inflight[sn].attempts <= cfg.maxRetries && Expired(g.inflight[sn], now)
  }

  predicate FailureDue(cfg: Config, g: Gate, now: int, sn: byte) {
    sn in g.inflight && g.inflight[sn].attempts > cfg.maxRetries && Expired(g.inflight[sn], now)
  }

  /** Keys that are due for a retry, in table order. */
  function ExpiredSequences(cfg: Config, g: Gate, now: int, order: seq<byte>): seq<byte> {
    if order == [] then []
    else (if RetryDue(cfg, g, now, order[0]) then [order[0]] else [])
         + ExpiredSequences(cfg, g, now, order[1..])
  }

  /** Keys that are due to be given up, in table order. */
  function ExpiredFailures(cfg: Config, g: Gate, now: int, order: seq<byte>): seq<byte> {
    if order == [] then []
    else (if FailureDue(cfg, g, now, order[0]) then [order[0]] else [])
         + ExpiredFailures(cfg, g, now, order[1..])
  }

  /** The ratios in `TxGate.metrics`. */
  function Pdr(g: Gate): real {
    if g.sentCount == 0 then 0.0 else g.ackedCount as real / g.sentCount as real
  }

  function Etx(g: Gate): real {
    g.sentCount as real / Max(g.ackedCount, 1) as real
  }

  // ---------------------------------------------------------------------
  // Mock link
  // ---------------------------------------------------------------------

  /** Byte strings compare like dictionary words. */
  predicate FrameLess(a: bytes, b: bytes) {
    if b == [] then false
    else if a == [] then true
    else a[0] < b[0] || (a[0] == b[0] && FrameLess(a[1..], b[1..]))
  }

  /** Deliveries are ordered by time, then by frame bytes. */
  predicate Before(d: Delivery, e: Delivery) {
    d.at < e.at || (d.at == e.at && FrameLess(d.frame, e.frame))
  }

  /** A priority queue kept as the list of its elements in the order they will be popped. */
  function Insert(q: seq<Delivery>, d: Delivery): seq<Delivery> {
    if q == [] then [d]
    else if Before(d, q[0]) then [d] + q
    else [q[0]] + Insert(q[1..], d)
  }

  function SendFromA(cfg: Config, env: Env, l: Link, now: int, frame: bytes): Link {
    if env.dropAb(l.usedAb) then l.(usedAb := l.usedAb + 1)
    else l.(usedAb := l.usedAb + 1, toB := Insert(l.toB, Delivery(now + cfg.latencyMs, frame)))
  }

  function SendFromB(cfg: Config, env: Env, l: Link, now: int, frame: bytes): Link {
    if env.dropBa(l.usedBa) then l.(usedBa := l.usedBa + 1)
    else l.(usedBa := l.usedBa + 1, toA := Insert(l.toA, Delivery(now + cfg.latencyMs, frame)))
  }

  predicate Deliverable(q: seq<Delivery>, now: int) {
    q != [] && q[0].at <= now
  }

  /** The SEQ of the n-th window: one byte that wraps. */
  function SeqOf(n: nat): byte {
    n % 256
  }

  function DataFrame(sn: byte, payload: bytes): bytes {
    if |payload| > 255 then [] else [|payload|, sn] + payload
  }

  function AckFrame(ackSeq: byte, sn: byte): bytes {
    [1, ackSeq, sn]
  }

  // ---------------------------------------------------------------------
  // Elementary steps of the transmit node
  // ---------------------------------------------------------------------

  predicate WantsSample(cfg: Config, s: Sys) {
    !s.noMoreSamples && (cfg.maxWindows.Some? ==> s.generated < cfg.maxWindows.value)
  }

  /** `_queue_window`: take one sample and queue the window it completes, if it completes one. */
  function QueueWindow(cfg: Config, env: Env, s: Sys): Sys
    requires cfg.window.Valid()
  {
    if !WantsSample(cfg, s) then s
    else
      match env.sample(s.samplesTaken)
      case NoSampleYet => s.(samplesTaken := s.samplesTaken + 1)
      case SamplesExhausted => s.(samplesTaken := s.samplesTaken + 1, noMoreSamples := true)
      case SampleRow(row) =>
        var (b, out) := Feed(cfg.window, s.builder, row);
        var t := s.(samplesTaken := s.samplesTaken + 1, builder := b, fed := s.fed + [row]);
        if out.None? then t
        else t.(dataset := s.dataset + [out.value],
                pending := s.pending + [PendingWindow(s.generated, cfg.encode(out.value), s.now)],
                generated := s.generated + 1)
  }

  /** What the transmit node makes of a received frame. */
  datatype Reply = BadFrame | OtherFrame | AckFor(sn: byte)

  function ParseReply(cfg: Config, frame: bytes): Reply {
    match FromBytes(frame, Some(cfg.maxPayload))
    case Err(_) => BadFrame
    case Ok(p) => if |p.payload| != 1 then OtherFrame else AckFor(p.payload[0])
  }

  /** Taking the next frame off the queue towards the transmit node. */
  function PopA(s: Sys): Sys
    requires s.link.toA != []
  {
    s.(link := s.link.(toA := s.link.toA[1..]))
  }

  /** One frame out of `_handle_incoming`. */
  function HandleFrame(cfg: Config, s: Sys): Sys
    requires Deliverable(s.link.toA, s.now)
  {
    match ParseReply(cfg, s.link.toA[0].frame)
    case BadFrame => PopA(s).(log := s.log + [TxParseFail(s.now)])
    case OtherFrame => PopA(s)
    case AckFor(sn) => if sn in s.gate.inflight then Acknowledge(PopA(s), sn) else PopA(s)
  }

  /** The window in flight under `sn` has been acknowledged. */
  function Acknowledge(s: Sys, sn: byte): Sys
    requires sn in s.gate.inflight
  {
    s.(gate := Drop(s.gate, sn).(ackedCount := s.gate.ackedCount + 1),
       log := s.log + [AckEvent(s, sn)],
       payloads := s.payloads - {sn})
  }

  function AckEvent(s: Sys, sn: byte): Event
    requires sn in s.gate.inflight
  {
    var first := s.gate.inflight[sn].firstTxMs;
    if sn in s.payloads then
      AckReceived(s.now, sn, Some(s.payloads[sn].id), s.now - first,
                  first - s.payloads[sn].builtMs, s.now - s.payloads[sn].builtMs)
    else AckReceived(s.now, sn, None, s.now - first, 0, 0)
  }

  /** Record a transmission at the gate, hand the frame to the radio and log it. */
  function Transmit(cfg: Config, env: Env, s: Sys, w: PendingWindow, sn: byte): Sys {
    var n := 2 + |w.payload|;
    s.(gate := RecordSend(s.gate, s.now, sn, cfg.toaMs(n), cfg.ackTimeoutMs(n)),
       link := SendFromA(cfg, env, s.link, s.now, DataFrame(sn, w.payload)),
       log := s.log + [TxSent(s.now, w.id, sn, w.payload, cfg.toaMs(n), cfg.guardMs,
                              cfg.ackTimeoutMs(n), Attempt(s.gate, sn), s.now - w.builtMs)])
  }

  /** Resending the window that is in flight under `sn`. */
  function Retry(cfg: Config, env: Env, s: Sys, sn: byte): Sys
    requires sn in s.payloads
  {
    Transmit(cfg, env, s, s.payloads[sn], sn)
  }

  /** Giving up the window that is in flight under `sn`. */
  function Fail(s: Sys, sn: byte): Sys
    requires sn in s.gate.inflight
  {
    s.(gate := Drop(s.gate, sn),
       log := s.log + [TxFailed(s.now, sn, if sn in s.payloads then Some(s.payloads[sn].id) else None,
                                s.gate.inflight[sn].attempts)],
       payloads := s.payloads - {sn})
  }

  /** `_send_pending` once its two guards have passed: first transmission of the oldest window. */
  function SendNext(cfg: Config, env: Env, s: Sys): Sys
    requires s.pending != []
  {
    var w, sn := s.pending[0], s.seqNo;
    Transmit(cfg, env, s, w, sn).(
      pending := s.pending[1..],
      seqNo := (s.seqNo + 1) % 256,
      payloads := s.payloads[sn := w],
      sent := s.sent + 1,
      lost := if sn in s.payloads then s.lost + {s.payloads[sn].id} else s.lost)
  }

  // ---------------------------------------------------------------------
  // Elementary step of the receive node
  // ---------------------------------------------------------------------

  /** What the receive node makes of a received frame. */
  datatype Incoming = Malformed | DataFor(sn: byte, payload: bytes)

  function ParseData(cfg: Config, frame: bytes): Incoming {
    match FromBytes(frame, Some(cfg.maxPayload))
    case Err(_) => Malformed
    case Ok(p) => DataFor(p.seqNo, p.payload)
  }

  function PopB(s: Sys): Sys
    requires s.link.toB != []
  {
    s.(link := s.link.(toB := s.link.toB[1..]))
  }

  /** `RxNode.process_once` once a frame has arrived. */
  function Relay(cfg: Config, env: Env, s: Sys): Sys
    requires Deliverable(s.link.toB, s.now)
  {
    match ParseData(cfg, s.link.toB[0].frame)
    case Malformed => PopB(s).(log := s.log + [RxParseFail(s.now)])
    case DataFor(sn, payload) => Echo(cfg, env, PopB(s), sn, payload)
  }

  /** Log a received packet and acknowledge its SEQ. */
  function Echo(cfg: Config, env: Env, s: Sys, sn: byte, payload: bytes): Sys {
    s.(link := SendFromB(cfg, env, s.link, s.now, AckFrame(s.ackSeq, sn)),
       log := s.log + [RxOk(s.now, sn, payload), AckSent(s.now, sn)],
       ackSeq := (s.ackSeq + 1) % 256,
       rxOkCount := s.rxOkCount + 1)
  }

  // ---------------------------------------------------------------------
  // The loops of the program
  // ---------------------------------------------------------------------

  function HandleIncoming(cfg: Config, s: Sys): Sys
    decreases |s.link.toA|
  {
    if Deliverable(s.link.toA, s.now) then HandleIncoming(cfg, HandleFrame(cfg, s)) else s
  }

  /** The retry loop over a snapshot of expired keys; each key is tried only if the gate is open. */
  function RetryAll(cfg: Config, env: Env, s: Sys, sns: seq<byte>): Sys
    decreases |sns|
  {
    if sns == [] then s
    else if sns[0] in s.payloads && CanSend(cfg, s.gate, s.now) then
      RetryAll(cfg, env, Retry(cfg, env, s, sns[0]), sns[1..])
    else RetryAll(cfg, env, s, sns[1..])
  }

  function FailAll(s: Sys, sns: seq<byte>): Sys
    decreases |sns|
  {
    if sns == [] then s
    else if sns[0] in s.gate.inflight then FailAll(Fail(s, sns[0]), sns[1..])
    else FailAll(s, sns[1..])
  }

  function RetryExpired(cfg: Config, env: Env, s: Sys): Sys {
    var t := RetryAll(cfg, env, s, ExpiredSequences(cfg, s.gate, s.now, s.gate.order));
    FailAll(t, ExpiredFailures(cfg, t.gate, t.now, t.gate.order))
  }

  function SendPending(cfg: Config, env: Env, s: Sys): Sys {
    if s.pending == [] || !CanSend(cfg, s.gate, s.now) then s else SendNext(cfg, env, s)
  }

  function TxProcessOnce(cfg: Config, env: Env, s: Sys): Sys
    requires cfg.window.Valid()
  {
    SendPending(cfg, env, RetryExpired(cfg, env, HandleIncoming(cfg, QueueWindow(cfg, env, s))))
  }

  function RxProcessOnce(cfg: Config, env: Env, s: Sys): Sys {
    if Deliverable(s.link.toB, s.now) then Relay(cfg, env, s) else s
  }

  function Tick(s: Sys, ms: int): Sys {
    s.(now := s.now + Max(0, ms))
  }

  predicate IsDone(cfg: Config, s: Sys) {
    match cfg.maxWindows
    case None => s.noMoreSamples && s.pending == [] && s.gate.inflight == map[]
    case Some(n) => s.sent >= n && s.pending == [] && s.gate.inflight == map[]
  }

  /** `run_pair`: at most `maxSteps` rounds, with the early exit and without a final sleep after it. */
  function RunPair(cfg: Config, env: Env, s: Sys, stepMs: int, maxSteps: nat): Sys
    requires cfg.window.Valid()
    decreases maxSteps
  {
    if maxSteps == 0 then s
    else
      var t := RxProcessOnce(cfg, env, TxProcessOnce(cfg, env, s));
      if IsDone(cfg, t) then t else RunPair(cfg, env, Tick(t, stepMs), stepMs, maxSteps - 1)
  }

  /** What happens between two calls of `TxNode.process_once`: some steps of the receive node, then
      the sleep. */
  datatype Pause = Pause(rxSteps: nat, ms: int)

  function RxMany(cfg: Config, env: Env, s: Sys, n: nat): Sys
    decreases n
  {
    if n == 0 then s else RxMany(cfg, env, RxProcessOnce(cfg, env, s), n - 1)
  }

  /** `TxNode.run` beside a receiver that is scheduled in any way: at most n rounds, round j followed
      by pause plan(j). With the constant pause of one receive step this is `run_pair`. */
  function Loop(cfg: Config, env: Env, s: Sys, plan: nat -> Pause, j: nat, n: nat): Sys
    requires cfg.window.Valid()
    decreases n
  {
    if n == 0 then s
    else
      var t := RxMany(cfg, env, TxProcessOnce(cfg, env, s), plan(j).rxSteps);
      if IsDone(cfg, t) then t else Loop(cfg, env, Tick(t, plan(j).ms), plan, j + 1, n - 1)
  }

  // ---------------------------------------------------------------------
  // Runs: every interleaving of elementary steps
  // ---------------------------------------------------------------------

  datatype Step =
    | Sampling
    | Receiving
    | Retrying(sn: byte)
    | Failing(sn: byte)
    | Sending
    | Relaying
    | Ticking(ms: int)

  /** When the code may take a step. A pending window is sent only after the frames due have been read and
      the expired failures of this instant have been removed, because `process_once` does both first. */
  predicate Enabled(cfg: Config, s: Sys, step: Step) {
    match step
    case Sampling => true
    case Receiving => Deliverable(s.link.toA, s.now)
    case Retrying(sn) => RetryDue(cfg, s.gate, s.now, sn) && sn in s.payloads && CanSend(cfg, s.gate, s.now)
    case Failing(sn) => FailureDue(cfg, s.gate, s.now, sn)
    case Sending =>
      && s.pending != []
      && CanSend(cfg, s.gate, s.now)
      && !Deliverable(s.link.toA, s.now)
      && forall sn <- s.gate.inflight :: !FailureDue(cfg, s.gate, s.now, sn)
    case Relaying => Deliverable(s.link.toB, s.now)
    case Ticking(_) => true
  }

  function Apply(cfg: Config, env: Env, s: Sys, step: Step): Sys
    requires cfg.window.Valid() && Enabled(cfg, s, step)
  {
    match step
    case Sampling => QueueWindow(cfg, env, s)
    case Receiving => HandleFrame(cfg, s)
    case Retrying(sn) => Retry(cfg, env, s, sn)
    case Failing(sn) => Fail(s, sn)
    case Sending => SendNext(cfg, env, s)
    case Relaying => Relay(cfg, env, s)
    case Ticking(ms) => Tick(s, ms)
  }

  /** `steps` can be taken from `s` and lead to `t`. */
  ghost predicate Leads(cfg: Config, env: Env, s: Sys, steps: seq<Step>, t: Sys)
    requires cfg.window.Valid()
    decreases |steps|
  {
    if steps == [] then s == t
    else
      && Enabled(cfg, s, steps[0])
      && Leads(cfg, env, Apply(cfg, env, s, steps[0]), steps[1..], t)
  }

  /** Reached from some start time by some interleaving of enabled steps. */
  ghost predicate Reachable(cfg: Config, env: Env, s: Sys)
    requires cfg.window.Valid()
  {
    exists start: nat, steps: seq<Step> :: Leads(cfg, env, Init(start), steps, s)
  }
}
