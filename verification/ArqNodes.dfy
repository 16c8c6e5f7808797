/** The objects of the program: clock, transmit gate, mock link, the two nodes, and `run_pair`. Every
    method is proved against the function of the model that describes it. */
module ArqNodes {
  import opened Basics
  import opened PacketCodec
  import opened Windows
  import opened ArqModel
  import opened ArqRuns
  import opened ArqInvariants
  import opened ArqSampling
  import opened ArqLoss

  // ---------------------------------------------------------------------
  // Clock, logs, loss model
  // ---------------------------------------------------------------------

  class FakeClock {
    var now: int

    constructor (startMs: int)
      ensures now == startMs
    {
      now := startMs;
    }

    method NowMs() returns (t: int)
      ensures t == now
    {
      t := now;
    }

    method SleepMs(ms: int)
      modifies this
      ensures now == old(now) + Max(0, ms)
    {
      now := now + Max(0, ms);
    }
  }

  /** The event log. Both nodes write to one log here, which fixes the order of their events. */
  class EventLog {
    var events: seq<Event>

    constructor ()
      ensures events == []
    {
      events := [];
    }

    method LogEvent(e: Event)
      modifies this
      ensures events == old(events) + [e]
    {
      events := events + [e];
    }
  }

  /** Decides about each frame in turn: by a repeating pattern if there is one, else by comparing the
      next random draw with the loss rate. */
  class LossModel {
    const pattern: seq<bool>
    const draw: nat -> real
    const lossRate: real
    var counter: nat

    constructor (lossRate: real, draw: nat -> real, pattern: seq<bool>)
      ensures this.pattern == pattern && this.draw == draw && this.lossRate == lossRate && counter == 0
    {
      this.pattern := pattern;
      this.draw := draw;
      this.lossRate := lossRate;
      counter := 0;
    }

    /** The decision about frame n. */
    function Decision(n: nat): bool {
      if pattern != [] then pattern[n % |pattern|] else draw(n) < lossRate
    }

    method ShouldDrop() returns (drop: bool)
      modifies this
      ensures drop == Decision(old(counter)) && counter == old(counter) + 1
      ensures pattern != [] ==> drop == pattern[old(counter) % |pattern|]
      ensures pattern == [] ==> drop == (draw(old(counter)) < lossRate)
    {
      if pattern != [] {
        drop := pattern[counter % |pattern|];
      } else {
        drop := draw(counter) < lossRate;
      }
      counter := counter + 1;
    }
  }

  // ---------------------------------------------------------------------
  // Transmit gate
  // ---------------------------------------------------------------------

  datatype GateError = TimeoutNotPositive

  /** `order` lists the keys of the table, and every record knows its key. */
  ghost predicate TableOk(g: Gate) {
    OrderInv(g) && forall k <- g.inflight :: g.inflight[k].sn == k
  }

  lemma RecordKeepsTable(g: Gate, now: int, sn: byte, toaMs: real, timeout: int)
    requires TableOk(g)
    ensures TableOk(ArqModel.RecordSend(g, now, sn, toaMs, timeout))
  {
  }

  lemma DropKeepsTable(g: Gate, sn: byte)
    requires TableOk(g)
    ensures TableOk(Drop(g, sn))
  {
    hide Without;
    WithoutKeeps(g.order, sn);
  }

  class TxGate {
    const clock: FakeClock
    ghost const cfg: Config
    const guardMs: nat
    const ackTimeoutDefault: int
    const maxRetries: nat
    const maxInflight: nat

    var lastTxStartMs: Option<int>
    var lastToaMs: real
    var inflight: map<byte, Inflight>
    var order: seq<byte>
    var sentCount: nat
    var ackedCount: nat
    var retriesTotal: nat
    var totalToaMs: real

    ghost predicate Valid() {
      && guardMs == cfg.guardMs
      && maxRetries == cfg.maxRetries
      && maxInflight == cfg.maxInflight
    }

    ghost predicate TableValid()
      reads this
    {
      TableOk(View())
    }

    ghost function View(): Gate
      reads this
    {
      Gate(lastTxStartMs, lastToaMs, inflight, order, sentCount, ackedCount, retriesTotal, totalToaMs)
    }

    constructor (clock: FakeClock, ackTimeoutDefault: int, guardMs: nat, maxRetries: nat, maxInflight: nat,
                 ghost cfg: Config)
      requires guardMs == cfg.guardMs && maxRetries == cfg.maxRetries && maxInflight == cfg.maxInflight
      ensures Valid() && View() == EmptyGate && this.clock == clock && this.cfg == cfg
      ensures this.ackTimeoutDefault == ackTimeoutDefault
    {
      this.clock := clock;
      this.cfg := cfg;
      this.guardMs := guardMs;
      this.ackTimeoutDefault := ackTimeoutDefault;
      this.maxRetries := maxRetries;
      this.maxInflight := maxInflight;
      lastTxStartMs, lastToaMs, inflight, order := None, 0.0, map[], [];
      sentCount, ackedCount, retriesTotal, totalToaMs := 0, 0, 0, 0.0;
    }

    method CanSend() returns (r: bool)
      requires Valid()
      ensures r == ArqModel.CanSend(cfg, View(), clock.now)
    {
      if |inflight| >= maxInflight {
        return false;
      }
      match lastTxStartMs
      case None => return true;
      case Some(last) =>
        var now := clock.NowMs();
        return now >= (last as real + lastToaMs + guardMs as real).Floor;
    }

    method RecordSend(sn: byte, toaMs: real, ackTimeoutMs: Option<int>) returns (r: Result<int, GateError>)
      modifies this
      ensures old(TableValid()) ==> TableValid()
      ensures var timeout := if ackTimeoutMs.Some? then ackTimeoutMs.value else ackTimeoutDefault;
              if timeout <= 0 then r == Err(TimeoutNotPositive) && View() == old(View())
              else && r == Ok(Attempt(old(View()), sn))
                   && View() == ArqModel.RecordSend(old(View()), clock.now, sn, toaMs, timeout)
    {
      hide TableOk;
      var now := clock.NowMs();
      var timeout := if ackTimeoutMs.Some? then ackTimeoutMs.value else ackTimeoutDefault;
      if timeout <= 0 {
        return Err(TimeoutNotPositive);
      }
      var attempt: int;
      if sn in inflight {
        var e := inflight[sn];
        inflight := inflight[sn := Inflight(sn, e.firstTxMs, now, e.attempts + 1, toaMs, timeout)];
        retriesTotal := retriesTotal + 1;
        attempt := e.attempts + 1;
      } else {
        inflight := inflight[sn := Inflight(sn, now, now, 1, toaMs, timeout)];
        order := order + [sn];
        attempt := 1;
      }
      sentCount := sentCount + 1;
      totalToaMs := totalToaMs + toaMs;
      lastTxStartMs := Some(now);
      lastToaMs := toaMs;
      if old(TableValid()) {
        RecordKeepsTable(old(View()), now, sn, toaMs, timeout);
      }
      return Ok(attempt);
    }

    /** `dict.pop`: takes a key out of the table, if it is there. */
    method Remove(sn: byte)
      modifies this
      ensures old(TableValid()) ==> TableValid()
      ensures View() == Drop(old(View()), sn)
    {
      hide TableOk;
      inflight := inflight - {sn};
      var kept := [];
      for i := 0 to |order|
        invariant kept + Without(order[i..], sn) == Without(order, sn)
        invariant inflight == old(inflight) - {sn} && order == old(order)
        invariant unchanged(`lastTxStartMs, `lastToaMs, `sentCount, `ackedCount, `retriesTotal, `totalToaMs)
      {
        assert order[i..][1..] == order[i + 1..];
        if order[i] != sn {
          kept := kept + [order[i]];
        }
      }
      assert kept == kept + Without(order[|order|..], sn);
      order := kept;
      if old(TableValid()) {
        DropKeepsTable(old(View()), sn);
      }
    }

    method MarkAcked(sn: byte) returns (r: Option<Inflight>)
      modifies this
      ensures old(TableValid()) ==> TableValid()
      ensures sn !in old(inflight) ==> r == None && View() == old(View())
      ensures sn in old(inflight) ==>
                && r == Some(old(inflight)[sn])
                && View() == Drop(old(View()), sn).(ackedCount := old(ackedCount) + 1)
    {
      hide Without;
      if sn !in inflight {
        return None;
      }
      r := Some(inflight[sn]);
      Remove(sn);
      ackedCount := ackedCount + 1;
    }

    method CollectExpired() returns (due: seq<byte>)
      requires Valid() && TableValid()
      ensures due == ExpiredSequences(cfg, View(), clock.now, order)
    {
      SnapshotKnown(View());
      hide TableOk, ExpiredSequences;
      var now := clock.NowMs();
      due := [];
      for i := 0 to |order|
        invariant due + ExpiredSequences(cfg, View(), now, order[i..]) == ExpiredSequences(cfg, View(), now, order)
      {
        SequencesFrom(cfg, View(), now, order, i);
        var e := inflight[order[i]];
        if e.attempts > maxRetries {
          continue;
        }
        if now - e.lastTxMs >= e.ackTimeoutMs {
          due := due + [order[i]];
        }
      }
      SequencesEnd(cfg, View(), now, order);
    }

    /** Pops one record if it is due to be given up. */
    method TakeIfDue(sn: byte, now: int) returns (r: Option<Inflight>)
      requires Valid() && TableValid() && sn in inflight
      modifies this
      ensures TableValid()
      ensures r.Some? <==> FailureDue(cfg, old(View()), now, sn)
      ensures r.Some? ==> r.value == old(inflight)[sn] && View() == Drop(old(View()), sn)
      ensures r.None? ==> View() == old(View())
      ensures forall k :: k != sn && k in old(inflight) ==> k in inflight && inflight[k] == old(inflight)[k]
    {
      hide Without;
      var e := inflight[sn];
      if e.attempts <= maxRetries {
        return None;
      }
      if now - e.lastTxMs >= e.ackTimeoutMs {
        Remove(sn);
        return Some(e);
      }
      return None;
    }

    /** `expired_failures`: pops every record that is due, in table order, and returns them. */
    method TakeExpiredFailures() returns (taken: seq<Inflight>)
      requires Valid() && TableValid()
      modifies this
      ensures TableValid()
      ensures var dead := ExpiredFailures(cfg, old(View()), clock.now, old(order));
              && View() == DropAll(old(View()), dead)
              && |taken| == |dead|
              && forall i :: 0 <= i < |dead| ==> dead[i] in old(inflight) && taken[i] == old(inflight)[dead[i]]
    {
      hide Drop, DropAll, OrderInv, ExpiredFailures;
      var now := clock.NowMs();
      var snapshot := order;
      ghost var g := View();
      ghost var dead := ExpiredFailures(cfg, g, now, snapshot);
      ghost var done: seq<byte> := [];
      SnapshotKnown(g);
      taken := [];
      for i := 0 to |snapshot|
        invariant TableValid()
        invariant dead == done + ExpiredFailures(cfg, g, now, snapshot[i..])
        invariant DropAll(View(), ExpiredFailures(cfg, g, now, snapshot[i..])) == DropAll(g, dead)
        invariant |taken| == |done|
        invariant forall j :: 0 <= j < |done| ==> done[j] in g.inflight && taken[j] == g.inflight[done[j]]
        invariant forall j :: i <= j < |snapshot| ==>
                    snapshot[j] in inflight && inflight[snapshot[j]] == g.inflight[snapshot[j]]
      {
        var sn := snapshot[i];
        FailuresFrom(cfg, g, now, snapshot, i);
        ghost var v, rest := View(), ExpiredFailures(cfg, g, now, snapshot[i + 1..]);
        var e := TakeIfDue(sn, now);
        if e.Some? {
          DropAllCons(v, sn, rest);
          taken := taken + [e.value];
          done := done + [sn];
        }
      }
      NoneLeft(cfg, g, now, snapshot, View());
    }

    method Metrics() returns (pdr: real, etx: real)
      ensures pdr == Pdr(View()) && etx == Etx(View())
    {
      pdr := if sentCount > 0 then ackedCount as real / sentCount as real else 0.0;
      etx := sentCount as real / Max(ackedCount, 1) as real;
    }
  }

  /** Facts about the snapshot loop of `expired_failures`. */
  lemma SnapshotKnown(g: Gate)
    requires OrderInv(g)
    ensures Distinct(g.order) && forall j :: 0 <= j < |g.order| ==> g.order[j] in g.inflight
  {
    forall j | 0 <= j < |g.order| ensures g.order[j] in g.inflight {
      assert g.order[j] in g.order;
    }
  }

  lemma FailuresFrom(cfg: Config, g: Gate, now: int, order: seq<byte>, i: nat)
    requires i < |order|
    ensures var rest := ExpiredFailures(cfg, g, now, order[i + 1..]);
            ExpiredFailures(cfg, g, now, order[i..])
            == if FailureDue(cfg, g, now, order[i]) then [order[i]] + rest else rest
  {
    assert order[i..][1..] == order[i + 1..];
  }

  lemma SequencesFrom(cfg: Config, g: Gate, now: int, order: seq<byte>, i: nat)
    requires i < |order|
    ensures var rest := ExpiredSequences(cfg, g, now, order[i + 1..]);
            ExpiredSequences(cfg, g, now, order[i..])
            == if RetryDue(cfg, g, now, order[i]) then [order[i]] + rest else rest
  {
    assert order[i..][1..] == order[i + 1..];
  }

  lemma SequencesEnd(cfg: Config, g: Gate, now: int, order: seq<byte>)
    ensures ExpiredSequences(cfg, g, now, order[|order|..]) == []
  {
  }

  lemma DropAllCons(g: Gate, sn: byte, rest: seq<byte>)
    ensures DropAll(g, [sn] + rest) == DropAll(Drop(g, sn), rest)
  {
    assert ([sn] + rest)[1..] == rest;
  }

  lemma NoneLeft(cfg: Config, g: Gate, now: int, order: seq<byte>, v: Gate)
    ensures ExpiredFailures(cfg, g, now, order[|order|..]) == [] && DropAll(v, []) == v
  {
  }

  // ---------------------------------------------------------------------
  // Mock link
  // ---------------------------------------------------------------------

  /** The place of a new element: behind everything it is not before. */
  lemma {:induction false} InsertAt(q: seq<Delivery>, d: Delivery, i: nat)
    requires i <= |q| && (forall j :: 0 <= j < i ==> !Before(d, q[j])) && (i < |q| ==> Before(d, q[i]))
    ensures Insert(q, d) == q[..i] + [d] + q[i..]
    decreases i
  {
    hide Before;
    if i > 0 {
      InsertAt(q[1..], d, i - 1);
    }
  }

  class MockLink {
    const clock: FakeClock
    const latencyMs: nat
    const lossAb: LossModel
    const lossBa: LossModel
    var toA: seq<Delivery>
    var toB: seq<Delivery>

    ghost predicate Valid(cfg: Config, env: Env)
    {
      && lossAb != lossBa
      && latencyMs == cfg.latencyMs
      && (forall n: nat :: env.dropAb(n) == lossAb.Decision(n))
      && (forall n: nat :: env.dropBa(n) == lossBa.Decision(n))
    }

    ghost function View(): Link
      reads this, lossAb, lossBa
    {
      Link(toA, toB, lossAb.counter, lossBa.counter)
    }

    constructor (clock: FakeClock, latencyMs: nat, lossAb: LossModel, lossBa: LossModel)
      ensures this.clock == clock && this.latencyMs == latencyMs && this.lossAb == lossAb && this.lossBa == lossBa
      ensures toA == [] && toB == []
    {
      this.clock := clock;
      this.latencyMs := latencyMs;
      this.lossAb := lossAb;
      this.lossBa := lossBa;
      toA, toB := [], [];
    }

    /** `heappush`: the queue lists its elements in the order in which they will be popped. */
    static method Push(q: seq<Delivery>, d: Delivery) returns (r: seq<Delivery>)
      ensures r == Insert(q, d)
    {
      hide Before, Insert;
      var i := 0;
      while i < |q| && !Before(d, q[i])
        invariant 0 <= i <= |q|
        invariant forall j :: 0 <= j < i ==> !Before(d, q[j])
      {
        i := i + 1;
      }
      InsertAt(q, d, i);
      r := q[..i] + [d] + q[i..];
    }

    method Send(fromA: bool, frame: bytes, ghost cfg: Config, ghost env: Env)
      requires Valid(cfg, env)
      modifies this, lossAb, lossBa
      ensures View() == if fromA then SendFromA(cfg, env, old(View()), clock.now, frame)
                        else SendFromB(cfg, env, old(View()), clock.now, frame)
    {
      hide Insert;
      var drop: bool;
      if fromA {
        drop := lossAb.ShouldDrop();
      } else {
        drop := lossBa.ShouldDrop();
      }
      if drop {
        return;
      }
      var now := clock.NowMs();
      var d := Delivery(now + latencyMs, frame);
      if fromA {
        toB := Push(toB, d);
      } else {
        toA := Push(toA, d);
      }
    }

    /** The queue of frames on their way to one side. */
    function Queue(a: bool): seq<Delivery>
      reads this
    {
      if a then toA else toB
    }

    /** `_recv` polls the clock in steps of one millisecond: the first frame that is due by the deadline
        is returned, at the moment it is due; otherwise the clock ends at the deadline. With no timeout
        the clock does not move. */
    method Recv(a: bool, timeoutMs: int) returns (r: Option<bytes>)
      modifies this`toA, this`toB, clock
      ensures Queue(!a) == old(Queue(!a))
      ensures old(clock.now) <= clock.now <= old(clock.now) + Max(0, timeoutMs)
      ensures r.Some? <==> Deliverable(old(Queue(a)), old(clock.now) + Max(0, timeoutMs))
      ensures r.Some? ==> && old(Queue(a)) != [] && r.value == old(Queue(a))[0].frame
                          && Queue(a) == old(Queue(a))[1..]
                          && clock.now == Max(old(clock.now), old(Queue(a))[0].at)
      ensures r.None? ==> Queue(a) == old(Queue(a)) && clock.now == old(clock.now) + Max(0, timeoutMs)
    {
      var deadline := clock.now + Max(0, timeoutMs);
      while true
        invariant toA == old(toA) && toB == old(toB) && old(clock.now) <= clock.now <= deadline
        invariant clock.now > old(clock.now) ==> timeoutMs > 0 && !Deliverable(Queue(a), clock.now - 1)
        decreases deadline - clock.now
      {
        var q := Queue(a);
        if q != [] && q[0].at <= clock.now {
          r := Some(q[0].frame);
          if a {
            toA := toA[1..];
          } else {
            toB := toB[1..];
          }
          return;
        }
        if timeoutMs <= 0 {
          return None;
        }
        var now := clock.NowMs();
        if now >= deadline {
          return None;
        }
        clock.SleepMs(Min(1, deadline - now));
      }
    }
  }

  // ---------------------------------------------------------------------
  // Transmit node
  // ---------------------------------------------------------------------

  /** What `_queue_window` raises: a sample of the wrong length, or a payload beyond the limit. */
  datatype TxError = SampleDims | PayloadTooLong(size: nat)

  /** What is plugged into a transmit node: any codec and any sampler, for rows of a given length. */
  datatype Plugs = Plugs(dims: nat, codec: seq<real> -> bytes, sampler: nat -> Sample) {
    predicate WrongLength(i: nat) {
      sampler(i).SampleRow? && |sampler(i).row| != dims
    }

    /** The model says the same wherever the program does not raise. */
    ghost predicate Match(cfg: Config, env: Env) {
      && (forall w: seq<real> :: |codec(w)| <= cfg.maxPayload ==> cfg.encode(w) == codec(w))
      && (forall i: nat :: sampler(i) == env.sample(i) || WrongLength(i))
    }

    /** Whether `_queue_window` raises, and what. */
    ghost function Verdict(cfg: Config, s: Sys): Result<(), TxError>
      requires cfg.window.Valid()
    {
      if !WantsSample(cfg, s) || !sampler(s.samplesTaken).SampleRow? then Ok(())
      else if WrongLength(s.samplesTaken) then Err(SampleDims)
      else
        match Feed(cfg.window, s.builder, sampler(s.samplesTaken).row).1
        case None => Ok(())
        case Some(w) => if |codec(w)| > cfg.maxPayload then Err(PayloadTooLong(|codec(w)|)) else Ok(())
    }

    /** The state it is raised in: the sample has been taken, and a window that is too long has been built and
        logged to the dataset, but neither queued nor counted. */
    ghost function Stopped(cfg: Config, s: Sys): Sys
      requires cfg.window.Valid() && Verdict(cfg, s).Err?
    {
      var t := s.(samplesTaken := s.samplesTaken + 1);
      if WrongLength(s.samplesTaken) then t
      else
        var row := sampler(s.samplesTaken).row;
        var (b, out) := Feed(cfg.window, s.builder, row);
        t.(builder := b, fed := s.fed + [row], dataset := s.dataset + [out.value])
    }
  }

  lemma RowsAreFit(io: Plugs, cfg: Config, env: Env)
    requires io.Match(cfg, env) && forall i: nat :: !io.WrongLength(i)
    ensures RowsFit(env, io.dims)
  {
    forall i: nat | env.sample(i).SampleRow? ensures |env.sample(i).row| == io.dims {
      assert !io.WrongLength(i) && (io.sampler(i) == env.sample(i) || io.WrongLength(i));
    }
  }

  lemma LastRowsFit(w: WindowSpec, fed: seq<Row>, row: Row, dims: nat)
    requires w.Valid() && Fit(fed, dims) && |row| == dims
    ensures var out := Feed(w, Windows.After(w, fed), row).1;
            out.Some? ==> exists rows: seq<Row> :: |rows| == w.W && Fit(rows, dims) && out.value == Flatten(rows)
  {
    hide Feed, Flatten, Windows.After, OnStride;
    EmitsWhenDue(w, fed, row);
    var all := fed + [row];
    if |all| >= w.W {
      var rows := all[|all| - w.W..|all|];
      assert |rows| == w.W && Fit(rows, dims);
    }
  }

  /** Rows of the right length and payloads within the limit raise nothing, in any run. */
  lemma NothingRaised(io: Plugs, cfg: Config, env: Env, s: Sys)
    requires cfg.Valid() && io.Match(cfg, env) && Reachable(cfg, env, s)
    requires forall i: nat :: !io.WrongLength(i)
    requires forall rows: seq<Row> :: |rows| == cfg.window.W && Fit(rows, io.dims) ==>
               |io.codec(Flatten(rows))| <= cfg.maxPayload
    ensures io.Verdict(cfg, s).Ok?
  {
    hide Reachable, Flatten, Feed, Fit, RowsFit, Windows.After;
    if WantsSample(cfg, s) && io.sampler(s.samplesTaken).SampleRow? {
      assert !io.WrongLength(s.samplesTaken);
      RowsAreFit(io, cfg, env);
      FedFits(cfg, env, io.dims, s);
      BuilderIs(cfg, env, s);
      LastRowsFit(cfg.window, s.fed, io.sampler(s.samplesTaken).row, io.dims);
    }
  }

  lemma BuilderIs(cfg: Config, env: Env, s: Sys)
    requires cfg.Valid() && Reachable(cfg, env, s)
    ensures s.builder == Windows.After(cfg.window, s.fed)
  {
    hide Reachable, DataInv, Count, Windows.After;
    CoreParts(cfg, env, s);
  }

  /** The part of the system state that belongs to the receive node. */
  datatype RxPart = RxPart(ackSeq: byte, rxOkCount: nat)

  class TxNode {
    const cfg: Config
    const env: Env
    const io: Plugs
    const clock: FakeClock
    const gate: TxGate
    const link: MockLink
    const builder: WindowBuilder
    const log: EventLog

    var seqNo: byte
    var pending: seq<PendingWindow>
    var payloads: map<byte, PendingWindow>
    var windowsGenerated: nat
    var windowsSent: nat
    var noMoreSamples: bool
    var samplesTaken: nat
    var dataset: seq<seq<real>>
    ghost var fed: seq<Row>
    ghost var lost: set<nat>

    /** The objects belong together; nothing of this ever changes. */
    ghost predicate Wired() {
      && cfg.Valid()
      && gate.Valid() && gate.cfg == cfg && gate.clock == clock
      && link.Valid(cfg, env) && link.clock == clock
      && builder.Valid() && builder.spec == cfg.window && builder.dims == io.dims
      && io.Match(cfg, env)
    }

    /** No window is too long for a frame. */
    static ghost predicate Fits(cfg: Config, pending: seq<PendingWindow>, payloads: map<byte, PendingWindow>) {
      && (forall i :: 0 <= i < |pending| ==> |pending[i].payload| <= cfg.maxPayload)
      && (forall k <- payloads :: |payloads[k].payload| <= cfg.maxPayload)
    }

    ghost predicate Valid()
      reads this, gate
    {
      Wired() && gate.TableValid() && Fits(cfg, pending, payloads)
    }

    /** The system state, given the receiver's part of it. */
    ghost function View(rx: RxPart): Sys
      reads this, gate, link, link.lossAb, link.lossBa, builder, log, clock
    {
      Sys(clock.now, gate.View(), seqNo, pending, payloads, builder.View(), windowsGenerated, windowsSent,
          noMoreSamples, samplesTaken, rx.ackSeq, rx.rxOkCount, link.View(), log.events, dataset, fed, lost)
    }

    /** The gate's default timeout is the one of the longest frame. */
    constructor (cfg: Config, env: Env, io: Plugs, clock: FakeClock, link: MockLink, log: EventLog)
      requires cfg.Valid() && io.Match(cfg, env)
      requires link.Valid(cfg, env) && link.clock == clock && link.View() == Link([], [], 0, 0)
      requires log.events == [] && clock.now >= 0
      ensures Valid() && fresh(builder) && fresh(gate)
      ensures gate.ackTimeoutDefault == cfg.ackTimeoutMs(2 + cfg.maxPayload)
      ensures this.cfg == cfg && this.env == env && this.io == io && this.link == link
      ensures this.log == log && this.clock == clock
      ensures View(RxPart(0, 0)) == Init(clock.now)
    {
      this.cfg := cfg;
      this.env := env;
      this.io := io;
      this.clock := clock;
      this.link := link;
      this.log := log;
      gate := new TxGate(clock, cfg.ackTimeoutMs(2 + cfg.maxPayload), cfg.guardMs, cfg.maxRetries, cfg.maxInflight,
                         cfg);
      builder := new WindowBuilder(io.dims, cfg.window);
      seqNo, pending, payloads := 0, [], map[];
      windowsGenerated, windowsSent, noMoreSamples, samplesTaken := 0, 0, false, 0;
      dataset, fed, lost := [], [], {};
    }

    method IsDone(ghost rx: RxPart) returns (r: bool)
      ensures r == ArqModel.IsDone(cfg, View(rx))
    {
      match cfg.maxWindows
      case None =>
        if !noMoreSamples {
          return false;
        }
        return pending == [] && gate.inflight == map[];
      case Some(n) =>
        return windowsSent >= n && pending == [] && gate.inflight == map[];
    }

    method QueueWindow(ghost rx: RxPart) returns (r: Result<(), TxError>)
      requires Valid()
      modifies this, builder
      ensures Valid() && r == io.Verdict(cfg, old(View(rx)))
      ensures View(rx)
              == if r.Ok? then ArqModel.QueueWindow(cfg, env, old(View(rx))) else io.Stopped(cfg, old(View(rx)))
    {
      hide Windows.Feed, TableOk, Config.Valid, Fits;
      if noMoreSamples {
        return Ok(());
      }
      if cfg.maxWindows.Some? && windowsGenerated >= cfg.maxWindows.value {
        return Ok(());
      }
      var sample := io.sampler(samplesTaken);
      samplesTaken := samplesTaken + 1;
      match sample {
        case NoSampleYet => return Ok(());
        case SamplesExhausted =>
          noMoreSamples := true;
          return Ok(());
        case SampleRow(row) => r := FeedRow(row, rx);
      }
    }

    /** `feed`, and what follows if it returns a window. */
    method FeedRow(row: Row, ghost rx: RxPart) returns (r: Result<(), TxError>)
      requires Valid()
      modifies this, builder
      ensures Valid()
      ensures |row| != io.dims ==> r == Err(SampleDims) && View(rx) == old(View(rx))
      ensures |row| == io.dims ==>
                var (b, out) := Windows.Feed(cfg.window, old(View(rx)).builder, row);
                var s := old(View(rx)).(builder := b, fed := old(View(rx)).fed + [row]);
                if out.None? then r == Ok(()) && View(rx) == s
                else if |io.codec(out.value)| > cfg.maxPayload then
                  r == Err(PayloadTooLong(|io.codec(out.value)|)) && View(rx) == s.(dataset := s.dataset + [out.value])
                else
                  && r == Ok(())
                  && View(rx) == s.(dataset := s.dataset + [out.value],
                                    pending := s.pending + [PendingWindow(s.generated, cfg.encode(out.value), s.now)],
                                    generated := s.generated + 1)
    {
      hide Windows.Feed, TableOk, Config.Valid, Fits;
      var result := builder.FeedSample(row);
      if result.Err? {
        return Err(SampleDims);
      }
      fed := fed + [row];
      if result.value.None? {
        return Ok(());
      }
      r := Enqueue(result.value.value, rx);
    }

    /** The tail of `_queue_window`: log the window to the dataset, encode it and queue it. */
    method Enqueue(window: seq<real>, ghost rx: RxPart) returns (r: Result<(), TxError>)
      requires Valid()
      modifies this
      ensures Valid()
      ensures var s := old(View(rx));
              if |io.codec(window)| > cfg.maxPayload then
                r == Err(PayloadTooLong(|io.codec(window)|)) && View(rx) == s.(dataset := s.dataset + [window])
              else
                && r == Ok(())
                && View(rx) == s.(dataset := s.dataset + [window],
                                  pending := s.pending + [PendingWindow(s.generated, cfg.encode(window), s.now)],
                                  generated := s.generated + 1)
    {
      hide TableOk;
      var id := windowsGenerated;
      var builtMs := clock.NowMs();
      dataset := dataset + [window];
      var payload := io.codec(window);
      if |payload| > cfg.maxPayload {
        return Err(PayloadTooLong(|payload|));
      }
      pending := pending + [PendingWindow(id, payload, builtMs)];
      windowsGenerated := windowsGenerated + 1;
      return Ok(());
    }

    method HandleIncoming(ghost rx: RxPart)
      requires Valid()
      modifies this, gate, link, log, clock
      ensures Valid() && View(rx) == ArqModel.HandleIncoming(cfg, old(View(rx)))
    {
      while true
        invariant Valid() && clock.now == old(clock.now)
        invariant ArqModel.HandleIncoming(cfg, View(rx)) == ArqModel.HandleIncoming(cfg, old(View(rx)))
        decreases |link.toA|
      {
        ghost var before := View(rx);
        var frame := link.Recv(true, 0);
        if frame.None? {
          return;
        }
        HandleOne(frame.value, rx, before);
      }
    }

    /** The body of the receive loop: what becomes of one frame. */
    method HandleOne(frame: bytes, ghost rx: RxPart, ghost before: Sys)
      requires Valid() && Deliverable(before.link.toA, before.now) && before.link.toA[0].frame == frame
      requires View(rx) == PopA(before)
      modifies this, gate, log
      ensures Valid() && View(rx) == HandleFrame(cfg, before)
    {
      hide OrderInv;
      var parsed := FromBytes(frame, Some(cfg.maxPayload));
      if parsed.Err? {
        log.LogEvent(TxParseFail(clock.now));
        return;
      }
      if |parsed.value.payload| != 1 {
        return;
      }
      var sn := parsed.value.payload[0];
      AckOne(sn, rx);
    }

    method AckOne(sn: byte, ghost rx: RxPart)
      requires Valid()
      modifies this, gate, log
      ensures Valid()
      ensures View(rx) == if sn in old(View(rx)).gate.inflight then Acknowledge(old(View(rx)), sn) else old(View(rx))
    {
      hide Without, TableOk, Wired;
      var record := gate.MarkAcked(sn);
      if record.None? {
        return;
      }
      var now := clock.NowMs();
      var first := record.value.firstTxMs;
      if sn in payloads {
        var w := payloads[sn];
        log.LogEvent(AckReceived(now, sn, Some(w.id), now - first, first - w.builtMs, now - w.builtMs));
      } else {
        log.LogEvent(AckReceived(now, sn, None, now - first, 0, 0));
      }
      payloads := payloads - {sn};
    }

    /** Record, send and log one transmission; `_retry_expired` and `_send_pending` share these lines. */
    method SendFrame(w: PendingWindow, sn: byte, ghost rx: RxPart)
      requires Valid() && |w.payload| <= cfg.maxPayload
      modifies gate, link, link.lossAb, link.lossBa, log
      ensures Valid() && View(rx) == Transmit(cfg, env, old(View(rx)), w, sn)
    {
      hide SendFromA, TableOk, Fits, RecordSend;
      var n := 2 + |w.payload|;
      var toa := cfg.toaMs(n);
      var timeout := cfg.ackTimeoutMs(n);
      var recorded := gate.RecordSend(sn, toa, Some(timeout));
      var frame := ToBytes(Packet(w.payload, sn), Some(cfg.maxPayload));
      assert frame == Ok(DataFrame(sn, w.payload));
      link.Send(true, frame.value, cfg, env);
      var now := clock.NowMs();
      log.LogEvent(TxSent(now, w.id, sn, w.payload, toa, cfg.guardMs, timeout, recorded.value, now - w.builtMs));
    }

    method RetryDueEntries(ghost rx: RxPart)
      requires Valid()
      modifies gate, link, link.lossAb, link.lossBa, log
      ensures Valid()
      ensures var s := old(View(rx));
              View(rx) == RetryAll(cfg, env, s, ExpiredSequences(cfg, s.gate, s.now, s.gate.order))
    {
      hide Transmit, ArqModel.CanSend, OrderInv;
      var due := gate.CollectExpired();
      for i := 0 to |due|
        invariant Valid()
        invariant RetryAll(cfg, env, View(rx), due[i..]) == RetryAll(cfg, env, old(View(rx)), due)
        invariant payloads == old(payloads)
      {
        assert due[i..][1..] == due[i + 1..];
        if due[i] !in payloads {
          continue;
        }
        var open := gate.CanSend();
        if !open {
          continue;
        }
        SendFrame(payloads[due[i]], due[i], rx);
      }
      assert due[|due|..] == [];
    }

    method FailDueEntries(ghost rx: RxPart)
      requires Valid()
      modifies this, gate, log
      ensures Valid()
      ensures var s := old(View(rx));
              View(rx) == FailAll(s, ExpiredFailures(cfg, s.gate, s.now, s.gate.order))
    {
      hide Drop, DropAll, FailAll, OrderInv, ExpiredFailures, Config.Valid;
      ghost var s := View(rx);
      ghost var dead := ExpiredFailures(cfg, s.gate, s.now, s.gate.order);
      DeadAreDistinct(cfg, s.gate, s.now);
      var taken := gate.TakeExpiredFailures();
      FailAllIsReported(s, dead, taken);
      ghost var t := View(rx);
      for i := 0 to |taken|
        invariant Valid()
        invariant Reported(View(rx), taken[i..]) == Reported(t, taken)
      {
        assert taken[i..][1..] == taken[i + 1..];
        ReportFailure(taken[i], rx);
      }
      assert taken[|taken|..] == [];
    }

    /** The body of the failure loop. */
    method ReportFailure(e: Inflight, ghost rx: RxPart)
      requires Valid()
      modifies this, log
      ensures Valid() && View(rx) == FailureReported(old(View(rx)), e)
    {
      hide OrderInv, Config.Valid;
      log.LogEvent(TxFailed(clock.now, e.sn, if e.sn in payloads then Some(payloads[e.sn].id) else None, e.attempts));
      payloads := payloads - {e.sn};
    }

    method RetryExpired(ghost rx: RxPart)
      requires Valid()
      modifies this, gate, link, link.lossAb, link.lossBa, log
      ensures Valid() && View(rx) == ArqModel.RetryExpired(cfg, env, old(View(rx)))
    {
      hide RetryAll, FailAll, ExpiredSequences, ExpiredFailures;
      RetryDueEntries(rx);
      FailDueEntries(rx);
    }

    method SendPending(ghost rx: RxPart)
      requires Valid()
      modifies this, gate, link, link.lossAb, link.lossBa, log
      ensures Valid() && View(rx) == ArqModel.SendPending(cfg, env, old(View(rx)))
    {
      hide Transmit, ArqModel.CanSend, OrderInv, Config.Valid;
      if pending == [] {
        return;
      }
      var open := gate.CanSend();
      if !open {
        return;
      }
      var w := pending[0];
      var sn := seqNo;
      SendFrame(w, sn, rx);
      MarkSent(w, sn, rx);
    }

    static lemma FitsStill(cfg: Config, pending: seq<PendingWindow>, payloads: map<byte, PendingWindow>, sn: byte)
      requires Fits(cfg, pending, payloads) && pending != []
      ensures Fits(cfg, pending[1..], payloads[sn := pending[0]])
    {
    }

    /** The bookkeeping of `_send_pending`. */
    method MarkSent(w: PendingWindow, sn: byte, ghost rx: RxPart)
      requires Valid() && pending != [] && w == pending[0] && sn == seqNo
      modifies this
      ensures Valid()
      ensures var s := old(View(rx));
              View(rx) == s.(pending := s.pending[1..], seqNo := (s.seqNo + 1) % 256, payloads := s.payloads[sn := w],
                             sent := s.sent + 1,
                             lost := if sn in s.payloads then s.lost + {s.payloads[sn].id} else s.lost)
    {
      FitsStill(cfg, pending, payloads, sn);
      hide OrderInv, Wired, TableOk, Fits;
      pending := pending[1..];
      seqNo := (seqNo + 1) % 256;
      lost := if sn in payloads then lost + {payloads[sn].id} else lost;
      payloads := payloads[sn := w];
      windowsSent := windowsSent + 1;
    }

    method ProcessOnce(ghost rx: RxPart) returns (r: Result<(), TxError>)
      requires Valid()
      modifies this, gate, link, link.lossAb, link.lossBa, builder, log, clock
      ensures Valid() && r == io.Verdict(cfg, old(View(rx)))
      ensures View(rx) == if r.Ok? then TxProcessOnce(cfg, env, old(View(rx))) else io.Stopped(cfg, old(View(rx)))
    {
      hide ArqModel.QueueWindow, ArqModel.HandleIncoming, ArqModel.RetryExpired, ArqModel.SendPending;
      hide Plugs.Verdict, Plugs.Stopped;
      r := QueueWindow(rx);
      if r.Err? {
        return;
      }
      HandleIncoming(rx);
      RetryExpired(rx);
      SendPending(rx);
    }
  }

  /** Giving up a window without its gate part: the program has popped the record already. */
  ghost function FailureReported(s: Sys, e: Inflight): Sys {
    s.(log := s.log + [TxFailed(s.now, e.sn, if e.sn in s.payloads then Some(s.payloads[e.sn].id) else None,
                                e.attempts)],
       payloads := s.payloads - {e.sn})
  }

  ghost function Reported(s: Sys, taken: seq<Inflight>): Sys
    decreases |taken|
  {
    if taken == [] then s else Reported(FailureReported(s, taken[0]), taken[1..])
  }

  /** Popping all records first and reporting them afterwards, as the program does, is giving them up
      one after the other. */
  lemma {:induction false} FailAllIsReported(s: Sys, dead: seq<byte>, taken: seq<Inflight>)
    requires Distinct(dead) && |dead| == |taken|
    requires forall i :: 0 <= i < |dead| ==>
               dead[i] in s.gate.inflight && taken[i] == s.gate.inflight[dead[i]] && taken[i].sn == dead[i]
    ensures FailAll(s, dead) == Reported(s.(gate := DropAll(s.gate, dead)), taken)
    decreases |dead|
  {
    if dead != [] {
      hide Without;
      FailAllIsReported(Fail(s, dead[0]), dead[1..], taken[1..]);
    }
  }

  lemma DeadAreDistinct(cfg: Config, g: Gate, now: int)
    requires OrderInv(g)
    ensures var dead := ExpiredFailures(cfg, g, now, g.order);
            Distinct(dead) && forall i :: 0 <= i < |dead| ==> dead[i] in g.inflight
  {
    ExpiredFailuresDue(cfg, g, now, g.order);
    var dead := ExpiredFailures(cfg, g, now, g.order);
    forall i | 0 <= i < |dead| ensures dead[i] in g.inflight {
      assert dead[i] in dead;
    }
  }

  // ---------------------------------------------------------------------
  // Receive node
  // ---------------------------------------------------------------------

  lemma AckParses(ackSeq: byte, sn: byte, maxPayload: int)
    requires 1 <= maxPayload <= 253
    ensures ToBytes(Packet([sn], ackSeq), Some(maxPayload)) == Ok(AckFrame(ackSeq, sn))
  {
    assert [1, ackSeq] + [sn] == [1, ackSeq, sn];
  }

  class RxNode {
    const clock: FakeClock
    const link: MockLink
    const log: EventLog
    const maxPayload: int
    var ackSeq: byte
    var rxOkCount: nat

    ghost function Part(): RxPart
      reads this
    {
      RxPart(ackSeq, rxOkCount)
    }

    constructor (clock: FakeClock, link: MockLink, log: EventLog, maxPayload: int)
      ensures this.clock == clock && this.link == link && this.log == log && this.maxPayload == maxPayload
      ensures Part() == RxPart(0, 0)
    {
      this.clock := clock;
      this.link := link;
      this.log := log;
      this.maxPayload := maxPayload;
      ackSeq, rxOkCount := 0, 0;
    }

    /** The receive node works on the same link, clock and log as transmit node `tx`. */
    ghost predicate PairedWith(tx: TxNode) {
      link == tx.link && clock == tx.clock && log == tx.log && maxPayload == tx.cfg.maxPayload
    }

    method ProcessOnce(ghost tx: TxNode)
      requires tx.Valid() && PairedWith(tx)
      modifies this, link, link.lossAb, link.lossBa, log, clock
      ensures tx.Valid() && tx.View(Part()) == RxProcessOnce(tx.cfg, tx.env, old(tx.View(Part())))
    {
      hide SendFromB, TableOk, TxNode.Fits;
      ghost var s := tx.View(Part());
      var frame := link.Recv(false, 0);
      if frame.None? {
        return;
      }
      assert tx.View(Part()) == PopB(s);
      var parsed := FromBytes(frame.value, Some(maxPayload));
      if parsed.Err? {
        log.LogEvent(RxParseFail(clock.now));
        return;
      }
      Answer(parsed.value.seqNo, parsed.value.payload, tx);
    }

    /** Log a packet and acknowledge its SEQ. */
    method Answer(sn: byte, payload: bytes, ghost tx: TxNode)
      requires tx.Valid() && PairedWith(tx)
      modifies this, link, link.lossAb, link.lossBa, log
      ensures tx.Valid() && tx.View(Part()) == Echo(tx.cfg, tx.env, old(tx.View(Part())), sn, payload)
    {
      hide SendFromB, TableOk, TxNode.Fits;
      ghost var s := tx.View(Part());
      log.LogEvent(RxOk(clock.now, sn, payload));
      rxOkCount := rxOkCount + 1;
      var ack := ToBytes(Packet([sn], ackSeq), Some(maxPayload));
      AckParses(ackSeq, sn, maxPayload);
      link.Send(false, ack.value, tx.cfg, tx.env);
      log.LogEvent(AckSent(clock.now, sn));
      ackSeq := (ackSeq + 1) % 256;
      assert s.log + [RxOk(s.now, sn, payload)] + [AckSent(s.now, sn)]
          == s.log + [RxOk(s.now, sn, payload), AckSent(s.now, sn)];
    }
  }

  // ---------------------------------------------------------------------
  // The experiment loop
  // ---------------------------------------------------------------------

  lemma RunPairUnfolds(cfg: Config, env: Env, s: Sys, stepMs: int, n: nat)
    requires cfg.window.Valid() && n >= 1
    ensures var t := RxProcessOnce(cfg, env, TxProcessOnce(cfg, env, s));
            ArqModel.RunPair(cfg, env, s, stepMs, n)
            == if ArqModel.IsDone(cfg, t) then t else ArqModel.RunPair(cfg, env, Tick(t, stepMs), stepMs, n - 1)
  {
  }

  lemma RunPairEnds(cfg: Config, env: Env, s: Sys, stepMs: int)
    requires cfg.window.Valid()
    ensures ArqModel.RunPair(cfg, env, s, stepMs, 0) == s
  {
  }

  /** The state after n whole rounds. */
  ghost function Rounds(cfg: Config, env: Env, s: Sys, stepMs: int, n: nat): Sys
    requires cfg.window.Valid()
  {
    if n == 0 then s
    else Tick(RxProcessOnce(cfg, env, TxProcessOnce(cfg, env, Rounds(cfg, env, s, stepMs, n - 1))), stepMs)
  }

  /** The loop ends as the model's does, unless a call of `TxNode.process_once` raises; then that call is the
      last one, and the state is the one in which it was raised. */
  method RunPair(tx: TxNode, rx: RxNode, clock: FakeClock, stepMs: int, maxSteps: nat) returns (r: Result<(), TxError>)
    requires tx.Valid() && rx.PairedWith(tx) && clock == tx.clock
    modifies tx, rx, tx.gate, tx.link, tx.link.lossAb, tx.link.lossBa, tx.builder, tx.log, clock
    ensures tx.Valid()
    ensures r.Ok? ==>
              tx.View(rx.Part()) == ArqModel.RunPair(tx.cfg, tx.env, old(tx.View(rx.Part())), stepMs, maxSteps)
    ensures r.Err? ==>
              exists n: nat :: n < maxSteps
                && var s := Rounds(tx.cfg, tx.env, old(tx.View(rx.Part())), stepMs, n);
                   r == tx.io.Verdict(tx.cfg, s) && tx.View(rx.Part()) == tx.io.Stopped(tx.cfg, s)
  {
    hide TxProcessOnce, RxProcessOnce, ArqModel.IsDone, TxNode.View, RxNode.Part, ArqModel.RunPair, Tick;
    hide TxNode.Fits, TableOk, Plugs.Verdict, Plugs.Stopped;
    ghost var start := tx.View(rx.Part());
    ghost var end := ArqModel.RunPair(tx.cfg, tx.env, start, stepMs, maxSteps);
    var i := 0;
    while i < maxSteps
      invariant 0 <= i <= maxSteps && tx.Valid()
      invariant tx.View(rx.Part()) == Rounds(tx.cfg, tx.env, start, stepMs, i)
      invariant ArqModel.RunPair(tx.cfg, tx.env, tx.View(rx.Part()), stepMs, maxSteps - i) == end
    {
      RunPairUnfolds(tx.cfg, tx.env, tx.View(rx.Part()), stepMs, maxSteps - i);
      var done := Round(tx, rx);
      if done.Err? {
        return Err(done.error);
      }
      if done.value {
        return Ok(());
      }
      Sleep(tx, rx.Part(), stepMs);
      i := i + 1;
    }
    RunPairEnds(tx.cfg, tx.env, tx.View(rx.Part()), stepMs);
    return Ok(());
  }

  /** The sleep between two rounds: nothing but the time changes. */
  method Sleep(tx: TxNode, ghost rx: RxPart, ms: int)
    requires tx.Valid()
    modifies tx.clock
    ensures tx.Valid() && tx.View(rx) == Tick(old(tx.View(rx)), ms)
  {
    hide TxNode.Valid;
    tx.clock.SleepMs(ms);
  }

  /** One round of `run_pair`: both nodes take their turn, then the transmit node is asked. */
  method Round(tx: TxNode, rx: RxNode) returns (done: Result<bool, TxError>)
    requires tx.Valid() && rx.PairedWith(tx)
    modifies tx, rx, tx.gate, tx.link, tx.link.lossAb, tx.link.lossBa, tx.builder, tx.log, tx.clock
    ensures tx.Valid()
    ensures done.Err? <==> tx.io.Verdict(tx.cfg, old(tx.View(rx.Part()))).Err?
    ensures done.Err? ==>
              && tx.io.Verdict(tx.cfg, old(tx.View(rx.Part()))) == Err(done.error)
              && tx.View(rx.Part()) == tx.io.Stopped(tx.cfg, old(tx.View(rx.Part())))
    ensures done.Ok? ==>
              && tx.View(rx.Part())
                 == RxProcessOnce(tx.cfg, tx.env, TxProcessOnce(tx.cfg, tx.env, old(tx.View(rx.Part()))))
              && done.value == ArqModel.IsDone(tx.cfg, tx.View(rx.Part()))
  {
    hide TxProcessOnce, RxProcessOnce, ArqModel.IsDone, Plugs.Verdict, Plugs.Stopped;
    var turn := tx.ProcessOnce(rx.Part());
    if turn.Err? {
      return Err(turn.error);
    }
    rx.ProcessOnce(tx);
    var isDone := tx.IsDone(rx.Part());
    return Ok(isDone);
  }

  /** Valid but for its codec. */
  ghost predicate Usable(cfg: Config) {
    cfg.(encode := (w: seq<real>) => []).Valid()
  }

  /** The codec, continued by nothing where the program raises. */
  function WithinLimit(cfg: Config): Config {
    cfg.(encode := (w: seq<real>) => if |cfg.encode(w)| <= cfg.maxPayload then cfg.encode(w) else [])
  }

  /** The sampler, continued by pauses where the program raises. */
  function OfLength(env: Env, dims: nat): Env {
    env.(sample := (i: nat) =>
           match env.sample(i)
           case SampleRow(row) => if |row| == dims then SampleRow(row) else NoSampleYet
           case other => other)
  }

  lemma PlugsMatch(cfg: Config, env: Env, dims: nat)
    requires Usable(cfg)
    ensures WithinLimit(cfg).Valid()
    ensures Plugs(dims, cfg.encode, env.sample).Match(WithinLimit(cfg), OfLength(env, dims))
  {
    var c := cfg.(encode := (w: seq<real>) => []);
    assert forall n: nat :: n <= 255 ==> c.toaMs(n) >= 0.0 && c.ackTimeoutMs(n) > 0;
  }

  /** The decisions that these settings make. */
  function Decisions(losses: Losses): nat -> bool {
    (n: nat) => if losses.pattern != [] then losses.pattern[n % |losses.pattern|] else losses.draw(n) < losses.rate
  }

  lemma DecisionsLose(env: Env, ab: Losses, ba: Losses, dims: nat)
    requires env.dropAb == Decisions(ab) && env.dropBa == Decisions(ba)
    ensures var e := OfLength(env, dims); LosesBy(e.dropAb, ab) && LosesBy(e.dropBa, ba)
  {
  }

  lemma SamplesOf(env: Env, io: Plugs, dims: nat)
    requires io.dims == dims && io.sampler == env.sample
    ensures forall i: nat ::
              OfLength(env, dims).sample(i) == env.sample(i)
              || (io.WrongLength(i) && OfLength(env, dims).sample(i).NoSampleYet?)
  {
  }

  /** `create_mock_link`. */
  method CreateMockLink(clock: FakeClock, latencyMs: nat, loss: LinkSpec, ghost cfg: Config, ghost env: Env)
    returns (link: MockLink)
    requires latencyMs == cfg.latencyMs && LosesBy(env.dropAb, loss.Ab()) && LosesBy(env.dropBa, loss.Ba())
    ensures fresh(link) && fresh(link.lossAb) && fresh(link.lossBa)
    ensures link.Valid(cfg, env) && link.clock == clock && link.View() == Link([], [], 0, 0)
  {
    var ab, ba := loss.Ab(), loss.Ba();
    var lossAb := new LossModel(ab.rate, ab.draw, ab.pattern);
    var lossBa := new LossModel(ba.rate, ba.draw, ba.pattern);
    link := new MockLink(clock, latencyMs, lossAb, lossBa);
  }

  /** A whole experiment from scratch, with any codec, sampler and link settings: the objects are built, wired
      together and run. Unless the codec or the sampler makes the transmit node raise, the final state is
      the one the model computes from its initial state, in an environment that loses by these settings. Every
      environment of the model loses by some settings (`ArqLoss.AnyLosses`), so what is proved of the model's
      runs holds of these objects. */
  method Experiment(cfg: Config, sampler: nat -> Sample, dims: nat, loss: LinkSpec, startMs: nat, stepMs: int,
                    maxSteps: nat)
    returns (tx: TxNode, rx: RxNode, r: Result<(), TxError>)
    requires Usable(cfg)
    ensures tx.Valid() && rx.PairedWith(tx) && tx.io == Plugs(dims, cfg.encode, sampler)
    ensures tx.cfg == WithinLimit(cfg)
    ensures LosesBy(tx.env.dropAb, loss.Ab()) && LosesBy(tx.env.dropBa, loss.Ba())
    ensures forall i: nat :: tx.env.sample(i) == sampler(i) || (tx.io.WrongLength(i) && tx.env.sample(i).NoSampleYet?)
    ensures r.Ok? ==> tx.View(rx.Part()) == ArqModel.RunPair(tx.cfg, tx.env, Init(startMs), stepMs, maxSteps)
    ensures r.Err? ==>
              exists n: nat :: n < maxSteps
                && r == tx.io.Verdict(tx.cfg, Rounds(tx.cfg, tx.env, Init(startMs), stepMs, n))
  {
    hide Plugs.Verdict, Plugs.Stopped, Plugs.Match, Config.Valid, Rounds, LosesBy, Decisions, OfLength, WithinLimit;
    var env, io := Env(Decisions(loss.Ab()), Decisions(loss.Ba()), sampler), Plugs(dims, cfg.encode, sampler);
    PlugsMatch(cfg, env, dims);
    DecisionsLose(env, loss.Ab(), loss.Ba(), dims);
    SamplesOf(env, io, dims);
    LimitKeeps(cfg);
    var clock := new FakeClock(startMs);
    var log := new EventLog();
    var used, world := WithinLimit(cfg), OfLength(env, dims);
    var link := CreateMockLink(clock, cfg.latencyMs, loss, used, world);
    tx := new TxNode(used, world, io, clock, link, log);
    rx := new RxNode(clock, link, log, cfg.maxPayload);
    r := RunPair(tx, rx, clock, stepMs, maxSteps);
  }

  lemma LimitKeeps(cfg: Config)
    ensures WithinLimit(cfg).latencyMs == cfg.latencyMs && WithinLimit(cfg).maxPayload == cfg.maxPayload
  {
  }
}
