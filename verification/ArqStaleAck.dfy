/** When an acknowledgement does not prove delivery. The transmitter takes an acknowledgement for whatever
    window is in flight under its SEQ, so the answer to window 0, read late enough, confirms window 256.
    Outside the three conditions of ArqAckSound this happens in some run, even over a link that drops
    nothing; so these conditions are exact. */
module ArqStaleAck {
  import opened Basics
  import opened Windows
  import opened ArqModel
  import opened ArqRuns
  import opened ArqInvariants
  import opened ArqAckSound
  import opened ArqSampling
  import opened ArqRounds
  import ArqSeqWrap
  import ArqSoundness
  import Arith

  /** A run in blocks of max_retries + 2 rounds. The first round of block j takes row j; if that completes a
      window, the window is sent, resent in each of the following rounds as often as allowed, and given up
      in the last. The receiver sleeps. In its last block this is left to `tail` and `after`: tail(0) is the pause
      before window 256 is sent, tail(1) the one after it, and the sampler goes on with after(0). */
  datatype Scene = Scene(cfg: Config, rows: seq<Row>, pause: nat, tail: nat -> Pause, after: nat -> Sample) {
    function Block(): nat {
      cfg.maxRetries + 2
    }

    function Round(j: nat, i: nat): nat {
      j * Block() + i
    }

    /** The round in which window 256 is sent. */
    function Last(): nat {
      if rows == [] then 0 else Round(|rows| - 1, 0)
    }

    /** Nothing is dropped; the rows come one a block. */
    function World(): Env {
      Env((n: nat) => false, (n: nat) => false,
          (n: nat) =>
            if n > Last() then after(n - Last() - 1)
            else if n % Block() == 0 && n / Block() < |rows| then SampleRow(rows[n / Block()])
            else NoSampleYet)
    }

    function Plan(): nat -> Pause {
      (r: nat) => if r + 1 < Last() then Pause(0, pause) else tail(r + 1 - Last())
    }

    /** By the next round every frame has arrived, every entry has expired and the gate is open. */
    ghost predicate Slow() {
      pause > cfg.latencyMs && forall n: nat :: n <= 255 ==> cfg.ackTimeoutMs(n) <= pause && cfg.Spacing(n) <= pause
    }

    ghost predicate Valid() {
      && cfg.Valid() && cfg.window.Valid() && Slow()
      && |rows| == 256 * cfg.window.stride + cfg.window.W
      && (cfg.maxRetries == 0 || cfg.maxInflight >= 2)
      && (cfg.maxWindows.Some? ==> cfg.maxWindows.value > 256)
    }

    /** The frame of window 0. */
    function First(): bytes
      requires cfg.window.W <= |rows|
    {
      DataFrame(0, cfg.encode(Flatten(rows[..cfg.window.W])))
    }
  }

  lemma RoundNext(sc: Scene, j: nat, i: nat)
    ensures sc.Round(j, i + 1) == sc.Round(j, i) + 1
    ensures sc.Round(j, sc.Block()) == sc.Round(j + 1, 0)
  {
    assert (j + 1) * sc.Block() == j * sc.Block() + sc.Block();
  }

  lemma SampleOf(sc: Scene, j: nat, i: nat)
    requires j < |sc.rows| && i < sc.Block() && sc.Round(j, i) <= sc.Last()
    ensures sc.World().sample(sc.Round(j, i)) == if i == 0 then SampleRow(sc.rows[j]) else NoSampleYet
  {
    hide Scene.Last;
    Arith.DivUnique(sc.Round(j, i), sc.Block(), j, i);
  }

  lemma BeforeLast(sc: Scene, j: nat, i: nat)
    requires j + 1 < |sc.rows| && i < sc.Block()
    ensures sc.Round(j, i) < sc.Last()
  {
    Arith.MulMonotone(j + 1, |sc.rows| - 1, sc.Block());
    assert (j + 1) * sc.Block() == j * sc.Block() + sc.Block();
  }

  // ---------------------------------------------------------------------
  // The state at the start of a round
  // ---------------------------------------------------------------------

  /** Before round r: the first `seen` rows have been taken, nothing waits, the receiver has read nothing,
      and the frame of window 0 is the next one it will read. */
  ghost predicate Calm(sc: Scene, r: nat, seen: nat, s: Sys)
    requires sc.cfg.window.W <= |sc.rows| && seen <= |sc.rows|
  {
    && s.samplesTaken == r && !s.noMoreSamples && s.fed == sc.rows[..seen] && s.pending == []
    && s.link.toA == []
    && (forall i :: 0 <= i < |s.log| ==> !s.log[i].RxOk?)
    && (s.gate.lastTxMs.Some? ==> PaceDeadline(sc.cfg, s.gate) <= s.now)
    && (s.sent == 0 ==> s.link.toB == [])
    && (s.sent > 0 ==> s.link.toB != [] && s.link.toB[0].frame == sc.First() && s.link.toB[0].at < s.now)
  }

  ghost predicate Idle(s: Sys) {
    s.gate.inflight == map[] && s.gate.order == [] && s.payloads == map[]
  }

  /** Exactly the last window sent is in flight, after a attempts, and its timeout is over. */
  ghost predicate Flying(cfg: Config, a: nat, s: Sys) {
    s.sent >= 1
    && var k := SeqOf(s.sent - 1);
       && k in s.gate.inflight && s.gate.inflight == map[k := s.gate.inflight[k]] && s.gate.order == [k]
       && k in s.payloads && s.payloads == map[k := s.payloads[k]]
       && s.payloads[k].id == s.sent - 1 && |s.payloads[k].payload| <= cfg.maxPayload
       && s.gate.inflight[k].attempts == a && Expired(s.gate.inflight[k], s.now)
  }

  /** Before round i of block j. */
  ghost predicate InBlock(sc: Scene, j: nat, i: nat, s: Sys)
    requires sc.Valid() && j < |sc.rows|
  {
    && Calm(sc, sc.Round(j, i), if i == 0 then j else j + 1, s)
    && (if i == 0 || i == sc.Block() || !Emits(sc.cfg.window, j) then Idle(s) else Flying(sc.cfg, i, s))
  }

  // ---------------------------------------------------------------------
  // Facts about the windows
  // ---------------------------------------------------------------------

  /** All windows built so far have been sent; there are at most 256 before the last row. */
  lemma Built(sc: Scene, r: nat, seen: nat, s: Sys)
    requires sc.Valid() && seen <= |sc.rows| && Calm(sc, r, seen, s) && Reachable(sc.cfg, sc.World(), s)
    ensures s.sent == s.generated == Count(sc.cfg.window, seen)
    ensures seen < |sc.rows| ==> s.generated <= 256
    ensures s.seqNo == SeqOf(s.sent)
  {
    hide Reachable, Count, Scene.World, Scene.First, Scene.Round, SeqOf;
    AllSent(sc.cfg, sc.World(), s);
    RowsNeeded(sc.cfg.window, seen, 257);
  }

  lemma StillWants(sc: Scene, s: Sys)
    requires sc.Valid() && s.generated <= 256 && !s.noMoreSamples
    ensures WantsSample(sc.cfg, s)
  {
  }

  /** Row j completes a window or it does not. */
  lemma TakesRowOf(sc: Scene, j: nat, s: Sys)
    requires sc.Valid() && j < |sc.rows| && Calm(sc, sc.Round(j, 0), j, s) && Reachable(sc.cfg, sc.World(), s)
    ensures var w, q := sc.cfg.window, QueueWindow(sc.cfg, sc.World(), s);
            && q == s.(samplesTaken := s.samplesTaken + 1, builder := q.builder, fed := sc.rows[..j + 1],
                       dataset := q.dataset, pending := q.pending, generated := q.generated)
            && (!Emits(w, j) ==> q.pending == [])
            && (Emits(w, j) ==> q.pending == [PendingWindow(s.sent, sc.cfg.encode(Flatten(sc.rows[j + 1 - w.W..j + 1])),
                                                            s.now)])
  {
    hide Reachable, Count, OnStride, Flatten, Scene.World, Scene.Round, Scene.First, Scene.Last;
    Built(sc, sc.Round(j, 0), j, s);
    StillWants(sc, s);
    RoundBound(sc, j, 0);
    SampleOf(sc, j, 0);
    TakesRow(sc.cfg, sc.World(), s, sc.rows[j]);
    assert s.fed + [sc.rows[j]] == sc.rows[..j + 1];
    if j + 1 >= sc.cfg.window.W {
      assert sc.rows[..j + 1][j + 1 - sc.cfg.window.W..] == sc.rows[j + 1 - sc.cfg.window.W..j + 1];
    }
  }

  // ---------------------------------------------------------------------
  // One round
  // ---------------------------------------------------------------------

  /** The next frame is queued behind the frame of window 0. */
  lemma BehindFirst(q: seq<Delivery>, d: Delivery)
    requires q != [] && q[0].at < d.at
    ensures Insert(q, d) != [] && Insert(q, d)[0] == q[0]
  {
  }

  /** What a transmission leaves behind, seen from the next round. */
  lemma Transmitted(sc: Scene, q: Sys, w: PendingWindow, sn: byte)
    requires sc.Valid() && |w.payload| <= sc.cfg.maxPayload
    requires q.link.toB == [] ==> DataFrame(sn, w.payload) == sc.First()
    requires q.link.toB != [] ==> q.link.toB[0].frame == sc.First() && q.link.toB[0].at < q.now
    ensures var t := Transmit(sc.cfg, sc.World(), q, w, sn);
            && t.gate.lastTxMs.Some? && PaceDeadline(sc.cfg, t.gate) <= q.now + sc.pause
            && t.link.toB != [] && t.link.toB[0].frame == sc.First() && t.link.toB[0].at < q.now + sc.pause
            && (q.link.toB != [] ==> t.link.toB[0] == q.link.toB[0]) && t.link.toA == q.link.toA
            && t.gate.inflight[sn].lastTxMs == q.now && 0 < t.gate.inflight[sn].ackTimeoutMs <= sc.pause
  {
    hide DataFrame, Scene.First, Insert, Attempt, PaceDeadline;
    var n := 2 + |w.payload|;
    var t := Transmit(sc.cfg, sc.World(), q, w, sn);
    assert sc.cfg.ackTimeoutMs(n) <= sc.pause && sc.cfg.Spacing(n) <= sc.pause && sc.cfg.ackTimeoutMs(n) > 0;
    ArqSeqWrap.DeadlineAfter(sc.cfg, t.gate, n);
    var d := Delivery(q.now + sc.cfg.latencyMs, DataFrame(sn, w.payload));
    if q.link.toB != [] {
      BehindFirst(q.link.toB, d);
    } else {
      InsertAlone(d);
    }
  }

  lemma InsertAlone(d: Delivery)
    ensures Insert([], d) == [d]
  {
  }

  lemma GateIsOpen(sc: Scene, q: Sys)
    requires sc.Valid() && (q.gate.lastTxMs.Some? ==> PaceDeadline(sc.cfg, q.gate) <= q.now)
    requires |q.gate.inflight| < sc.cfg.maxInflight
    ensures CanSend(sc.cfg, q.gate, q.now)
  {
    hide PaceDeadline;
  }

  /** A row that completes no window. */
  lemma NoWindow(sc: Scene, j: nat, s: Sys)
    requires sc.Valid() && j < |sc.rows| && InBlock(sc, j, 0, s) && Reachable(sc.cfg, sc.World(), s)
    requires !Emits(sc.cfg.window, j)
    ensures var u := TxProcessOnce(sc.cfg, sc.World(), s);
            InBlock(sc, j, 1, Tick(u, sc.pause)) && u.sent == s.sent && u.gate == s.gate
  {
    hide Reachable, Count, OnStride, Flatten, Scene.World, Scene.Round, Scene.First, QueueWindow, RetryExpired;
    hide PaceDeadline, Emits;
    TakesRowOf(sc, j, s);
    var q := QueueWindow(sc.cfg, sc.World(), s);
    assert HandleIncoming(sc.cfg, q) == q;
    NothingDue(sc.cfg, sc.World(), q);
    RoundNext(sc, j, 0);
  }

  /** The window that row j completes is the first one only if no window was built before. */
  lemma FirstWindow(sc: Scene, j: nat)
    requires sc.Valid() && j < |sc.rows| && Emits(sc.cfg.window, j)
    ensures Count(sc.cfg.window, j) == 0 ==> j + 1 == sc.cfg.window.W
  {
    hide Count, OnStride;
    CountStep(sc.cfg.window, j + 1);
  }

  /** The window just launched, seen from the next round. */
  lemma Launched(sc: Scene, q: Sys, w: PendingWindow)
    requires sc.Valid() && Idle(q) && q.pending == [w] && w.id == q.sent && q.seqNo == SeqOf(q.sent)
    requires |w.payload| <= sc.cfg.maxPayload
    requires q.link.toB == [] ==> DataFrame(q.seqNo, w.payload) == sc.First()
    requires q.link.toB != [] ==> q.link.toB[0].frame == sc.First() && q.link.toB[0].at < q.now
    ensures var t := SendNext(sc.cfg, sc.World(), q);
            && Flying(sc.cfg, 1, Tick(t, sc.pause)) && t.now == q.now && t.sent == q.sent + 1
            && (q.link.toB != [] ==> t.link.toB != [] && t.link.toB[0] == q.link.toB[0])
  {
    hide SendFromA, DataFrame, Scene.First, PaceDeadline, SeqOf, Scene.World;
    Transmitted(sc, q, w, q.seqNo);
  }

  lemma LaunchIsCalm(sc: Scene, r: nat, seen: nat, q: Sys, w: PendingWindow)
    requires sc.Valid() && seen <= |sc.rows| && q.pending == [w] && |w.payload| <= sc.cfg.maxPayload
    requires q.samplesTaken == r && !q.noMoreSamples && q.fed == sc.rows[..seen] && q.link.toA == []
    requires forall i :: 0 <= i < |q.log| ==> !q.log[i].RxOk?
    requires q.link.toB == [] ==> DataFrame(q.seqNo, w.payload) == sc.First()
    requires q.link.toB != [] ==> q.link.toB[0].frame == sc.First() && q.link.toB[0].at < q.now
    ensures Calm(sc, r, seen, Tick(SendNext(sc.cfg, sc.World(), q), sc.pause))
  {
    hide SendFromA, DataFrame, Scene.First, PaceDeadline, RecordSend, Attempt, Scene.World;
    Transmitted(sc, q, w, q.seqNo);
  }

  /** With an idle table and a window waiting, a call of process_once sends the window. */
  lemma JustSends(sc: Scene, s: Sys, q: Sys)
    requires sc.Valid() && q == QueueWindow(sc.cfg, sc.World(), s) && Idle(q) && q.pending != [] && q.link.toA == []
    requires q.gate.lastTxMs.Some? ==> PaceDeadline(sc.cfg, q.gate) <= q.now
    ensures TxProcessOnce(sc.cfg, sc.World(), s) == SendNext(sc.cfg, sc.World(), q)
  {
    hide QueueWindow, RetryExpired, SendNext, CanSend, PaceDeadline, Scene.World;
    assert HandleIncoming(sc.cfg, q) == q;
    NothingDue(sc.cfg, sc.World(), q);
    GateIsOpen(sc, q);
  }

  /** A row that completes a window: the window is sent. */
  lemma Launch(sc: Scene, j: nat, s: Sys)
    requires sc.Valid() && j < |sc.rows| && InBlock(sc, j, 0, s) && Reachable(sc.cfg, sc.World(), s)
    requires Emits(sc.cfg.window, j)
    ensures var u := TxProcessOnce(sc.cfg, sc.World(), s);
            && InBlock(sc, j, 1, Tick(u, sc.pause)) && Flying(sc.cfg, 1, Tick(u, sc.pause))
            && u.sent == s.sent + 1 && u.now == s.now
            && (s.link.toB != [] ==> u.link.toB != [] && u.link.toB[0] == s.link.toB[0])
  {
    hide Reachable, Count, Flatten, Scene.World, Scene.Round, QueueWindow, RetryExpired, SendNext, SampleInv;
    hide PaceDeadline, Emits, CanSend, SeqOf, TxProcessOnce, Flying, OnStride;
    Built(sc, sc.Round(j, 0), j, s);
    TakesRowOf(sc, j, s);
    var q := QueueWindow(sc.cfg, sc.World(), s);
    JustSends(sc, s, q);
    RoundNext(sc, j, 0);
    if q.link.toB == [] {
      LaunchesFirst(sc, j);
    }
    Launched(sc, q, q.pending[0]);
    LaunchIsCalm(sc, sc.Round(j, 1), j + 1, q, q.pending[0]);
  }

  lemma LaunchesFirst(sc: Scene, j: nat)
    requires sc.Valid() && j < |sc.rows| && Emits(sc.cfg.window, j) && Count(sc.cfg.window, j) == 0
    ensures DataFrame(SeqOf(0), sc.cfg.encode(Flatten(sc.rows[j + 1 - sc.cfg.window.W..j + 1]))) == sc.First()
  {
    hide Count, DataFrame, Flatten, OnStride;
    FirstWindow(sc, j);
    assert sc.rows[0..sc.cfg.window.W] == sc.rows[..sc.cfg.window.W];
  }

  /** The sampler has nothing in the later rounds of a block. */
  lemma NoRow(sc: Scene, j: nat, i: nat, s: Sys)
    requires sc.Valid() && j + 1 < |sc.rows| && 1 <= i < sc.Block()
    requires Calm(sc, sc.Round(j, i), j + 1, s) && Reachable(sc.cfg, sc.World(), s)
    ensures QueueWindow(sc.cfg, sc.World(), s) == s.(samplesTaken := s.samplesTaken + 1)
  {
    hide Reachable, Count, Scene.World, Scene.Round, Scene.First, Scene.Last;
    Built(sc, sc.Round(j, i), j + 1, s);
    StillWants(sc, s);
    BeforeLast(sc, j, i);
    SampleOf(sc, j, i);
    TakesNothing(sc.cfg, sc.World(), s);
  }

  /** An entry with attempts left is resent. */
  lemma Resend(cfg: Config, env: Env, a: nat, q: Sys)
    requires Flying(cfg, a, q) && a <= cfg.maxRetries && CanSend(cfg, q.gate, q.now)
    requires var n := 2 + |q.payloads[SeqOf(q.sent - 1)].payload|; cfg.ackTimeoutMs(n) > 0
    ensures RetryExpired(cfg, env, q) == Retry(cfg, env, q, SeqOf(q.sent - 1))
  {
    hide SeqOf, CanSend, SendFromA, DataFrame, Attempt;
    var k := SeqOf(q.sent - 1);
    var t := Retry(cfg, env, q, k);
    assert [k][1..] == [];
    assert RetryDue(cfg, q.gate, q.now, k) && !FailureDue(cfg, t.gate, t.now, k);
    assert ExpiredSequences(cfg, q.gate, q.now, [k]) == [k] + ExpiredSequences(cfg, q.gate, q.now, []);
    assert RetryAll(cfg, env, q, [k]) == RetryAll(cfg, env, t, []) == t;
    assert ExpiredFailures(cfg, t.gate, t.now, [k]) == [] + ExpiredFailures(cfg, t.gate, t.now, []);
  }

  /** An entry without attempts left is given up. */
  lemma GiveUp(cfg: Config, env: Env, q: Sys)
    requires Flying(cfg, cfg.maxRetries + 1, q)
    ensures RetryExpired(cfg, env, q) == Fail(q, SeqOf(q.sent - 1)) && Idle(Fail(q, SeqOf(q.sent - 1)))
  {
    hide SeqOf, SendFromA, DataFrame;
    var k := SeqOf(q.sent - 1);
    assert [k][1..] == [];
    assert !RetryDue(cfg, q.gate, q.now, k) && FailureDue(cfg, q.gate, q.now, k);
    assert ExpiredSequences(cfg, q.gate, q.now, [k]) == [] + ExpiredSequences(cfg, q.gate, q.now, []);
    assert ExpiredFailures(cfg, q.gate, q.now, [k]) == [k] + ExpiredFailures(cfg, q.gate, q.now, []);
    assert FailAll(q, [k]) == FailAll(Fail(q, k), []) == Fail(q, k);
    assert Without([k], k) == [];
  }

  lemma RetriedState(sc: Scene, a: nat, q: Sys)
    requires sc.Valid() && Flying(sc.cfg, a, q) && q.link.toB != []
    requires q.link.toB[0].frame == sc.First() && q.link.toB[0].at < q.now
    ensures Flying(sc.cfg, a + 1, Tick(Retry(sc.cfg, sc.World(), q, SeqOf(q.sent - 1)), sc.pause))
  {
    hide SendFromA, DataFrame, Scene.First, PaceDeadline, SeqOf, Scene.World;
    Transmitted(sc, q, q.payloads[SeqOf(q.sent - 1)], SeqOf(q.sent - 1));
  }

  lemma RetriedIsCalm(sc: Scene, r: nat, seen: nat, q: Sys, k: byte)
    requires sc.Valid() && seen <= |sc.rows| && k in q.payloads && |q.payloads[k].payload| <= sc.cfg.maxPayload
    requires Calm(sc, r, seen, q) && q.sent > 0
    ensures Calm(sc, r, seen, Tick(Retry(sc.cfg, sc.World(), q, k), sc.pause))
  {
    hide SendFromA, DataFrame, Scene.First, PaceDeadline, RecordSend, Attempt, Scene.World;
    Transmitted(sc, q, q.payloads[k], k);
  }

  lemma SmallTable(cfg: Config, a: nat, q: Sys)
    requires Flying(cfg, a, q)
    ensures |q.gate.inflight| == 1
  {
    hide SeqOf, Expired;
    UpdateSize(map[], SeqOf(q.sent - 1), q.gate.inflight[SeqOf(q.sent - 1)]);
  }

  lemma RetryRound(sc: Scene, j: nat, i: nat, s: Sys)
    requires sc.Valid() && j + 1 < |sc.rows| && 1 <= i <= sc.cfg.maxRetries && Emits(sc.cfg.window, j)
    requires InBlock(sc, j, i, s) && Reachable(sc.cfg, sc.World(), s)
    ensures var u := TxProcessOnce(sc.cfg, sc.World(), s);
            InBlock(sc, j, i + 1, Tick(u, sc.pause)) && u.sent == s.sent
  {
    NoRow(sc, j, i, s);
    RoundNext(sc, j, i);
    hide Reachable, Count, Scene.World, Scene.Round, Scene.First, SampleInv, QueueWindow, Retry, RetryExpired, Emits;
    hide CanSend, SeqOf, PaceDeadline, Expired, OnStride;
    var q := QueueWindow(sc.cfg, sc.World(), s);
    assert HandleIncoming(sc.cfg, q) == q;
    SmallTable(sc.cfg, i, q);
    GateIsOpen(sc, q);
    var k := SeqOf(q.sent - 1);
    Resend(sc.cfg, sc.World(), i, q);
    RetriedState(sc, i, q);
    RetriedIsCalm(sc, sc.Round(j, i + 1), j + 1, q, k);
    assert Retry(sc.cfg, sc.World(), q, k).pending == [];
  }

  lemma FailedIsCalm(sc: Scene, r: nat, seen: nat, q: Sys, k: byte, ms: nat)
    requires sc.cfg.window.W <= |sc.rows| && seen <= |sc.rows| && k in q.gate.inflight && Calm(sc, r, seen, q)
    ensures Calm(sc, r, seen, Tick(Fail(q, k), ms))
  {
    hide Scene.First, PaceDeadline, Without;
    if q.gate.lastTxMs.Some? {
      ArqSeqWrap.SameDeadline(sc.cfg, q.gate, Fail(q, k).gate);
    }
  }

  lemma FailRound(sc: Scene, j: nat, s: Sys, ms: nat)
    requires sc.Valid() && j + 1 < |sc.rows| && Emits(sc.cfg.window, j)
    requires InBlock(sc, j, sc.cfg.maxRetries + 1, s) && Reachable(sc.cfg, sc.World(), s)
    ensures var u := TxProcessOnce(sc.cfg, sc.World(), s);
            InBlock(sc, j, sc.Block(), Tick(u, ms)) && u.sent == s.sent && u.now == s.now
  {
    NoRow(sc, j, sc.cfg.maxRetries + 1, s);
    RoundNext(sc, j, sc.cfg.maxRetries + 1);
    hide Reachable, Count, Scene.World, Scene.Round, Scene.First, SampleInv, QueueWindow, RetryExpired, Emits, Without;
    hide CanSend, SeqOf, PaceDeadline, Expired, OnStride;
    hide Fail, HandleIncoming;
    var q := QueueWindow(sc.cfg, sc.World(), s);
    assert Calm(sc, sc.Round(j, sc.Block()), j + 1, q);
    NothingArrives(sc.cfg, q);
    GiveUp(sc.cfg, sc.World(), q);
    var k := SeqOf(q.sent - 1);
    FailedIsCalm(sc, sc.Round(j, sc.Block()), j + 1, q, k, ms);
    FailKeeps(q, k);
  }

  lemma NothingArrives(cfg: Config, q: Sys)
    requires q.link.toA == []
    ensures HandleIncoming(cfg, q) == q
  {
  }

  lemma FailKeeps(q: Sys, k: byte)
    requires k in q.gate.inflight
    ensures var t := Fail(q, k); t.pending == q.pending && t.sent == q.sent && t.now == q.now
  {
    hide Without;
  }

  lemma IdleRound(sc: Scene, j: nat, i: nat, s: Sys, ms: nat)
    requires sc.Valid() && j + 1 < |sc.rows| && 1 <= i < sc.Block() && !Emits(sc.cfg.window, j)
    requires InBlock(sc, j, i, s) && Reachable(sc.cfg, sc.World(), s)
    ensures var u := TxProcessOnce(sc.cfg, sc.World(), s);
            InBlock(sc, j, i + 1, Tick(u, ms)) && u.sent == s.sent && u.now == s.now
  {
    NoRow(sc, j, i, s);
    RoundNext(sc, j, i);
    hide Reachable, Count, Scene.World, Scene.Round, Scene.First, SampleInv, QueueWindow, RetryExpired, Emits;
    hide CanSend, PaceDeadline, OnStride;
    var q := QueueWindow(sc.cfg, sc.World(), s);
    assert HandleIncoming(sc.cfg, q) == q;
    NothingDue(sc.cfg, sc.World(), q);
  }

  /** One round before the last block. */
  lemma OneRound(sc: Scene, j: nat, i: nat, s: Sys)
    requires sc.Valid() && j + 1 < |sc.rows| && i < sc.Block()
    requires InBlock(sc, j, i, s) && Reachable(sc.cfg, sc.World(), s)
    ensures InBlock(sc, j, i + 1, Tick(TxProcessOnce(sc.cfg, sc.World(), s), sc.pause))
  {
    hide InBlock, Reachable, Emits, TxProcessOnce;
    if i == 0 && Emits(sc.cfg.window, j) {
      Launch(sc, j, s);
    } else if i == 0 {
      NoWindow(sc, j, s);
    } else if i == sc.Block() - 1 {
      LastOfBlock(sc, j, s, sc.pause);
    } else if Emits(sc.cfg.window, j) {
      RetryRound(sc, j, i, s);
    } else {
      IdleRound(sc, j, i, s, sc.pause);
    }
  }

  /** The last round of a block changes neither link nor pacing, and any pause may follow it. */
  lemma LastOfBlock(sc: Scene, j: nat, s: Sys, ms: nat)
    requires sc.Valid() && j + 1 < |sc.rows|
    requires InBlock(sc, j, sc.Block() - 1, s) && Reachable(sc.cfg, sc.World(), s)
    ensures InBlock(sc, j, sc.Block(), Tick(TxProcessOnce(sc.cfg, sc.World(), s), ms))
  {
    hide InBlock, Reachable, Emits, TxProcessOnce;
    if Emits(sc.cfg.window, j) {
      FailRound(sc, j, s, ms);
    } else {
      IdleRound(sc, j, sc.Block() - 1, s, ms);
    }
  }

  lemma NotDone(sc: Scene, j: nat, i: nat, v: Sys)
    requires sc.Valid() && j + 1 < |sc.rows| && i <= sc.Block()
    requires InBlock(sc, j, i, v) && Reachable(sc.cfg, sc.World(), v)
    ensures !IsDone(sc.cfg, v)
  {
    hide Reachable, Count, Scene.World, Scene.Round, Scene.First, SampleInv, Emits, OnStride, SeqOf, Expired;
    Built(sc, sc.Round(j, i), if i == 0 then j else j + 1, v);
  }

  lemma NextState(sc: Scene, j: nat, i: nat, s: Sys) returns (v: Sys)
    requires sc.Valid() && j + 1 < |sc.rows| && i < sc.Block() && InBlock(sc, j, i, s)
    requires sc.Plan()(sc.Round(j, i)) == Pause(0, sc.pause)
    requires AtRound(sc.cfg, sc.World(), sc.Plan(), sc.Round(j, i), s)
    ensures InBlock(sc, j, i + 1, v) && AtRound(sc.cfg, sc.World(), sc.Plan(), sc.Round(j, i) + 1, v)
    ensures v == Tick(TxProcessOnce(sc.cfg, sc.World(), s), sc.pause)
  {
    hide InBlock, Reachable, TxProcessOnce, IsDone, Scene.World, Scene.Round, Scene.Last, Loop, Scene.Plan;
    var u := TxProcessOnce(sc.cfg, sc.World(), s);
    OneRound(sc, j, i, s);
    TxProcessOnceReachable(sc.cfg, sc.World(), s);
    StepReachable(sc.cfg, sc.World(), u, Ticking(sc.pause));
    NotDone(sc, j, i + 1, Tick(u, sc.pause));
    DoneTicks(sc.cfg, u, sc.pause);
    v := NextQuietRound(sc.cfg, sc.World(), sc.Plan(), sc.Round(j, i), s);
  }

  lemma Started(sc: Scene)
    requires sc.Valid()
    ensures InBlock(sc, 0, 0, Init(0))
  {
  }

  /** The run up to round i of block j, which comes before the round of window 256. */
  lemma {:induction false} Rounds(sc: Scene, j: nat, i: nat) returns (s: Sys)
    requires sc.Valid() && j + 1 < |sc.rows| && i < sc.Block()
    ensures InBlock(sc, j, i, s) && AtRound(sc.cfg, sc.World(), sc.Plan(), sc.Round(j, i), s)
    decreases j, i
  {
    hide InBlock, AtRound, Scene.Last, Scene.World;
    BeforeLast(sc, j, i);
    if i > 0 {
      RoundNext(sc, j, i - 1);
      var before := Rounds(sc, j, i - 1);
      s := OneMore(sc, j, i - 1, before);
    } else if j > 0 {
      RoundNext(sc, j - 1, sc.Block() - 1);
      var before := Rounds(sc, j - 1, sc.Block() - 1);
      s := OneMore(sc, j - 1, sc.Block() - 1, before);
      NextBlock(sc, j - 1, s);
    } else {
      s := Init(0);
      Started(sc);
      AtStart(sc.cfg, sc.World(), sc.Plan());
    }
  }

  lemma OneMore(sc: Scene, j: nat, i: nat, s: Sys) returns (v: Sys)
    requires sc.Valid() && j + 1 < |sc.rows| && i < sc.Block() && InBlock(sc, j, i, s)
    requires sc.Round(j, i) + 1 < sc.Last() || sc.tail(0) == Pause(0, sc.pause)
    requires AtRound(sc.cfg, sc.World(), sc.Plan(), sc.Round(j, i), s)
    ensures InBlock(sc, j, i + 1, v) && AtRound(sc.cfg, sc.World(), sc.Plan(), sc.Round(j, i) + 1, v)
  {
    hide InBlock, AtRound, Scene.World, Scene.Round, Scene.Last;
    BeforeLast(sc, j, i);
    v := NextState(sc, j, i, s);
  }

  lemma RoundBound(sc: Scene, j: nat, i: nat)
    requires if i == 0 then j < |sc.rows| else j + 1 < |sc.rows| && i <= sc.Block()
    ensures sc.Round(j, i) <= sc.Last()
  {
    if i == 0 {
      Arith.MulMonotone(j, |sc.rows| - 1, sc.Block());
    } else {
      Arith.MulMonotone(j + 1, |sc.rows| - 1, sc.Block());
      assert (j + 1) * sc.Block() == j * sc.Block() + sc.Block();
    }
  }

  lemma NextBlock(sc: Scene, j: nat, s: Sys)
    requires sc.Valid() && j + 1 < |sc.rows| && InBlock(sc, j, sc.Block(), s)
    ensures InBlock(sc, j + 1, 0, s)
  {
    RoundNext(sc, j, 0);
    hide Scene.Round, Scene.First, PaceDeadline, Emits;
  }

  // ---------------------------------------------------------------------
  // Window 256 and the answer to window 0
  // ---------------------------------------------------------------------

  /** The last row completes window 256. */
  lemma LastWindow(sc: Scene, s: Sys)
    requires sc.Valid() && InBlock(sc, |sc.rows| - 1, 0, s) && Reachable(sc.cfg, sc.World(), s)
    ensures Emits(sc.cfg.window, |sc.rows| - 1) && s.sent == 256
  {
    hide Reachable, Count, Scene.World, Scene.Round, Scene.First, SampleInv, PaceDeadline;
    var w, j := sc.cfg.window, |sc.rows| - 1;
    Built(sc, sc.Round(j, 0), j, s);
    RowsNeeded(w, j, 256);
    Arith.DivUnique(256 * w.stride, w.stride, 256, 0);
  }

  /** The receiver reads the frame of window 0 and answers it. */
  lemma Answered(sc: Scene, a: Sys)
    requires sc.Valid() && a.link.toA == [] && a.link.toB != []
    requires a.link.toB[0].frame == sc.First() && a.link.toB[0].at <= a.now
    ensures var b, p := RxMany(sc.cfg, sc.World(), a, 1), sc.cfg.encode(Flatten(sc.rows[..sc.cfg.window.W]));
            && b == a.(link := b.link, log := a.log + [RxOk(a.now, 0, p), AckSent(a.now, 0)], ackSeq := b.ackSeq,
                       rxOkCount := b.rxOkCount)
            && b.link.toA == [Delivery(a.now + sc.cfg.latencyMs, AckFrame(a.ackSeq, 0))]
  {
    hide ParseData, DataFrame, AckFrame, Insert, Flatten;
    FrameParses(sc.cfg, 0, sc.cfg.encode(Flatten(sc.rows[..sc.cfg.window.W])));
    InsertAlone(Delivery(a.now + sc.cfg.latencyMs, AckFrame(a.ackSeq, 0)));
    var b := RxProcessOnce(sc.cfg, sc.World(), a);
    assert RxMany(sc.cfg, sc.World(), b, 0) == b;
  }

  lemma ParsesAsAck(cfg: Config, ackSeq: byte)
    requires 1 <= cfg.maxPayload <= 255
    ensures ParseReply(cfg, AckFrame(ackSeq, 0)) == AckFor(0)
  {
    assert AckFrame(ackSeq, 0)[2..] == [0];
  }

  /** The transmitter takes the answer for window 256. */
  lemma Mistaken(cfg: Config, q: Sys, ackSeq: byte)
    requires 1 <= cfg.maxPayload <= 255 && Flying(cfg, 1, q) && q.sent == 257
    requires |q.link.toA| == 1 && q.link.toA[0].frame == AckFrame(ackSeq, 0) && q.link.toA[0].at <= q.now
    ensures 0 in q.gate.inflight && AckEvent(q, 0).AckReceived? && AckEvent(q, 0).window == Some(256)
    ensures var h := HandleIncoming(cfg, q);
            Idle(h) && h.log == q.log + [AckEvent(q, 0)] && h.pending == q.pending && h.dataset == q.dataset
  {
    hide ParseReply, AckFrame, Expired;
    ParsesAsAck(cfg, ackSeq);
    assert [0][1..] == [] && Without([0], 0) == [];
    var h := HandleFrame(cfg, q);
    assert HandleIncoming(cfg, h) == h;
  }

  lemma AfterAnswer(sc: Scene, c: Sys, ackSeq: byte)
    requires sc.Valid() && Flying(sc.cfg, 1, c) && c.sent == 257 && c.pending == []
    requires c.samplesTaken == sc.Round(|sc.rows| - 1, 1)
    requires |c.link.toA| == 1 && c.link.toA[0].frame == AckFrame(ackSeq, 0) && c.link.toA[0].at <= c.now
    requires sc.after(0) == NoSampleYet
    ensures var u := TxProcessOnce(sc.cfg, sc.World(), c);
            && u.dataset == c.dataset && |u.log| == |c.log| + 1 && u.log[..|c.log|] == c.log
            && ArqSoundness.AcksWindow(u.log, |c.log|, 256)
  {
    assert c.samplesTaken == sc.Last() + 1;
    TakesNothing(sc.cfg, sc.World(), c);
    hide Scene.World, Scene.Round, QueueWindow, AckFrame, AckEvent, Expired, HandleIncoming, RetryExpired, CanSend;
    hide SeqOf;
    var q := QueueWindow(sc.cfg, sc.World(), c);
    assert q == c.(samplesTaken := q.samplesTaken);
    Mistaken(sc.cfg, q, ackSeq);
    NothingDue(sc.cfg, sc.World(), HandleIncoming(sc.cfg, q));
  }

  /** In a log whose only reception is that of another payload, an acknowledgement is not sound. */
  lemma NotHeard(cfg: Config, t: Sys, before: seq<Event>, e: Event, f: Event)
    requires e.RxOk? && !f.RxOk? && forall i :: 0 <= i < |before| ==> !before[i].RxOk?
    requires |t.log| == |before| + 3 && t.log[..|before| + 2] == before + [e, f]
    requires ArqSoundness.AcksWindow(t.log, |before| + 2, 256)
    requires |t.dataset| > 256 && cfg.encode(t.dataset[256]) != e.payload
    ensures !AcksSound(cfg, t)
  {
    var n := |before| + 2;
    forall j | 0 <= j < n ensures t.log[j].RxOk? ==> t.log[j].payload != cfg.encode(t.dataset[256]) {
      assert t.log[j] == t.log[..n][j] == (before + [e, f])[j];
      if j < |before| {
        assert !before[j].RxOk?;
      }
    }
    assert !AckHeard(cfg, t, n, 256);
  }

  /** The record of window 256. */
  lemma LastRecord(sc: Scene, s: Sys)
    requires sc.Valid() && Reachable(sc.cfg, sc.World(), s) && s.fed == sc.rows
    ensures |s.dataset| > 256 && s.dataset[256] == Flatten(sc.rows[256 * sc.cfg.window.stride..])
  {
    hide Reachable, Count, DataInv, Scene.World, Emitted, After, Flatten, Scene.Slow;
    var w := sc.cfg.window;
    CoreParts(sc.cfg, sc.World(), s);
    WindowJoin(w, s.fed);
    RowsNeeded(w, |sc.rows|, 257);
    assert IsWindowAt(w, s.fed, 256 * w.stride, s.dataset[256]);
    assert sc.rows[256 * w.stride..256 * w.stride + w.W] == sc.rows[256 * w.stride..];
  }

  /** The receiver reads one frame while window 256 is in flight. */
  ghost predicate ReadsLate(sc: Scene) {
    && sc.tail(0) == Pause(0, sc.pause) && sc.tail(1) == Pause(1, sc.pause) && sc.tail(2) == Pause(0, sc.pause)
    && sc.after(0) == NoSampleYet
  }

  /** The state before the round of window 256. */
  lemma BeforeLastWindow(sc: Scene) returns (s: Sys)
    requires sc.Valid() && sc.tail(0) == Pause(0, sc.pause)
    ensures InBlock(sc, |sc.rows| - 1, 0, s) && AtRound(sc.cfg, sc.World(), sc.Plan(), sc.Last(), s)
  {
    hide InBlock, AtRound, Scene.World;
    var j := |sc.rows| - 2;
    var before := Rounds(sc, j, sc.Block() - 1);
    s := OneMore(sc, j, sc.Block() - 1, before);
    NextBlock(sc, j, s);
    RoundNext(sc, j, sc.Block() - 1);
  }

  lemma LastTwoRounds(sc: Scene, s: Sys, a: Sys, b: Sys, c: Sys, u: Sys)
    requires sc.Valid() && a == TxProcessOnce(sc.cfg, sc.World(), s) && b == RxMany(sc.cfg, sc.World(), a, 1)
    requires c == Tick(b, sc.pause) && u == TxProcessOnce(sc.cfg, sc.World(), c) && !IsDone(sc.cfg, b)
    requires sc.rows != [] && ReadsLate(sc)
    ensures var t := Loop(sc.cfg, sc.World(), s, sc.Plan(), sc.Last(), 2); t.log == u.log && t.dataset == u.dataset
  {
    hide TxProcessOnce, IsDone, Scene.World, Scene.Last;
    assert RxMany(sc.cfg, sc.World(), u, 0) == u;
    var t := Loop(sc.cfg, sc.World(), c, sc.Plan(), sc.Last() + 1, 1);
    assert t.log == u.log && t.dataset == u.dataset;
  }

  /** In this run window 256 is reported acknowledged, although all the receiver has received is window 0. */
  lemma UnsoundRun(sc: Scene, dims: nat)
    requires sc.Valid() && ReadsLate(sc) && ToldApart(sc.cfg, dims, sc.rows)
    ensures !AcksSound(sc.cfg, Loop(sc.cfg, sc.World(), Init(0), sc.Plan(), 0, sc.Last() + 2))
  {
    hide Reachable, TxProcessOnce, Loop, Scene.World, Scene.Last, Scene.Round, Scene.First, RxMany, AckFrame, SeqOf;
    hide Emits, Expired, PaceDeadline, Flatten, IsDone;
    var last := |sc.rows| - 1;
    var s := BeforeLastWindow(sc);
    LastWindow(sc, s);
    Launch(sc, last, s);
    var a := TxProcessOnce(sc.cfg, sc.World(), s);
    var b := RxMany(sc.cfg, sc.World(), a, 1);
    Answered(sc, a);
    var c := Tick(b, sc.pause);
    FlyingIsNotDone(sc, b);
    LastRoundIs(sc);
    AfterAnswer(sc, c, a.ackSeq);
    var u := TxProcessOnce(sc.cfg, sc.World(), c);
    LastTwoRounds(sc, s, a, b, c, u);
    TxProcessOnceReachable(sc.cfg, sc.World(), s);
    LastRecord(sc, a);
    var p := sc.cfg.encode(Flatten(sc.rows[..sc.cfg.window.W]));
    NotHeard(sc.cfg, Loop(sc.cfg, sc.World(), s, sc.Plan(), sc.Last(), 2), a.log, RxOk(a.now, 0, p), AckSent(a.now, 0));
  }

  lemma LastRoundIs(sc: Scene)
    requires sc.rows != []
    ensures sc.Last() == sc.Round(|sc.rows| - 1, 0)
  {
  }

  lemma FlyingIsNotDone(sc: Scene, b: Sys)
    requires Flying(sc.cfg, 1, Tick(b, sc.pause))
    ensures !IsDone(sc.cfg, b)
  {
  }

  // ---------------------------------------------------------------------
  // The exact condition
  // ---------------------------------------------------------------------

  /** No acknowledgement in any run of the transmit loop is unsound: for any sampler with rows of this
      length, any loss, any receiver schedule. */
  ghost predicate RunsSound(cfg: Config, dims: nat)
    requires cfg.window.Valid()
  {
    forall env: Env, start: nat, plan: nat -> Pause, n: nat :: RowsFit(env, dims) ==>
      AcksSound(cfg, Loop(cfg, env, Init(start), plan, 0, n))
  }

  lemma {:induction false} Bound(f: nat -> int, n: nat) returns (b: nat)
    ensures forall i: nat :: i <= n ==> f(i) <= b
    decreases n
  {
    b := Max(0, f(n));
    if n > 0 {
      var rest := Bound(f, n - 1);
      b := Max(rest, b);
    }
  }

  lemma LongPause(cfg: Config) returns (pause: nat)
    ensures pause > cfg.latencyMs
    ensures forall n: nat :: n <= 255 ==> cfg.ackTimeoutMs(n) <= pause && cfg.Spacing(n) <= pause
  {
    var a := Bound(cfg.ackTimeoutMs, 255);
    var spacing := (n: nat) => cfg.Spacing(n);
    var b := Bound(spacing, 255);
    forall n: nat | n <= 255 ensures cfg.Spacing(n) <= b {
      assert spacing(n) <= b;
    }
    pause := cfg.latencyMs + 1 + a + b;
  }

  lemma WorldFits(sc: Scene, dims: nat)
    requires Fit(sc.rows, dims) && forall i: nat :: sc.after(i).SampleRow? ==> |sc.after(i).row| == dims
    ensures RowsFit(sc.World(), dims)
  {
  }

  /** Outside the three conditions there is a run over a link that drops nothing, beside a receiver that is
      slow, in which a window is acknowledged that the receiver has not received. */
  lemma UnsoundUnlessSafe(cfg: Config, dims: nat) returns (env: Env, plan: nat -> Pause, n: nat)
    requires cfg.Valid() && !AckSafe(cfg, dims)
    ensures RowsFit(env, dims) && forall i: nat :: !env.dropAb(i) && !env.dropBa(i)
    ensures !AcksSound(cfg, Loop(cfg, env, Init(0), plan, 0, n))
  {
    hide ToldApart, Loop, AcksSound, RowsFit;
    var rows :| ToldApart(cfg, dims, rows);
    var pause := LongPause(cfg);
    var sc := Scene(cfg, rows, pause, (r: nat) => Pause(if r == 1 then 1 else 0, pause), (i: nat) => NoSampleYet);
    RowsCount(cfg, dims, rows);
    WorldFits(sc, dims);
    UnsoundRun(sc, dims);
    env, plan, n := sc.World(), sc.Plan(), sc.Last() + 2;
  }

  lemma RowsCount(cfg: Config, dims: nat, rows: seq<Row>)
    requires cfg.window.Valid() && ToldApart(cfg, dims, rows)
    ensures |rows| == 256 * cfg.window.stride + cfg.window.W && Fit(rows, dims)
  {
  }

  /** Acknowledgements are sound in all runs if and only if at most 256 windows are sent, or the table holds
      one entry and retries are allowed (so that nothing is given up), or the encoding cannot tell windows
      0 and 256 of any sample stream apart. */
  lemma AckSoundIff(cfg: Config, dims: nat)
    requires cfg.Valid()
    ensures RunsSound(cfg, dims)
            <==> || (cfg.maxWindows.Some? && cfg.maxWindows.value <= 256)
                 || (cfg.maxInflight == 1 && cfg.maxRetries >= 1)
                 || forall rows: seq<Row> :: !ToldApart(cfg, dims, rows)
  {
    hide ToldApart, Loop, AcksSound, RowsFit, Reachable, Init;
    if AckSafe(cfg, dims) {
      forall env: Env, start: nat, plan: nat -> Pause, n: nat | RowsFit(env, dims)
        ensures AcksSound(cfg, Loop(cfg, env, Init(start), plan, 0, n))
      {
        InitReachable(cfg, env, start);
        LoopReachable(cfg, env, Init(start), plan, 0, n);
        AckSoundWhenSafe(cfg, env, dims, Loop(cfg, env, Init(start), plan, 0, n));
      }
    } else {
      var env, plan, n := UnsoundUnlessSafe(cfg, dims);
      assert !RunsSound(cfg, dims);
    }
  }
}
