/** A run in which the answer to window 0 arrives while window 256 is on the air: without retries, and with a
    table of one, it makes room for window 257 before the transmission of window 256 ends. */
module ArqLatePair {
  import opened Basics
  import opened Windows
  import opened ArqModel
  import opened ArqRuns
  import opened ArqInvariants
  import opened ArqSampling
  import opened ArqPacing
  import opened ArqRounds
  import opened ArqBackToBack
  import opened ArqFirstPair
  import opened ArqStaleAck

  /** Rows for 256 windows, and then the given ones. */
  function Padded(w: WindowSpec, rows: seq<Row>): seq<Row>
    requires rows != [] && w.Valid()
  {
    seq(256 * w.stride, (i: nat) => rows[0]) + rows
  }

  /** The receiver reads the frame of window 0 so that its answer comes a millisecond after window 256 is sent. */
  function Tail(latencyMs: nat, slot: int): nat -> Pause {
    (i: nat) =>
      if i == 0 then Pause(1, latencyMs - 1)
      else if i == 1 then Pause(0, 1)
      else if i == 2 then Pause(0, slot - 1)
      else Pause(0, 0)
  }

  function After(rows: seq<Row>): nat -> Sample
    requires rows != []
  {
    (i: nat) => if i == 0 then NoSampleYet else SampleRow(rows[0])
  }

  ghost predicate IsScene(sc: Scene, dims: nat, rows: seq<Row>) {
    && sc.Valid() && sc.cfg.guardMs == 0 && Fractional(sc.cfg, dims, rows) && sc.cfg.maxRetries == 0
    && Allows(sc.cfg, 258) && sc.cfg.latencyMs >= 1 && Slot(sc.cfg, Length(sc.cfg, rows)) >= 1
    && sc.rows == Padded(sc.cfg.window, rows)
    && sc.tail == Tail(sc.cfg.latencyMs, Slot(sc.cfg, Length(sc.cfg, rows))) && sc.after == After(rows)
  }

  lemma SceneParts(sc: Scene, dims: nat, rows: seq<Row>)
    requires IsScene(sc, dims, rows)
    ensures sc.Valid() && sc.cfg.Valid() && sc.cfg.window.Valid() && sc.cfg.guardMs == 0 && sc.Block() == 2
    ensures |rows| == sc.cfg.window.W && |sc.rows| == 256 * sc.cfg.window.stride + sc.cfg.window.W >= 257
    ensures sc.rows[|sc.rows| - |rows|..] == rows && Allows(sc.cfg, 258) && sc.cfg.latencyMs >= 1
    ensures sc.Last() == sc.Round(|sc.rows| - 1, 0) == sc.Round(|sc.rows| - 2, 1) + 1
  {
    hide Scene.Slow, Flatten;
  }

  lemma PlanAt(sc: Scene, dims: nat, rows: seq<Row>, r: nat)
    requires IsScene(sc, dims, rows) && r + 1 >= sc.Last()
    ensures sc.Plan()(r) == Tail(sc.cfg.latencyMs, Slot(sc.cfg, Length(sc.cfg, rows)))(r + 1 - sc.Last())
  {
    hide Scene.Slow, Scene.Last, Fractional, Flatten;
  }

  lemma SampleAfter(sc: Scene, dims: nat, rows: seq<Row>, r: nat)
    requires IsScene(sc, dims, rows) && r > sc.Last()
    ensures sc.World().sample(r) == if r == sc.Last() + 1 then NoSampleYet else SampleRow(rows[0])
  {
    hide Scene.Slow, Scene.Last, Flatten;
  }

  lemma MoreToCome(cfg: Config, s: Sys)
    requires Allows(cfg, 258) && !s.noMoreSamples && s.generated <= 257
    ensures WantsSample(cfg, s) && (s.sent <= s.generated ==> !IsDone(cfg, s))
  {
  }

  /** In the round before that of window 256 the receiver reads. */
  lemma ReceiverReads(sc: Scene, dims: nat, rows: seq<Row>) returns (v: Sys, ackSeq: byte)
    requires IsScene(sc, dims, rows)
    ensures AtRound(sc.cfg, sc.World(), sc.Plan(), sc.Last(), v)
    ensures Idle(v) && v.pending == [] && v.samplesTaken == sc.Last() && !v.noMoreSamples && v.sent == 256
    ensures v.fed == sc.rows[..|sc.rows| - 1] && Emits(sc.cfg.window, |sc.rows| - 1)
    ensures v.gate.lastTxMs.Some? ==> PaceDeadline(sc.cfg, v.gate) <= v.now
    ensures v.link.toA == [Delivery(v.now + 1, AckFrame(ackSeq, 0))]
  {
    hide InBlock, AtRound, Reachable, TxProcessOnce, IsDone, Scene.World, Scene.Round, Scene.Last, RxMany, AckFrame;
    hide Scene.First, Flatten, PaceDeadline, Emits, Scene.Plan, Scene.Valid, IsScene, Tick;
    SceneParts(sc, dims, rows);
    var j, env := |sc.rows| - 2, sc.World();
    var s := Rounds(sc, j, 1);
    AtIsReachable(sc.cfg, env, sc.Plan(), sc.Round(j, 1), s);
    var u := TxProcessOnce(sc.cfg, env, s);
    TxProcessOnceReachable(sc.cfg, env, s);
    LastOfBlock(sc, j, s, 0);
    TickZero(u);
    NextBlock(sc, j, u);
    LastWindow(sc, u);
    AtLast(sc, u);
    AllSent(sc.cfg, env, u);
    Answered(sc, u);
    ackSeq := u.ackSeq;
    MoreToCome(sc.cfg, RxMany(sc.cfg, env, u, 1));
    PlanAt(sc, dims, rows, sc.Round(j, 1));
    v := NextRound(sc.cfg, env, sc.Plan(), sc.Round(j, 1), s);
    TickSome(sc, dims, rows, RxMany(sc.cfg, env, u, 1));
  }

  lemma TickZero(s: Sys)
    ensures Tick(s, 0) == s
  {
  }

  lemma TickSome(sc: Scene, dims: nat, rows: seq<Row>, s: Sys)
    requires IsScene(sc, dims, rows)
    ensures Tick(s, sc.cfg.latencyMs - 1) == s.(now := s.now + sc.cfg.latencyMs - 1)
  {
    hide Scene.Slow, Fractional, Flatten;
  }

  /** What is known before the round of window 256. */
  lemma AtLast(sc: Scene, u: Sys)
    requires sc.Valid() && InBlock(sc, |sc.rows| - 1, 0, u) && u.sent == 256
    ensures Idle(u) && u.pending == [] && u.samplesTaken == sc.Last() && !u.noMoreSamples && u.link.toA == []
    ensures u.fed == sc.rows[..|sc.rows| - 1]
    ensures u.gate.lastTxMs.Some? ==> PaceDeadline(sc.cfg, u.gate) <= u.now
    ensures u.link.toB != [] && u.link.toB[0].frame == sc.First() && u.link.toB[0].at <= u.now
  {
    hide Scene.First, PaceDeadline, Scene.Slow, Emits;
  }

  /** What is known once window 256 is on the air. */
  ghost predicate Late(cfg: Config, n: nat, x: Event, s: Sys) {
    && x.TxSent? && x.toaMs == cfg.toaMs(n) && LastIs(s.log, x)
    && s.gate.lastTxMs == Some(x.ts) && s.gate.lastToaMs == cfg.toaMs(n)
    && s.pending == [] && !s.noMoreSamples && s.generated == 257
  }

  lemma LateSame(cfg: Config, n: nat, x: Event, s: Sys, t: Sys)
    requires Late(cfg, n, x, s) && Sends(t.log) == Sends(s.log)
    requires t.gate.lastTxMs == s.gate.lastTxMs && t.gate.lastToaMs == s.gate.lastToaMs
    requires t.pending == s.pending && t.noMoreSamples == s.noMoreSamples && t.generated == s.generated
    ensures Late(cfg, n, x, t)
  {
    hide Sends;
  }

  lemma Launches256(cfg: Config, env: Env, n: nat, q: Sys) returns (x: Event)
    requires Idle(q) && |q.pending| == 1 && 2 + |q.pending[0].payload| == n && q.seqNo == 0
    requires !q.noMoreSamples && q.generated == 257
    ensures var t := SendNext(cfg, env, q);
            && Late(cfg, n, x, t) && x.ts == q.now == t.now && t.gate.inflight.Keys == {0} && !IsDone(cfg, t)
            && t.samplesTaken == q.samplesTaken && t.link.toA == q.link.toA
  {
    hide Sends, DataFrame;
    var t := SendNext(cfg, env, q);
    x := t.log[|q.log|];
    SendsSnoc(q.log, x);
    assert t.log == q.log + [x];
    assert 0 in t.gate.inflight && t.gate.inflight.Keys == {0};
  }

  /** Window 256 is sent. */
  lemma WindowSent(sc: Scene, dims: nat, rows: seq<Row>, s: Sys, ackSeq: byte) returns (v: Sys, x: Event)
    requires IsScene(sc, dims, rows) && AtRound(sc.cfg, sc.World(), sc.Plan(), sc.Last(), s)
    requires Idle(s) && s.pending == [] && s.samplesTaken == sc.Last() && !s.noMoreSamples && s.sent == 256
    requires s.fed == sc.rows[..|sc.rows| - 1] && Emits(sc.cfg.window, |sc.rows| - 1)
    requires s.gate.lastTxMs.Some? ==> PaceDeadline(sc.cfg, s.gate) <= s.now
    requires s.link.toA == [Delivery(s.now + 1, AckFrame(ackSeq, 0))]
    ensures AtRound(sc.cfg, sc.World(), sc.Plan(), sc.Last() + 1, v)
    ensures Late(sc.cfg, Length(sc.cfg, rows), x, v) && v.gate.inflight.Keys == {0} && v.now == x.ts + 1
    ensures v.samplesTaken == sc.Last() + 1 && v.link.toA == [Delivery(v.now, AckFrame(ackSeq, 0))]
  {
    hide AtRound, Reachable, TxProcessOnce, IsDone, Scene.World, Scene.Round, Scene.Last, AckFrame, Late, QueueWindow;
    hide Flatten, PaceDeadline, Emits, Scene.Plan, Scene.Valid, IsScene, SendNext, Expired, WantsSample;
    SceneParts(sc, dims, rows);
    var env, j := sc.World(), |sc.rows| - 1;
    AtIsReachable(sc.cfg, env, sc.Plan(), sc.Last(), s);
    AllSent(sc.cfg, env, s);
    MoreToCome(sc.cfg, s);
    SampleOf(sc, j, 0);
    TakesRow(sc.cfg, env, s, sc.rows[j]);
    assert s.fed + [sc.rows[j]] == sc.rows;
    var q := QueueWindow(sc.cfg, env, s);
    StepReachable(sc.cfg, env, s, Sampling);
    OneMoreBuilt(sc.cfg, env, q);
    OnlySends(sc.cfg, env, s);
    GateIsOpen(sc, q);
    x := Launches256(sc.cfg, env, Length(sc.cfg, rows), q);
    PlanAt(sc, dims, rows, sc.Last());
    var t := SendNext(sc.cfg, env, q);
    v := NextQuietRound(sc.cfg, env, sc.Plan(), sc.Last(), s);
    LateSame(sc.cfg, Length(sc.cfg, rows), x, t, v);
  }

  lemma OneMoreBuilt(cfg: Config, env: Env, q: Sys)
    requires cfg.Valid() && Reachable(cfg, env, q) && |q.pending| == 1
    ensures q.generated == q.sent + 1
  {
    hide Reachable, SampleInv, HeldInv, SentInv;
    CoreParts(cfg, env, q);
  }

  /** The answer to window 0 is taken for window 256. */
  lemma AnswerTaken(sc: Scene, dims: nat, rows: seq<Row>, s: Sys, x: Event, ackSeq: byte) returns (v: Sys)
    requires IsScene(sc, dims, rows) && AtRound(sc.cfg, sc.World(), sc.Plan(), sc.Last() + 1, s)
    requires Late(sc.cfg, Length(sc.cfg, rows), x, s) && s.gate.inflight.Keys == {0} && s.now == x.ts + 1
    requires s.samplesTaken == sc.Last() + 1 && s.link.toA == [Delivery(s.now, AckFrame(ackSeq, 0))]
    ensures AtRound(sc.cfg, sc.World(), sc.Plan(), sc.Last() + 2, v) && Open(sc.cfg, v, x)
    ensures v.link.toA == [] && v.pending == [] && v.samplesTaken == sc.Last() + 2 && WantsSample(sc.cfg, v)
  {
    hide AtRound, Reachable, TxProcessOnce, Scene.World, Scene.Round, Scene.Last, AckFrame, QueueWindow, Open;
    hide Flatten, PaceDeadline, Emits, Scene.Plan, Scene.Valid, HandleIncoming, RetryExpired, Expired, WantsSample;
    hide Fractional, Sends, IsDone;
    var cfg, env, n := sc.cfg, sc.World(), Length(sc.cfg, rows);
    SceneParts(sc, dims, rows);
    AtIsReachable(cfg, env, sc.Plan(), sc.Last() + 1, s);
    MoreToCome(cfg, s);
    SampleAfter(sc, dims, rows, sc.Last() + 1);
    TakesNothing(cfg, env, s);
    var q := QueueWindow(cfg, env, s);
    TakesAnswer(cfg, q, 0, ackSeq);
    var h := HandleIncoming(cfg, q);
    NothingDue(cfg, env, h);
    SilentCall(cfg, env, s);
    TxProcessOnceReachable(cfg, env, s);
    SentAtMost(cfg, env, h);
    MoreToCome(cfg, h);
    PlanAt(sc, dims, rows, sc.Last() + 1);
    v := NextQuietRound(cfg, env, sc.Plan(), sc.Last() + 1, s);
    LateSame(cfg, n, x, s, v);
    SlotOpens(cfg, dims, rows, n, x, v);
    MoreToCome(cfg, v);
  }

  lemma FeedsOn(sc: Scene, dims: nat, rows: seq<Row>)
    requires IsScene(sc, dims, rows)
    ensures Feeds(sc.World(), sc.Plan(), sc.Last() + 2, sc.Last() + 2)
  {
    hide Scene.World, Scene.Plan, Scene.Last, IsScene;
    forall i: nat | i >= sc.Last() + 2
      ensures sc.Plan()(i) == Pause(0, 0) && sc.World().sample(i).SampleRow?
    {
      PlanAt(sc, dims, rows, i);
      SampleAfter(sc, dims, rows, i);
    }
  }

  /** The run, from the start to the overlap. */
  lemma LateOverlap(sc: Scene, dims: nat, rows: seq<Row>) returns (m: nat)
    requires IsScene(sc, dims, rows)
    ensures HasOverlap(Loop(sc.cfg, sc.World(), Init(0), sc.Plan(), 0, m).log)
  {
    hide AtRound, Scene.World, Scene.Plan, Scene.Last, Scene.Valid, IsScene, Late, Open, HasOverlap, Loop, Init;
    hide WantsSample, AckFrame, PaceDeadline, Emits, ExpiredSequences;
    SceneParts(sc, dims, rows);
    var s, ackSeq := ReceiverReads(sc, dims, rows);
    var t, x := WindowSent(sc, dims, rows, s, ackSeq);
    var v := AnswerTaken(sc, dims, rows, t, x, ackSeq);
    FeedsOn(sc, dims, rows);
    m := NextOverlaps(sc.cfg, sc.World(), sc.Plan(), sc.Last() + 2, v, x);
  }

  lemma PaddedFits(w: WindowSpec, dims: nat, rows: seq<Row>)
    requires rows != [] && w.Valid() && Fit(rows, dims)
    ensures Fit(Padded(w, rows), dims)
  {
  }

  lemma LatePair(cfg: Config, dims: nat, rows: seq<Row>) returns (env: Env, plan: nat -> Pause, m: nat)
    requires cfg.Valid() && cfg.guardMs == 0 && Fractional(cfg, dims, rows) && cfg.maxRetries == 0
    requires Allows(cfg, 258) && cfg.latencyMs >= 1 && Slot(cfg, Length(cfg, rows)) >= 1
    ensures RowsFit(env, dims) && HasOverlap(Loop(cfg, env, Init(0), plan, 0, m).log)
  {
    hide Flatten, Loop, HasOverlap, Init, RowsFit;
    var pause := LongPause(cfg);
    var tail := Tail(cfg.latencyMs, Slot(cfg, Length(cfg, rows)));
    var sc := Scene(cfg, Padded(cfg.window, rows), pause, tail, After(rows));
    PaddedFits(cfg.window, dims, rows);
    WorldFits(sc, dims);
    m := LateOverlap(sc, dims, rows);
    env, plan := sc.World(), sc.Plan();
  }
}
