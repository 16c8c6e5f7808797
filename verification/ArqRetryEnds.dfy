/** Exactly when retries let every run end. If windows can outlive the filling of the table, a run over a dead
    link fills the table with windows that may still be retried and never are. */
module ArqRetryEnds {
  import opened Basics
  import opened Windows
  import opened ArqModel
  import opened ArqRuns
  import opened ArqInvariants
  import opened ArqSampling
  import opened ArqSeqWrap
  import opened ArqRounds
  import opened ArqRoom
  import opened ArqStuck
  import opened ArqLiveness
  import Arith

  /** The windows of the run, and the rows for them. */
  function Total(cfg: Config): nat {
    if cfg.maxWindows.Some? then cfg.maxWindows.value else cfg.maxInflight
  }

  function RowCount(cfg: Config): int {
    RowsOf(cfg.window, Total(cfg))
  }

  /** Rows for all windows, at least as many as the table has places. */
  ghost predicate Stream(cfg: Config, rows: seq<Row>) {
    cfg.Valid() && |rows| == RowCount(cfg) && |Records(cfg, rows)| == Total(cfg) >= cfg.maxInflight
  }

  /** With retries, the last entry is sent before the first one expires. */
  ghost predicate Slow(cfg: Config, rows: seq<Row>) {
    && Stream(cfg, rows) && cfg.maxRetries >= 1 && cfg.maxInflight <= 256
    && (forall c :: 0 <= c < cfg.maxInflight ==> cfg.Spacing(LengthOf(cfg, rows, c)) >= 1)
    && Lingers(cfg, Records(cfg, rows)[..cfg.maxInflight - 1])
  }

  /** Everything is dropped; the sampler ends after these rows. */
  function DeadLink(rows: seq<Row>): Env {
    Env((i: nat) => true, (i: nat) => true, (i: nat) => if i < |rows| then SampleRow(rows[i]) else SamplesExhausted)
  }

  /** All rows are taken at once; then every pause lasts until the gate opens. */
  function Schedule(cfg: Config, rows: seq<Row>): nat -> Pause
    requires Stream(cfg, rows)
  {
    (r: nat) =>
      if r < |rows| then Pause(0, 0)
      else if r - |rows| < cfg.maxInflight then Pause(0, cfg.Spacing(LengthOf(cfg, rows, r - |rows|)))
      else Pause(0, 1)
  }

  // ---------------------------------------------------------------------
  // The table while it fills
  // ---------------------------------------------------------------------

  /** Entry i is that of window i, sent as soon as the gate opened, on its first attempt. */
  ghost predicate SentAt(cfg: Config, rows: seq<Row>, i: nat, e: Inflight)
    requires Stream(cfg, rows) && i < cfg.maxInflight
  {
    && e.lastTxMs == Start(cfg, rows, i) && e.attempts == 1
    && e.ackTimeoutMs == cfg.ackTimeoutMs(LengthOf(cfg, rows, i))
  }

  /** The first j windows are in flight. */
  ghost predicate Filled(cfg: Config, rows: seq<Row>, j: nat, s: Sys)
    requires Stream(cfg, rows) && j <= cfg.maxInflight
  {
    && s.sent == j && s.link.toA == [] && s.link.toB == []
    && (forall i: byte :: i in s.gate.inflight <==> i < j)
    && (forall i <- s.gate.inflight :: SentAt(cfg, rows, i, s.gate.inflight[i]))
    && |s.gate.inflight| == j
    && (if j == 0 then s.gate.lastTxMs == None
        else
          && s.gate.lastTxMs == Some(Start(cfg, rows, j - 1))
          && s.gate.lastToaMs == cfg.toaMs(LengthOf(cfg, rows, j - 1)))
  }

  lemma SlowParts(cfg: Config, rows: seq<Row>)
    requires Slow(cfg, rows)
    ensures Stream(cfg, rows) && cfg.Valid() && cfg.window.Valid() && Total(cfg) >= cfg.maxInflight >= 1
    ensures |rows| == RowCount(cfg) && |Records(cfg, rows)| == Total(cfg) && cfg.maxInflight <= 256
    ensures Start(cfg, rows, 0) == 0
  {
    hide Records, Lingers, LengthOf;
    StartIs(cfg, rows);
  }

  lemma NextStart(cfg: Config, rows: seq<Row>, c: nat)
    requires Slow(cfg, rows) && c < cfg.maxInflight
    ensures Stream(cfg, rows) && cfg.Spacing(LengthOf(cfg, rows, c)) >= 1
    ensures Start(cfg, rows, c + 1) == Start(cfg, rows, c) + cfg.Spacing(LengthOf(cfg, rows, c))
    ensures Start(cfg, rows, c) >= 0
  {
    hide Records, FrameLength, Config.Spacing, Busy, Lingers;
    BusyNext(cfg, Records(cfg, rows), 0, c + 1);
    BusyGrows(cfg, Records(cfg, rows), 0, 0, c);
    BusyNext(cfg, Records(cfg, rows), 0, 1);
  }

  /** A window is still waited for when the last one is sent. */
  lemma Outlives(cfg: Config, rows: seq<Row>, i: nat)
    requires Slow(cfg, rows) && i < cfg.maxInflight
    ensures Stream(cfg, rows)
    ensures Start(cfg, rows, cfg.maxInflight - 1) - Start(cfg, rows, i) < cfg.ackTimeoutMs(LengthOf(cfg, rows, i))
  {
    hide Records, FrameLength, Config.Spacing, Busy;
    var records, m := Records(cfg, rows), cfg.maxInflight - 1;
    if i < m {
      BusySplit(cfg, records, 0, i, m);
      BusySame(cfg, records, records[..m], 0, i, m);
      assert records[..m][i] == records[i];
    } else {
      assert cfg.ackTimeoutMs(LengthOf(cfg, rows, i)) > 0 by { TimeoutPositive(cfg, records[i]); }
    }
  }

  lemma TimeoutPositive(cfg: Config, record: seq<real>)
    requires cfg.Valid()
    ensures cfg.ackTimeoutMs(FrameLength(cfg, record)) > 0
  {
    assert |cfg.encode(record)| <= cfg.maxPayload;
  }

  lemma {:induction false} BusySplit(cfg: Config, records: seq<seq<real>>, a: nat, b: nat, c: nat)
    requires a <= b <= c <= |records|
    ensures Busy(cfg, records, a, c) == Busy(cfg, records, a, b) + Busy(cfg, records, b, c)
    decreases c
  {
    hide FrameLength, Config.Spacing;
    if b < c {
      BusySplit(cfg, records, a, b, c - 1);
    }
  }

  /** Nothing expires before the table is full. */
  lemma Unexpired(cfg: Config, rows: seq<Row>, j: nat, s: Sys)
    requires Slow(cfg, rows) && j <= cfg.maxInflight && Filled(cfg, rows, j, s)
    requires s.now <= Start(cfg, rows, cfg.maxInflight - 1)
    ensures forall i <- s.gate.inflight :: !Expired(s.gate.inflight[i], s.now)
  {
    hide Slow, Stream, Start, LengthOf;
    forall i <- s.gate.inflight ensures !Expired(s.gate.inflight[i], s.now) {
      Outlives(cfg, rows, i);
    }
  }

  /** All a call of process_once can do then is to take a sample and to send a window. */
  lemma TakesAndSends(cfg: Config, rows: seq<Row>, j: nat, s: Sys)
    requires Slow(cfg, rows) && j <= cfg.maxInflight && Filled(cfg, rows, j, s)
    requires s.now <= Start(cfg, rows, cfg.maxInflight - 1)
    ensures cfg.window.Valid()
    ensures var q := QueueWindow(cfg, DeadLink(rows), s);
            && Filled(cfg, rows, j, q) && q.now == s.now
            && TxProcessOnce(cfg, DeadLink(rows), s) == SendPending(cfg, DeadLink(rows), q)
  {
    hide Slow, Stream, SendPending, Expired, DeadLink, Windows.Feed, Start, TxProcessOnce, SentAt;
    SlowParts(cfg, rows);
    Unexpired(cfg, rows, j, s);
    OnlySends(cfg, DeadLink(rows), s);
  }

  lemma OpensAt(cfg: Config, rows: seq<Row>, j: nat, q: Sys)
    requires Slow(cfg, rows) && j < cfg.maxInflight && Filled(cfg, rows, j, q) && q.now == Start(cfg, rows, j)
    ensures CanSend(cfg, q.gate, q.now)
  {
    hide Slow, Stream, Start, LengthOf, PaceDeadline, SentAt, Config.Spacing;
    SlowParts(cfg, rows);
    if j > 0 {
      NextStart(cfg, rows, j - 1);
      DeadlineAfter(cfg, q.gate, LengthOf(cfg, rows, j - 1));
    }
  }

  /** Sending window j when the gate opens. */
  lemma FillsOne(cfg: Config, rows: seq<Row>, j: nat, q: Sys)
    requires Slow(cfg, rows) && j < cfg.maxInflight && Filled(cfg, rows, j, q) && q.now == Start(cfg, rows, j)
    requires DataInv(cfg, q) && q.pending != [] && 2 + |q.pending[0].payload| == LengthOf(cfg, rows, j)
    ensures Filled(cfg, rows, j + 1, SendPending(cfg, DeadLink(rows), q))
  {
    hide Slow, Stream, Start, LengthOf, DataFrame, DataInv, CanSend;
    SlowParts(cfg, rows);
    SeqIs(cfg, q);
    OpensAt(cfg, rows, j, q);
    var t := SendNext(cfg, DeadLink(rows), q);
    UpdateSize(q.gate.inflight, q.seqNo, t.gate.inflight[q.seqNo]);
  }

  lemma SeqIs(cfg: Config, q: Sys)
    requires DataInv(cfg, q) && q.sent < 256
    ensures q.seqNo == q.sent
  {
  }

  /** The next frame is that of the next record. */
  lemma NextLength(cfg: Config, rows: seq<Row>, q: Sys)
    requires Stream(cfg, rows) && DataInv(cfg, q) && SampleInv(cfg, q) && q.pending != []
    requires PartAt(rows, 0, q.fed) && q.sent < cfg.maxInflight
    ensures 2 + |q.pending[0].payload| == LengthOf(cfg, rows, q.sent)
  {
    hide DataInv, Emitted, PartAt;
    NextId(cfg, q);
    SameRecord(cfg.window, rows, 0, q.fed, 0, q.sent);
    assert Records(cfg, rows)[q.sent + 0] == q.dataset[q.sent];
  }

  /** Before the gate opens nothing is sent. */
  lemma StaysShut(cfg: Config, rows: seq<Row>, j: nat, q: Sys)
    requires Slow(cfg, rows) && 1 <= j <= cfg.maxInflight && Filled(cfg, rows, j, q) && q.now < Start(cfg, rows, j)
    ensures SendPending(cfg, DeadLink(rows), q) == q
  {
    hide Slow, Stream, Start, LengthOf, SendNext, PaceDeadline, SentAt, Config.Spacing;
    SlowParts(cfg, rows);
    NextStart(cfg, rows, j - 1);
    DeadlineAfter(cfg, q.gate, LengthOf(cfg, rows, j - 1));
  }

  // ---------------------------------------------------------------------
  // The run
  // ---------------------------------------------------------------------

  lemma NotDoneYet(cfg: Config, rows: seq<Row>, j: nat, s: Sys)
    requires Slow(cfg, rows) && j <= cfg.maxInflight && Filled(cfg, rows, j, s) && (j == 0 ==> !s.noMoreSamples)
    ensures !IsDone(cfg, s)
  {
    hide Start, LengthOf, SentAt, Records, Lingers;
    if j > 0 {
      var k: byte := 0;
      assert k in s.gate.inflight;
    }
  }

  /** How many windows are in flight after r rows, all of them taken at time 0. */
  function AtOnce(cfg: Config, r: nat): nat
    requires cfg.window.Valid()
  {
    if Count(cfg.window, r) == 0 then 0 else 1
  }

  /** While the rows are taken, at time 0: window 0 goes out as soon as it is built, and nothing else. */
  ghost predicate Building(cfg: Config, rows: seq<Row>, r: nat, s: Sys)
    requires Stream(cfg, rows) && r <= |rows|
  {
    && Filled(cfg, rows, AtOnce(cfg, r), s)
    && s.now == 0 && s.samplesTaken == r && s.fed == rows[..r] && !s.noMoreSamples
  }

  /** Before all rows have been taken, windows are missing. */
  lemma StillBuilding(cfg: Config, r: nat)
    requires cfg.window.Valid() && Total(cfg) >= 1
    ensures RowCount(cfg) >= 1
    ensures r < RowCount(cfg) ==> Count(cfg.window, r) < Total(cfg)
    ensures r == RowCount(cfg) ==> Count(cfg.window, r) == Total(cfg)
  {
    hide Count;
    Arith.MulNonNegative(Total(cfg) - 1, cfg.window.stride);
    RowsNeeded(cfg.window, r, Total(cfg));
    RowsNeeded(cfg.window, r, Total(cfg) + 1);
  }

  lemma WantsMore(cfg: Config, rows: seq<Row>, r: nat, s: Sys)
    requires Stream(cfg, rows) && r < |rows| && s.samplesTaken == r && s.fed == rows[..r] && !s.noMoreSamples
    requires s.generated == Count(cfg.window, r)
    ensures var q := QueueWindow(cfg, DeadLink(rows), s);
            q.samplesTaken == r + 1 && q.fed == rows[..r + 1] && !q.noMoreSamples
  {
    hide Count, Windows.Feed, Records;
    StillBuilding(cfg, r);
    assert rows[..r] + [rows[r]] == rows[..r + 1];
  }

  lemma TakesRowOf(cfg: Config, rows: seq<Row>, r: nat, s: Sys)
    requires Slow(cfg, rows) && r < |rows| && Building(cfg, rows, r, s) && Reachable(cfg, DeadLink(rows), s)
    ensures var q := QueueWindow(cfg, DeadLink(rows), s);
            && q.samplesTaken == r + 1 && q.fed == rows[..r + 1] && !q.noMoreSamples
            && q.generated == Count(cfg.window, r + 1) && DataInv(cfg, q) && SampleInv(cfg, q)
  {
    hide Reachable, Count, DataInv, SampleInv, Filled, Stream, Slow, QueueWindow, DeadLink;
    SlowParts(cfg, rows);
    var env := DeadLink(rows);
    CoreParts(cfg, env, s);
    WantsMore(cfg, rows, r, s);
    StepReachable(cfg, env, s, Sampling);
    CoreParts(cfg, env, QueueWindow(cfg, env, s));
  }

  lemma BuildRound(cfg: Config, rows: seq<Row>, r: nat, s: Sys)
    requires Slow(cfg, rows) && r < |rows| && Building(cfg, rows, r, s) && Reachable(cfg, DeadLink(rows), s)
    ensures Building(cfg, rows, r + 1, Tick(TxProcessOnce(cfg, DeadLink(rows), s), 0))
  {
    hide Reachable, Count, DataInv, SampleInv, Slow, Stream, DeadLink, QueueWindow, SendPending, Start, TxProcessOnce;
    hide Filled, LengthOf, Config.Spacing;
    SlowParts(cfg, rows);
    var env, j := DeadLink(rows), AtOnce(cfg, r);
    LastIsLate(cfg, rows);
    TakesAndSends(cfg, rows, j, s);
    TakesRowOf(cfg, rows, r, s);
    CountMonotone(cfg.window, r, r + 1);
    var q := QueueWindow(cfg, env, s);
    NextStart(cfg, rows, 0);
    InQueue(cfg, q);
    SentIs(cfg, rows, j, q);
    if j == 1 {
      StaysShut(cfg, rows, 1, q);
    } else if q.generated > 0 {
      assert PartAt(rows, 0, q.fed);
      NextLength(cfg, rows, q);
      FillsOne(cfg, rows, 0, q);
      SendKeepsSampler(cfg, env, q);
    } else {
      EmptyStays(cfg, env, q);
    }
    FilledTick(cfg, rows, AtOnce(cfg, r + 1), SendPending(cfg, env, q), 0);
  }

  lemma EmptyStays(cfg: Config, env: Env, q: Sys)
    requires q.pending == []
    ensures SendPending(cfg, env, q) == q
  {
  }

  lemma InQueue(cfg: Config, q: Sys)
    requires DataInv(cfg, q)
    ensures |q.pending| == q.generated - q.sent
  {
  }

  lemma SendKeepsSampler(cfg: Config, env: Env, q: Sys)
    ensures var t := SendPending(cfg, env, q);
            && t.now == q.now && t.samplesTaken == q.samplesTaken && t.fed == q.fed
            && t.noMoreSamples == q.noMoreSamples && t.generated == q.generated
  {
    hide CanSend, RecordSend, SendFromA, DataFrame, Attempt;
  }

  lemma LastIsLate(cfg: Config, rows: seq<Row>)
    requires Slow(cfg, rows)
    ensures Stream(cfg, rows) && 0 <= Start(cfg, rows, cfg.maxInflight - 1)
  {
    hide Slow, Start;
    SlowParts(cfg, rows);
    NextStart(cfg, rows, cfg.maxInflight - 1);
  }

  lemma FilledTick(cfg: Config, rows: seq<Row>, j: nat, s: Sys, ms: int)
    requires Stream(cfg, rows) && j <= cfg.maxInflight && Filled(cfg, rows, j, s)
    ensures Filled(cfg, rows, j, Tick(s, ms))
  {
    hide Stream, SentAt, Start, LengthOf;
  }

  lemma UnTick(cfg: Config, rows: seq<Row>, j: nat, u: Sys, ms: int)
    requires Stream(cfg, rows) && j <= cfg.maxInflight && Filled(cfg, rows, j, Tick(u, ms))
    ensures Filled(cfg, rows, j, u)
  {
    hide Stream, SentAt, Start, LengthOf;
  }

  /** The first r rows have been taken. */
  lemma {:induction false} Rows(cfg: Config, rows: seq<Row>, r: nat) returns (s: Sys)
    requires Slow(cfg, rows) && r <= |rows|
    ensures AtRound(cfg, DeadLink(rows), Schedule(cfg, rows), r, s) && Building(cfg, rows, r, s)
    decreases r
  {
    hide Reachable, Slow, Stream, Count, TxProcessOnce, IsDone, DeadLink, Filled, Loop, Init;
    SlowParts(cfg, rows);
    if r == 0 {
      s := Init(0);
      AtStart(cfg, DeadLink(rows), Schedule(cfg, rows));
      StartsEmpty(cfg, rows);
    } else {
      var before := Rows(cfg, rows, r - 1);
      BuildRound(cfg, rows, r - 1, before);
      var u := TxProcessOnce(cfg, DeadLink(rows), before);
      UnTick(cfg, rows, AtOnce(cfg, r), u, 0);
      NotDoneYet(cfg, rows, AtOnce(cfg, r), u);
      s := NextQuietRound(cfg, DeadLink(rows), Schedule(cfg, rows), r - 1, before);
    }
  }

  lemma StartsEmpty(cfg: Config, rows: seq<Row>)
    requires Stream(cfg, rows)
    ensures Building(cfg, rows, 0, Init(0))
  {
    hide Records;
  }

  /** All windows are built; i of them, or the first one, are in flight; the gate is about to open. */
  ghost predicate Filling(cfg: Config, rows: seq<Row>, i: nat, s: Sys)
    requires Stream(cfg, rows) && i <= cfg.maxInflight
  {
    && Filled(cfg, rows, Max(1, i), s) && s.now == Start(cfg, rows, i)
    && s.generated == Total(cfg) && s.samplesTaken >= |rows| && s.fed == rows
  }

  lemma NoMoreWindows(cfg: Config, rows: seq<Row>, s: Sys)
    requires cfg.window.Valid() && s.samplesTaken >= |rows| && s.generated == Total(cfg)
    ensures var q := QueueWindow(cfg, DeadLink(rows), s);
            q.generated == s.generated && q.samplesTaken >= s.samplesTaken && q.fed == s.fed
  {
    hide Windows.Feed;
  }

  lemma FillRound(cfg: Config, rows: seq<Row>, i: nat, s: Sys)
    requires Slow(cfg, rows) && i < cfg.maxInflight && Filling(cfg, rows, i, s) && Reachable(cfg, DeadLink(rows), s)
    ensures Filling(cfg, rows, i + 1,
                    Tick(TxProcessOnce(cfg, DeadLink(rows), s), cfg.Spacing(LengthOf(cfg, rows, i))))
  {
    hide Reachable, DataInv, SampleInv, Slow, Stream, DeadLink, QueueWindow, SendPending, Start, TxProcessOnce, Filled;
    hide RowCount, Count, LengthOf, Config.Spacing;
    SlowParts(cfg, rows);
    var env, n := DeadLink(rows), LengthOf(cfg, rows, i);
    StartOrder(cfg, rows, i);
    TakesAndSends(cfg, rows, Max(1, i), s);
    NoMoreWindows(cfg, rows, s);
    var q := QueueWindow(cfg, env, s);
    StepReachable(cfg, env, s, Sampling);
    CoreParts(cfg, env, q);
    InQueue(cfg, q);
    SentIs(cfg, rows, Max(1, i), q);
    NextStart(cfg, rows, i);
    if i == 0 {
      StaysShut(cfg, rows, 1, q);
      FilledTick(cfg, rows, 1, q, cfg.Spacing(n));
    } else {
      NextLength(cfg, rows, q);
      FillsOne(cfg, rows, i, q);
      SendKeepsSampler(cfg, env, q);
      FilledTick(cfg, rows, i + 1, SendPending(cfg, env, q), cfg.Spacing(n));
    }
  }

  lemma StartOrder(cfg: Config, rows: seq<Row>, i: nat)
    requires Slow(cfg, rows) && i < cfg.maxInflight
    ensures Stream(cfg, rows) && Start(cfg, rows, i) <= Start(cfg, rows, cfg.maxInflight - 1)
  {
    hide Records, Lingers;
    BusyGrows(cfg, Records(cfg, rows), 0, i, cfg.maxInflight - 1);
  }

  lemma SentIs(cfg: Config, rows: seq<Row>, j: nat, s: Sys)
    requires Stream(cfg, rows) && j <= cfg.maxInflight && Filled(cfg, rows, j, s)
    ensures s.sent == j
  {
  }

  lemma {:induction false} Fills(cfg: Config, rows: seq<Row>, i: nat) returns (s: Sys)
    requires Slow(cfg, rows) && i <= cfg.maxInflight
    ensures AtRound(cfg, DeadLink(rows), Schedule(cfg, rows), |rows| + i, s) && Filling(cfg, rows, i, s)
    decreases i
  {
    hide Reachable, Slow, Stream, Count, TxProcessOnce, IsDone, DeadLink, Filled, Loop, Start, DataInv, SampleInv;
    hide RowCount, LengthOf, Config.Spacing;
    SlowParts(cfg, rows);
    if i == 0 {
      s := Rows(cfg, rows, |rows|);
      StillBuilding(cfg, RowCount(cfg));
      CoreParts(cfg, DeadLink(rows), s);
      assert rows[..|rows|] == rows;
    } else {
      var before := Fills(cfg, rows, i - 1);
      FillRound(cfg, rows, i - 1, before);
      var u := TxProcessOnce(cfg, DeadLink(rows), before);
      UnTick(cfg, rows, Max(1, i), u, cfg.Spacing(LengthOf(cfg, rows, i - 1)));
      NotDoneYet(cfg, rows, Max(1, i), u);
      s := NextQuietRound(cfg, DeadLink(rows), Schedule(cfg, rows), |rows| + (i - 1), before);
    }
  }

  // ---------------------------------------------------------------------
  // The full table
  // ---------------------------------------------------------------------

  /** A round changes nothing in a full table over a silent link. */
  lemma StuckRound(cfg: Config, env: Env, s: Sys)
    requires cfg.window.Valid() && Stuck(cfg, s) && Silent(s)
    ensures var t := TxProcessOnce(cfg, env, s); Stuck(cfg, t) && Silent(t)
  {
    hide Windows.Feed, CanSend, SendNext, RetryExpired, Stuck;
    var q := QueueWindow(cfg, env, s);
    StuckSame(cfg, s, q);
    assert HandleIncoming(cfg, q) == q;
    FullIsShut(cfg, q);
    FullTableStays(cfg, env, q);
  }

  lemma FullIsShut(cfg: Config, s: Sys)
    requires Stuck(cfg, s)
    ensures !CanSend(cfg, s.gate, s.now) && |s.gate.inflight| >= cfg.maxInflight
    ensures forall k <- s.gate.inflight :: !FailureDue(cfg, s.gate, s.now, k)
  {
  }

  lemma StuckSame(cfg: Config, s: Sys, t: Sys)
    requires Stuck(cfg, s) && t.gate == s.gate
    ensures Stuck(cfg, t)
  {
  }

  lemma {:induction false} StuckLoop(cfg: Config, env: Env, s: Sys, plan: nat -> Pause, j: nat, m: nat)
    requires cfg.Valid() && Stuck(cfg, s) && Silent(s) && forall i :: plan(i).rxSteps == 0
    ensures !IsDone(cfg, Loop(cfg, env, s, plan, j, m))
    decreases m
  {
    hide Stuck, TxProcessOnce, IsDone;
    if m == 0 {
      StuckIsNotDone(cfg, s);
    } else {
      StuckRound(cfg, env, s);
      var t := TxProcessOnce(cfg, env, s);
      assert RxMany(cfg, env, t, 0) == t;
      StuckIsNotDone(cfg, t);
      StuckSame(cfg, t, Tick(t, plan(j).ms));
      StuckLoop(cfg, env, Tick(t, plan(j).ms), plan, j + 1, m - 1);
    }
  }

  lemma FullIsStuck(cfg: Config, rows: seq<Row>, s: Sys)
    requires Slow(cfg, rows) && Filled(cfg, rows, cfg.maxInflight, s)
    ensures Stuck(cfg, s) && Silent(s)
  {
    hide Records, Start, LengthOf, Lingers;
  }

  /** This run never ends. */
  lemma NeverDone(cfg: Config, rows: seq<Row>, m: nat)
    requires Slow(cfg, rows)
    ensures Stream(cfg, rows) && cfg.window.Valid()
    ensures !IsDone(cfg, Loop(cfg, DeadLink(rows), Init(0), Schedule(cfg, rows), 0, m))
  {
    hide Reachable, Slow, Stream, Filled, Loop, Start, IsDone, DeadLink, Init, Count;
    SlowParts(cfg, rows);
    var env, plan := DeadLink(rows), Schedule(cfg, rows);
    if m <= |rows| {
      var s := Rows(cfg, rows, m);
      LoopZero(cfg, env, s, plan, m);
      NotDoneYet(cfg, rows, AtOnce(cfg, m), s);
    } else if m < |rows| + cfg.maxInflight {
      var s := Fills(cfg, rows, m - |rows|);
      LoopZero(cfg, env, s, plan, m);
      NotDoneYet(cfg, rows, Max(1, m - |rows|), s);
    } else {
      var s := Fills(cfg, rows, cfg.maxInflight);
      FullIsStuck(cfg, rows, s);
      StuckLoop(cfg, env, s, plan, |rows| + cfg.maxInflight, m - (|rows| + cfg.maxInflight));
    }
  }

  lemma LoopZero(cfg: Config, env: Env, s: Sys, plan: nat -> Pause, j: nat)
    requires cfg.window.Valid()
    ensures Loop(cfg, env, s, plan, j, 0) == s
  {
  }

  lemma {:induction false} AllRows(rows: seq<Row>, i: nat)
    requires i <= |rows|
    ensures RowsIn(DeadLink(rows), i) == i && Unended(DeadLink(rows), i)
    decreases i
  {
    if i > 0 {
      AllRows(rows, i - 1);
    }
  }

  lemma DeadLinkFits(rows: seq<Row>, dims: nat)
    requires Fit(rows, dims)
    ensures RowsFit(DeadLink(rows), dims)
  {
  }

  lemma DeadLinkSuffices(cfg: Config, rows: seq<Row>)
    requires Slow(cfg, rows)
    ensures Stream(cfg, rows) && cfg.window.Valid()
    ensures SamplerSuffices(cfg, DeadLink(rows)) && KeepsTicking(Schedule(cfg, rows))
  {
    hide Slow, Stream, Count, LengthOf, Config.Spacing;
    SlowParts(cfg, rows);
    AllRows(rows, |rows|);
    StillBuilding(cfg, |rows|);
    assert DeadLink(rows).sample(|rows|).SamplesExhausted?;
    assert TicksFrom(Schedule(cfg, rows), |rows| + cfg.maxInflight);
  }

  // ---------------------------------------------------------------------
  // The exact condition
  // ---------------------------------------------------------------------

  ghost predicate Ends(cfg: Config, env: Env, start: nat, plan: nat -> Pause)
    requires cfg.window.Valid()
  {
    exists m: nat :: IsDone(cfg, Loop(cfg, env, Init(start), plan, 0, m))
  }

  /** Every run with rows of this length whose sampler suffices ends, whatever the link drops and however the
      nodes are scheduled. */
  ghost predicate AlwaysEnds(cfg: Config, dims: nat)
    requires cfg.window.Valid()
  {
    forall env: Env, start: nat, plan: nat -> Pause ::
      RowsFit(env, dims) && SamplerSuffices(cfg, env) && KeepsTicking(plan) ==> Ends(cfg, env, start, plan)
  }

  /** A window of rows of this length. */
  ghost predicate FitRecord(cfg: Config, dims: nat, record: seq<real>) {
    exists rows: seq<Row> :: |rows| == cfg.window.W && Fit(rows, dims) && record == Flatten(rows)
  }

  ghost predicate FitRecords(cfg: Config, dims: nat, records: seq<seq<real>>) {
    forall i :: 0 <= i < |records| ==> FitRecord(cfg, dims, records[i])
  }

  /** Some windows linger until they take all places of the table but one. */
  ghost predicate CanLinger(cfg: Config, dims: nat) {
    exists records: seq<seq<real>> ::
      |records| == cfg.maxInflight - 1 && FitRecords(cfg, dims, records) && Lingers(cfg, records)
  }

  /** Every frame keeps the channel for at least a millisecond. */
  ghost predicate Unhurried(cfg: Config, dims: nat) {
    forall record: seq<real> :: FitRecord(cfg, dims, record) ==> cfg.Spacing(FrameLength(cfg, record)) >= 1
  }

  lemma RoomyEnds(cfg: Config, dims: nat)
    requires cfg.Valid() && forall env: Env :: RowsFit(env, dims) ==> Roomy(cfg, env)
    ensures AlwaysEnds(cfg, dims)
  {
    hide SamplerSuffices, KeepsTicking, IsDone, Loop, Init, Roomy, RowsFit;
    forall env: Env, start: nat, plan: nat -> Pause |
        RowsFit(env, dims) && SamplerSuffices(cfg, env) && KeepsTicking(plan)
      ensures Ends(cfg, env, start, plan)
    {
      assert Roomy(cfg, env);
      DoneIff(cfg, env, start, plan);
    }
  }

  lemma MadeFits(cfg: Config, env: Env, dims: nat, record: seq<real>)
    requires RowsFit(env, dims) && Made(cfg, env, record)
    ensures FitRecord(cfg, dims, record)
  {
    hide Flatten, FromSampler, Fit, RowsFit;
    var rows: seq<Row> :| |rows| == cfg.window.W && FromSampler(env, rows) && record == Flatten(rows);
    GivenFit(env, dims, rows);
  }

  lemma QuickHere(cfg: Config, env: Env, dims: nat)
    requires RowsFit(env, dims) && Unhurried(cfg, dims) && !CanLinger(cfg, dims)
    ensures Quick(cfg, env)
  {
    hide FitRecord, Made, RowsFit, Lingers, FrameLength, Config.Spacing;
    forall record: seq<real> | Made(cfg, env, record) ensures cfg.Spacing(FrameLength(cfg, record)) >= 1 {
      MadeFits(cfg, env, dims, record);
    }
    forall records: seq<seq<real>> |
        |records| == cfg.maxInflight - 1 && forall i :: 0 <= i < |records| ==> Made(cfg, env, records[i])
      ensures !Lingers(cfg, records)
    {
      forall i | 0 <= i < |records| ensures FitRecord(cfg, dims, records[i]) {
        MadeFits(cfg, env, dims, records[i]);
      }
      assert FitRecords(cfg, dims, records);
    }
  }

  lemma SlowMayNotEnd(cfg: Config, dims: nat, rows: seq<Row>)
    requires Slow(cfg, rows) && cfg.window.Valid() && Fit(rows, dims)
    ensures !AlwaysEnds(cfg, dims)
  {
    hide SamplerSuffices, KeepsTicking, IsDone, Loop, Init, Slow, Stream, DeadLink, Schedule, RowsFit, Fit;
    DeadLinkFits(rows, dims);
    DeadLinkSuffices(cfg, rows);
    var plan := Schedule(cfg, rows);
    forall m: nat ensures !IsDone(cfg, Loop(cfg, DeadLink(rows), Init(0), plan, 0, m)) {
      NeverDone(cfg, rows, m);
    }
    assert !Ends(cfg, DeadLink(rows), 0, plan);
  }

  // ---------------------------------------------------------------------
  // A stream that lingers
  // ---------------------------------------------------------------------

  /** Only the lengths of the frames matter. */
  lemma LingersByLength(cfg: Config, a: seq<seq<real>>, b: seq<seq<real>>)
    requires |a| == |b| && forall i :: 0 <= i < |a| ==> FrameLength(cfg, a[i]) == FrameLength(cfg, b[i])
    requires Lingers(cfg, a)
    ensures Lingers(cfg, b)
  {
    hide FrameLength;
    forall i | 0 <= i < |b| ensures cfg.ackTimeoutMs(FrameLength(cfg, b[i])) > Busy(cfg, b, i, |b|) {
      BusyByLength(cfg, a, b, i, |b|);
    }
  }

  lemma {:induction false} BusyByLength(cfg: Config, a: seq<seq<real>>, b: seq<seq<real>>, i: nat, j: nat)
    requires |a| == |b| && i <= j <= |a|
    requires forall k :: 0 <= k < |a| ==> FrameLength(cfg, a[k]) == FrameLength(cfg, b[k])
    ensures Busy(cfg, a, i, j) == Busy(cfg, b, i, j)
    decreases j
  {
    hide FrameLength, Config.Spacing;
    if i < j {
      BusyByLength(cfg, a, b, i, j - 1);
    }
  }

  /** The rows of these windows, `stride` apart, and rows of zeros elsewhere. */
  function Spread(cfg: Config, dims: nat, parts: seq<seq<Row>>): seq<Row>
    requires cfg.window.Valid() && RowCount(cfg) >= 0
    requires forall i :: 0 <= i < |parts| ==> |parts[i]| == cfg.window.W
  {
    var w := cfg.window;
    seq(RowCount(cfg), (r: nat) =>
      if r / w.stride < |parts| && r % w.stride < w.W then parts[r / w.stride][r % w.stride] else Zeros(dims))
  }

  /** Rows behind these records. */
  lemma {:induction false} Behind(cfg: Config, dims: nat, records: seq<seq<real>>) returns (parts: seq<seq<Row>>)
    requires FitRecords(cfg, dims, records)
    ensures |parts| == |records|
    ensures forall i :: 0 <= i < |parts| ==>
              |parts[i]| == cfg.window.W && Fit(parts[i], dims) && records[i] == Flatten(parts[i])
    decreases |records|
  {
    hide Flatten, Fit;
    if records == [] {
      parts := [];
    } else {
      var last := records[|records| - 1];
      assert FitRecord(cfg, dims, last);
      var rows: seq<Row> :| |rows| == cfg.window.W && Fit(rows, dims) && last == Flatten(rows);
      var before := Behind(cfg, dims, records[..|records| - 1]);
      parts := before + [rows];
    }
  }

  lemma SpreadFits(cfg: Config, dims: nat, parts: seq<seq<Row>>)
    requires cfg.window.Valid() && RowCount(cfg) >= 0
    requires forall i :: 0 <= i < |parts| ==> |parts[i]| == cfg.window.W && Fit(parts[i], dims)
    ensures Fit(Spread(cfg, dims, parts), dims)
  {
    var rows, w := Spread(cfg, dims, parts), cfg.window;
    forall r | 0 <= r < |rows| ensures |rows[r]| == dims {
      if r / w.stride < |parts| && r % w.stride < w.W {
        assert Fit(parts[r / w.stride], dims);
      } else {
        assert rows[r] == Zeros(dims);
      }
    }
  }

  lemma SpreadHolds(cfg: Config, dims: nat, parts: seq<seq<Row>>, i: nat)
    requires cfg.window.Valid() && cfg.window.W <= cfg.window.stride && i < |parts|
    requires RowCount(cfg) >= 0 && forall i :: 0 <= i < |parts| ==> |parts[i]| == cfg.window.W
    requires i < |Records(cfg, Spread(cfg, dims, parts))|
    ensures Records(cfg, Spread(cfg, dims, parts))[i] == Flatten(parts[i])
  {
    hide Emitted, Flatten;
    var w, rows := cfg.window, Spread(cfg, dims, parts);
    var from := i * w.stride;
    RecordAt(w, rows, i, from);
    forall k | 0 <= k < w.W ensures rows[from + k] == parts[i][k] {
      Arith.DivUnique(from + k, w.stride, i, k);
    }
    assert rows[from..from + w.W] == parts[i];
  }

  lemma StreamOf(cfg: Config, rows: seq<Row>)
    requires cfg.Valid() && |rows| == RowCount(cfg) && Total(cfg) >= cfg.maxInflight
    ensures Stream(cfg, rows)
  {
    hide Emitted;
    RecordsOfRows(cfg.window, rows, Total(cfg));
  }

  lemma Spacings(cfg: Config, dims: nat, rows: seq<Row>)
    requires Stream(cfg, rows) && Fit(rows, dims) && Unhurried(cfg, dims)
    ensures forall c :: 0 <= c < cfg.maxInflight ==> cfg.Spacing(LengthOf(cfg, rows, c)) >= 1
  {
    hide Emitted, Flatten, Config.Spacing, FrameLength;
    forall c | 0 <= c < cfg.maxInflight ensures cfg.Spacing(LengthOf(cfg, rows, c)) >= 1 {
      RecordFits(cfg, dims, rows, c);
    }
  }

  lemma RecordFits(cfg: Config, dims: nat, rows: seq<Row>, c: nat)
    requires cfg.window.Valid() && Fit(rows, dims) && c < |Records(cfg, rows)|
    ensures FitRecord(cfg, dims, Records(cfg, rows)[c])
  {
    hide Emitted, Flatten;
    var from := c * cfg.window.stride;
    RecordAt(cfg.window, rows, c, from);
    assert Fit(rows[from..from + cfg.window.W], dims);
  }

  /** Windows can be strung together in any order: they do not overlap, or only their one length matters. */
  ghost predicate Arrangeable(cfg: Config, dims: nat)
    requires cfg.window.Valid()
  {
    cfg.window.W <= cfg.window.stride || exists n: nat :: Uniform(cfg, dims, n)
  }

  lemma SlowStream(cfg: Config, dims: nat) returns (rows: seq<Row>)
    requires cfg.Valid() && Unhurried(cfg, dims) && Arrangeable(cfg, dims) && CanLinger(cfg, dims)
    requires cfg.maxRetries >= 1 && cfg.maxInflight <= 256 && Total(cfg) >= cfg.maxInflight
    ensures Slow(cfg, rows) && Fit(rows, dims)
  {
    hide Unhurried, Fit, Flatten, Uniform, Lingers, FitRecord, Emitted, Config.Spacing, FrameLength;
    var records: seq<seq<real>> :|
      |records| == cfg.maxInflight - 1 && FitRecords(cfg, dims, records) && Lingers(cfg, records);
    var parts := Behind(cfg, dims, records);
    StillBuilding(cfg, 0);
    rows := Spread(cfg, dims, parts);
    SpreadFits(cfg, dims, parts);
    StreamOf(cfg, rows);
    Spacings(cfg, dims, rows);
    forall i | 0 <= i < |records|
      ensures FrameLength(cfg, records[i]) == FrameLength(cfg, Records(cfg, rows)[i])
    {
      if cfg.window.W <= cfg.window.stride {
        SpreadHolds(cfg, dims, parts, i);
      } else {
        var n: nat :| Uniform(cfg, dims, n);
        RecordFits(cfg, dims, rows, i);
        FitLength(cfg, dims, n, records[i]);
        FitLength(cfg, dims, n, Records(cfg, rows)[i]);
      }
    }
    LingersByLength(cfg, records, Records(cfg, rows)[..|records|]);
  }

  lemma FitLength(cfg: Config, dims: nat, n: nat, record: seq<real>)
    requires cfg.window.Valid() && Uniform(cfg, dims, n) && FitRecord(cfg, dims, record)
    ensures FrameLength(cfg, record) == n
  {
    hide Flatten;
    var rows: seq<Row> :| |rows| == cfg.window.W && Fit(rows, dims) && record == Flatten(rows);
  }

  /** With frames at least a millisecond apart that can be strung together in any order, every run ends if and only
      if there are no retries, or the table has more places than there are SEQs or windows, or no windows can
      linger until they take all of its places but one. */
  lemma AlwaysEndsIff(cfg: Config, dims: nat)
    requires cfg.Valid() && Unhurried(cfg, dims) && Arrangeable(cfg, dims)
    ensures AlwaysEnds(cfg, dims)
            <==> || cfg.maxRetries == 0
                 || cfg.maxInflight > 256
                 || (cfg.maxWindows.Some? && cfg.maxInflight > cfg.maxWindows.value)
                 || !CanLinger(cfg, dims)
  {
    hide AlwaysEnds, Uniform, RowsFor, Quick, CanLinger, Unhurried, Slow, RowsFit, Fit;
    if || cfg.maxRetries == 0
       || cfg.maxInflight > 256
       || (cfg.maxWindows.Some? && cfg.maxInflight > cfg.maxWindows.value)
       || !CanLinger(cfg, dims)
    {
      forall env: Env | RowsFit(env, dims) ensures Roomy(cfg, env) {
        if !CanLinger(cfg, dims) {
          QuickHere(cfg, env, dims);
        }
      }
      RoomyEnds(cfg, dims);
    } else {
      var rows := SlowStream(cfg, dims);
      SlowMayNotEnd(cfg, dims, rows);
    }
  }

  // ---------------------------------------------------------------------
  // Frames of one length
  // ---------------------------------------------------------------------

  /** Windows linger if and only if the timeout is longer than max_inflight - 1 spacings. */
  lemma UniformLingerIff(cfg: Config, dims: nat, n: nat)
    requires cfg.Valid() && Uniform(cfg, dims, n) && cfg.Spacing(n) >= 1
    ensures CanLinger(cfg, dims) <==> cfg.ackTimeoutMs(n) > (cfg.maxInflight - 1) * cfg.Spacing(n)
  {
    hide Uniform, FitRecord, Config.Spacing, FrameLength, Flatten;
    var m := cfg.maxInflight - 1;
    if records: seq<seq<real>> :| |records| == m && FitRecords(cfg, dims, records) && Lingers(cfg, records) {
      EqualLengths(cfg, dims, n, records);
      EqualBusy(cfg, records, n, 0, m);
      TimeoutOfUniform(cfg, dims, n);
    }
    if cfg.ackTimeoutMs(n) > m * cfg.Spacing(n) {
      var record := Flatten(seq(cfg.window.W, i => Zeros(dims)));
      ZerosFit(cfg, dims);
      var records := seq(m, i => record);
      EqualLengths(cfg, dims, n, records);
      forall i | 0 <= i < m ensures cfg.ackTimeoutMs(FrameLength(cfg, records[i])) > Busy(cfg, records, i, m) {
        EqualBusy(cfg, records, n, i, m);
        Arith.MulMonotone(m - i, m, cfg.Spacing(n));
      }
      assert FitRecords(cfg, dims, records) && Lingers(cfg, records);
    }
  }

  lemma EqualLengths(cfg: Config, dims: nat, n: nat, records: seq<seq<real>>)
    requires cfg.window.Valid() && Uniform(cfg, dims, n) && FitRecords(cfg, dims, records)
    ensures forall i :: 0 <= i < |records| ==> FrameLength(cfg, records[i]) == n
  {
    hide Uniform, FitRecord, FrameLength;
    forall i | 0 <= i < |records| ensures FrameLength(cfg, records[i]) == n {
      FitLength(cfg, dims, n, records[i]);
    }
  }

  lemma ZerosFit(cfg: Config, dims: nat)
    requires cfg.window.Valid()
    ensures FitRecord(cfg, dims, Flatten(seq(cfg.window.W, i => Zeros(dims))))
  {
    hide Flatten;
    var rows := seq(cfg.window.W, i => Zeros(dims));
    assert Fit(rows, dims);
  }

  lemma TimeoutOfUniform(cfg: Config, dims: nat, n: nat)
    requires cfg.Valid() && Uniform(cfg, dims, n)
    ensures cfg.ackTimeoutMs(n) > 0
  {
    hide Uniform, FitRecord, Flatten;
    ZerosFit(cfg, dims);
    var record := Flatten(seq(cfg.window.W, i => Zeros(dims)));
    FitLength(cfg, dims, n, record);
    TimeoutPositive(cfg, record);
  }
}
