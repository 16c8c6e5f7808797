/** Following one run of the transmit loop round by round. */
module ArqRounds {
  import opened Basics
  import opened Windows
  import opened ArqModel
  import opened ArqRuns
  import opened ArqInvariants
  import opened ArqSampling
  import opened ArqSeqWrap
  import opened ArqRoom

  /** The run from time 0 is in state `s` before round r. */
  ghost predicate AtRound(cfg: Config, env: Env, plan: nat -> Pause, r: nat, s: Sys)
    requires cfg.window.Valid()
  {
    && Reachable(cfg, env, s)
    && forall m: nat :: m >= r ==>
         Loop(cfg, env, Init(0), plan, 0, m) == Loop(cfg, env, s, plan, r, m - r)
  }

  lemma AtStart(cfg: Config, env: Env, plan: nat -> Pause)
    requires cfg.window.Valid()
    ensures AtRound(cfg, env, plan, 0, Init(0))
  {
    hide Reachable, Loop, Init;
    InitReachable(cfg, env, 0);
  }

  /** The state after one more round. */
  lemma NextRound(cfg: Config, env: Env, plan: nat -> Pause, r: nat, s: Sys) returns (v: Sys)
    requires cfg.window.Valid() && AtRound(cfg, env, plan, r, s)
    requires !IsDone(cfg, RxMany(cfg, env, TxProcessOnce(cfg, env, s), plan(r).rxSteps))
    ensures v == Tick(RxMany(cfg, env, TxProcessOnce(cfg, env, s), plan(r).rxSteps), plan(r).ms)
    ensures AtRound(cfg, env, plan, r + 1, v)
  {
    hide Reachable, TxProcessOnce, IsDone, RxMany, Init;
    var u := TxProcessOnce(cfg, env, s);
    var t := RxMany(cfg, env, u, plan(r).rxSteps);
    TxProcessOnceReachable(cfg, env, s);
    RxManyReachable(cfg, env, u, plan(r).rxSteps);
    StepReachable(cfg, env, t, Ticking(plan(r).ms));
    v := Tick(t, plan(r).ms);
    forall m: nat | m >= r + 1
      ensures Loop(cfg, env, Init(0), plan, 0, m) == Loop(cfg, env, v, plan, r + 1, m - (r + 1))
    {
      assert Loop(cfg, env, Init(0), plan, 0, m) == Loop(cfg, env, s, plan, r, m - r);
    }
  }

  /** A round in which the receiver does nothing. */
  lemma NextQuietRound(cfg: Config, env: Env, plan: nat -> Pause, r: nat, s: Sys) returns (v: Sys)
    requires cfg.window.Valid() && AtRound(cfg, env, plan, r, s) && plan(r).rxSteps == 0
    requires !IsDone(cfg, TxProcessOnce(cfg, env, s))
    ensures v == Tick(TxProcessOnce(cfg, env, s), plan(r).ms) && AtRound(cfg, env, plan, r + 1, v)
  {
    hide AtRound, TxProcessOnce, IsDone;
    assert RxMany(cfg, env, TxProcessOnce(cfg, env, s), 0) == TxProcessOnce(cfg, env, s);
    v := NextRound(cfg, env, plan, r, s);
  }

  lemma DoneTicks(cfg: Config, s: Sys, ms: int)
    ensures IsDone(cfg, Tick(s, ms)) == IsDone(cfg, s)
  {
  }

  // ---------------------------------------------------------------------
  // The windows of a stream of rows, sent as soon as the gate opens
  // ---------------------------------------------------------------------

  function Records(cfg: Config, rows: seq<Row>): seq<seq<real>>
    requires cfg.window.Valid()
  {
    Emitted(cfg.window, rows)
  }

  /** The length of the frame of window c. */
  function LengthOf(cfg: Config, rows: seq<Row>, c: nat): nat
    requires cfg.window.Valid() && c < |Records(cfg, rows)|
  {
    FrameLength(cfg, Records(cfg, rows)[c])
  }

  /** When window c is sent: as soon as the gate opens. */
  function Start(cfg: Config, rows: seq<Row>, c: nat): int
    requires cfg.window.Valid() && c <= |Records(cfg, rows)|
  {
    Busy(cfg, Records(cfg, rows), 0, c)
  }

  lemma StartIs(cfg: Config, rows: seq<Row>)
    requires cfg.window.Valid() && |Records(cfg, rows)| >= 1
    ensures Start(cfg, rows, 0) == 0
  {
  }

  // ---------------------------------------------------------------------
  // Taking a row
  // ---------------------------------------------------------------------

  function Zeros(dims: nat): (row: Row)
    ensures |row| == dims
  {
    seq(dims, i => 0.0)
  }

  /** Whether the row after the first j rows completes a window. */
  predicate Emits(w: WindowSpec, j: nat)
    requires w.Valid()
  {
    j + 1 >= w.W && OnStride(w, j + 1)
  }

  lemma EmitsCount(w: WindowSpec, j: nat)
    requires w.Valid()
    ensures Count(w, j + 1) == Count(w, j) + (if Emits(w, j) then 1 else 0)
    ensures Emits(w, j) ==> j + 1 == w.W + Count(w, j) * w.stride
  {
    hide Count, OnStride;
    CountStep(w, j + 1);
  }

  /** When nothing waits, all windows built have been sent. */
  lemma AllSent(cfg: Config, env: Env, s: Sys)
    requires cfg.Valid() && s.pending == [] && Reachable(cfg, env, s)
    ensures s.sent == s.generated == Count(cfg.window, |s.fed|)
    ensures s.seqNo == SeqOf(s.sent)
  {
    hide Reachable, Count, DataInv, SampleInv, SeqOf;
    CoreParts(cfg, env, s);
    SentAtMostGenerated(cfg, s);
    NextSeqOf(cfg, s);
  }

  lemma NextSeqOf(cfg: Config, s: Sys)
    requires DataInv(cfg, s)
    ensures s.seqNo == SeqOf(s.sent)
  {
  }

  /** The next row completes a window or it does not. */
  lemma TakesRow(cfg: Config, env: Env, s: Sys, row: Row)
    requires cfg.Valid() && Reachable(cfg, env, s) && s.pending == [] && WantsSample(cfg, s)
    requires env.sample(s.samplesTaken) == SampleRow(row)
    ensures var w, q, rows := cfg.window, QueueWindow(cfg, env, s), s.fed + [row];
            && q == s.(samplesTaken := s.samplesTaken + 1, builder := q.builder, fed := rows,
                       dataset := q.dataset, pending := q.pending, generated := q.generated)
            && (!Emits(w, |s.fed|) ==> q.pending == [])
            && (Emits(w, |s.fed|) ==>
                  q.pending == [PendingWindow(s.sent, cfg.encode(Flatten(rows[|rows| - w.W..])), s.now)])
  {
    hide Reachable, Count, OnStride, Flatten, Emitted, After, Feed, DataInv;
    CoreParts(cfg, env, s);
    AllSent(cfg, env, s);
    EmitsWhenDue(cfg.window, s.fed, row);
    var rows := s.fed + [row];
    if |rows| >= cfg.window.W {
      assert rows[|rows| - cfg.window.W..|rows|] == rows[|rows| - cfg.window.W..];
    }
  }

  /** No row, or none wanted. */
  lemma TakesNothing(cfg: Config, env: Env, s: Sys)
    requires cfg.window.Valid() && (WantsSample(cfg, s) ==> env.sample(s.samplesTaken).NoSampleYet?)
    ensures var q := QueueWindow(cfg, env, s); q == s.(samplesTaken := q.samplesTaken)
    ensures WantsSample(cfg, s) ==> QueueWindow(cfg, env, s).samplesTaken == s.samplesTaken + 1
  {
  }

  // ---------------------------------------------------------------------
  // Calls of process_once in which nothing has expired
  // ---------------------------------------------------------------------

  lemma {:induction false} NothingDueIn(cfg: Config, s: Sys, order: seq<byte>)
    requires forall i <- s.gate.inflight :: !Expired(s.gate.inflight[i], s.now)
    ensures ExpiredSequences(cfg, s.gate, s.now, order) == [] && ExpiredFailures(cfg, s.gate, s.now, order) == []
    decreases |order|
  {
    hide Expired;
    if order != [] {
      NothingDueIn(cfg, s, order[1..]);
    }
  }

  lemma NothingDue(cfg: Config, env: Env, s: Sys)
    requires forall i <- s.gate.inflight :: !Expired(s.gate.inflight[i], s.now)
    ensures RetryExpired(cfg, env, s) == s
  {
    hide Expired;
    NothingDueIn(cfg, s, s.gate.order);
  }

  /** All a call of process_once can do then, when no frame is due either, is to take a sample and to send a
      window. */
  lemma OnlySends(cfg: Config, env: Env, s: Sys)
    requires cfg.window.Valid() && !Deliverable(s.link.toA, s.now)
    requires forall i <- s.gate.inflight :: !Expired(s.gate.inflight[i], s.now)
    ensures var q := QueueWindow(cfg, env, s);
            && q.gate == s.gate && q.now == s.now && q.link == s.link
            && TxProcessOnce(cfg, env, s) == SendPending(cfg, env, q)
  {
    hide Expired, SendPending, RetryExpired, Feed;
    var q := QueueWindow(cfg, env, s);
    assert HandleIncoming(cfg, q) == q;
    NothingDue(cfg, env, q);
  }

  lemma {:induction false} NoneGivenUp(cfg: Config, s: Sys, order: seq<byte>)
    requires forall k <- s.gate.inflight :: !FailureDue(cfg, s.gate, s.now, k)
    ensures ExpiredFailures(cfg, s.gate, s.now, order) == []
    decreases |order|
  {
    hide Expired;
    if order != [] {
      NoneGivenUp(cfg, s, order[1..]);
    }
  }

  /** A full table from which nothing is given up stays as it is. */
  lemma FullTableStays(cfg: Config, env: Env, s: Sys)
    requires |s.gate.inflight| >= cfg.maxInflight
    requires forall k <- s.gate.inflight :: !FailureDue(cfg, s.gate, s.now, k)
    ensures RetryExpired(cfg, env, s) == s
  {
    hide ExpiredSequences, FailureDue;
    RetryAllShut(cfg, env, s, ExpiredSequences(cfg, s.gate, s.now, s.gate.order));
    NoneGivenUp(cfg, s, s.gate.order);
  }
}
