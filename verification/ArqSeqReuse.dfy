/** A SEQ can be reused in flight: exactly when some frame outlives the 256 spacings from its own transmission to
    that of the next window with its SEQ. The table then still holds the window of 256 windows ago. */
module ArqSeqReuse {
  import opened Basics
  import opened Windows
  import opened ArqModel
  import opened ArqRuns
  import opened ArqInvariants
  import opened ArqSampling
  import opened ArqSeqWrap
  import opened ArqPhases
  import opened ArqRoom
  import opened ArqRounds
  import ArqAckSound

  // ---------------------------------------------------------------------
  // A run in blocks of three rounds
  // ---------------------------------------------------------------------

  /** A row every third round; the very first frame is dropped, and nothing else. */
  function FirstDropped(rows: seq<Row>): Env {
    Env((i: nat) => i == 0, (i: nat) => false,
        (i: nat) => if i % 3 == 0 && i / 3 < |rows| then SampleRow(rows[i / 3]) else NoSampleYet)
  }

  /** When a row completes a window, the receiver reads it a latency later, the transmitter reads the answer
      another latency later, and the block ends when the gate opens. */
  function Schedule(cfg: Config, rows: seq<Row>): nat -> Pause
    requires cfg.window.Valid()
  {
    (r: nat) =>
      if !Emits(cfg.window, r / 3) || Count(cfg.window, r / 3) >= |Records(cfg, rows)| then Pause(0, 0)
      else if r % 3 == 0 then Pause(0, cfg.latencyMs)
      else if r % 3 == 1 then Pause(1, cfg.latencyMs)
      else Pause(0, cfg.Spacing(LengthOf(cfg, rows, Count(cfg.window, r / 3))) - 2 * cfg.latencyMs)
  }

  /** Rows for 257 windows, room for a second one, round trips within the spacings, and a frame of window 0 that
      expires only after window 256 is due. */
  ghost predicate TooLong(cfg: Config, rows: seq<Row>) {
    && cfg.Valid() && cfg.maxInflight >= 2 && (cfg.maxWindows.Some? ==> cfg.maxWindows.value > 256)
    && |rows| == RowsOf(cfg.window, 257) && |Records(cfg, rows)| == 257
    && (forall c :: 0 <= c < 257 ==> 2 * cfg.latencyMs <= cfg.Spacing(LengthOf(cfg, rows, c)))
    && cfg.ackTimeoutMs(LengthOf(cfg, rows, 0)) > Start(cfg, rows, 256)
  }

  /** Window 0 is in flight since time 0, on its first attempt. */
  ghost predicate Pinned(cfg: Config, rows: seq<Row>, s: Sys)
    requires cfg.window.Valid() && |Records(cfg, rows)| == 257
  {
    && 0 in s.gate.inflight && s.gate.inflight[0].lastTxMs == 0 && s.gate.inflight[0].attempts == 1
    && s.gate.inflight[0].ackTimeoutMs == cfg.ackTimeoutMs(LengthOf(cfg, rows, 0)) && s.link.usedAb >= 1
  }

  /** The last transmission was that of window c. */
  ghost predicate LastSent(cfg: Config, rows: seq<Row>, c: nat, s: Sys)
    requires cfg.window.Valid() && |Records(cfg, rows)| == 257 && c <= 256
  {
    && s.gate.lastTxMs == Some(Start(cfg, rows, c)) && s.gate.lastToaMs == cfg.toaMs(LengthOf(cfg, rows, c))
  }

  /** With c windows sent: window 0 is in flight, and nothing else. */
  ghost predicate Table(cfg: Config, rows: seq<Row>, c: nat, s: Sys)
    requires cfg.window.Valid() && |Records(cfg, rows)| == 257 && c <= 256
  {
    if c == 0 then s.gate.inflight == map[] && s.gate.lastTxMs == None && s.link.usedAb == 0
    else Pinned(cfg, rows, s) && s.gate.inflight.Keys == {0} && LastSent(cfg, rows, c - 1, s)
  }

  /** r answers of the sampler taken, j of them rows; nothing waits, nothing lost. */
  predicate Calm(rows: seq<Row>, r: nat, j: nat, sent: nat, s: Sys) {
    && s.samplesTaken == r && j <= |rows| && s.fed == rows[..j] && !s.noMoreSamples && s.pending == []
    && s.lost == {} && s.sent == sent
  }

  /** Before round r, with j rows taken and all of their windows sent. */
  ghost predicate Rested(cfg: Config, rows: seq<Row>, r: nat, j: nat, s: Sys)
    requires cfg.window.Valid() && |Records(cfg, rows)| == 257
  {
    var c := Count(cfg.window, j);
    && c <= 256 && Calm(rows, r, j, c, s) && Table(cfg, rows, c, s) && s.now == Start(cfg, rows, c)
    && s.link.toA == [] && s.link.toB == []
  }

  /** Window c has been sent; it may have been given up already. */
  ghost predicate Flying(cfg: Config, rows: seq<Row>, r: nat, j: nat, c: nat, s: Sys)
    requires cfg.window.Valid() && |Records(cfg, rows)| == 257 && c <= 256
  {
    && Calm(rows, r, j, c + 1, s) && Pinned(cfg, rows, s) && LastSent(cfg, rows, c, s)
    && (forall k <- s.gate.inflight :: k == 0 || k == SeqOf(c))
  }

  /** What is on its way to the receiver: nothing of window 0, the frame of any other window. */
  ghost predicate OnTheWay(cfg: Config, rows: seq<Row>, c: nat, at: int, s: Sys)
    requires cfg.window.Valid() && c < |Records(cfg, rows)|
  {
    && s.link.toA == []
    && s.link.toB == if c == 0 then [] else [Delivery(at, DataFrame(SeqOf(c), cfg.encode(Records(cfg, rows)[c])))]
  }

  /** What is on its way back. */
  ghost predicate OnTheWayBack(c: nat, at: int, s: Sys) {
    && s.link.toB == []
    && if c == 0 then s.link.toA == []
       else |s.link.toA| == 1 && s.link.toA[0].at == at && |s.link.toA[0].frame| == 3
            && s.link.toA[0].frame[0] == 1 && s.link.toA[0].frame[2] == SeqOf(c)
  }

  // ---------------------------------------------------------------------
  // Times
  // ---------------------------------------------------------------------

  lemma Parts(cfg: Config, rows: seq<Row>)
    requires TooLong(cfg, rows)
    ensures cfg.Valid() && cfg.window.Valid() && |Records(cfg, rows)| == 257 && cfg.maxInflight >= 2
    ensures |rows| == RowsOf(cfg.window, 257) && Start(cfg, rows, 0) == 0
  {
    hide Records, Start;
    BusyNext(cfg, Records(cfg, rows), 0, 1);
    StartIs(cfg, rows);
  }

  /** From one window to the next. */
  lemma NextStart(cfg: Config, rows: seq<Row>, c: nat)
    requires TooLong(cfg, rows) && c <= 255
    ensures cfg.window.Valid() && |Records(cfg, rows)| == 257
    ensures Start(cfg, rows, c + 1) == Start(cfg, rows, c) + cfg.Spacing(LengthOf(cfg, rows, c))
    ensures 0 <= 2 * cfg.latencyMs <= cfg.Spacing(LengthOf(cfg, rows, c))
    ensures 0 <= Start(cfg, rows, c) && Start(cfg, rows, c + 1) <= Start(cfg, rows, 256)
  {
    hide Records, FrameLength, Config.Spacing, Busy;
    var records := Records(cfg, rows);
    BusyNext(cfg, records, 0, c + 1);
    BusyGrows(cfg, records, 0, 0, c);
    BusyGrows(cfg, records, 0, c + 1, 256);
    StartIs(cfg, rows);
  }

  /** Up to the start of window 256, window 0 does not expire. */
  lemma PinnedWaits(cfg: Config, rows: seq<Row>, s: Sys)
    requires TooLong(cfg, rows)
    requires cfg.window.Valid() && Pinned(cfg, rows, s) && s.now <= Start(cfg, rows, 256)
    ensures !Expired(s.gate.inflight[0], s.now)
  {
    hide Records, Start;
  }

  lemma TableWaits(cfg: Config, rows: seq<Row>, c: nat, s: Sys)
    requires TooLong(cfg, rows) && cfg.window.Valid() && c <= 256
    requires Table(cfg, rows, c, s) && s.now <= Start(cfg, rows, 256)
    ensures forall k <- s.gate.inflight :: !Expired(s.gate.inflight[k], s.now)
  {
    hide Records, Start, Expired, LengthOf;
    if c > 0 {
      PinnedWaits(cfg, rows, s);
      forall k <- s.gate.inflight ensures !Expired(s.gate.inflight[k], s.now) {
        assert k == 0;
      }
    }
  }

  lemma RestedWaits(cfg: Config, rows: seq<Row>, r: nat, j: nat, s: Sys)
    requires TooLong(cfg, rows) && cfg.window.Valid() && Rested(cfg, rows, r, j, s)
    ensures forall k <- s.gate.inflight :: !Expired(s.gate.inflight[k], s.now)
  {
    hide TooLong, Records, Start, Expired, Table, Count;
    Parts(cfg, rows);
    var c := Count(cfg.window, j);
    if c < 256 {
      NextStart(cfg, rows, c);
    }
    TableWaits(cfg, rows, c, s);
  }

  // ---------------------------------------------------------------------
  // The rows
  // ---------------------------------------------------------------------

  lemma Wants(cfg: Config, rows: seq<Row>, s: Sys)
    requires TooLong(cfg, rows) && !s.noMoreSamples && s.generated <= 256
    ensures WantsSample(cfg, s)
  {
    hide Records;
  }

  lemma NotDone(cfg: Config, rows: seq<Row>, s: Sys)
    requires TooLong(cfg, rows) && !s.noMoreSamples && s.sent <= 256
    ensures !IsDone(cfg, s)
  {
    hide Records;
  }

  /** The row after the first j rows completes window c, whose record this is. */
  lemma CompletedBy(cfg: Config, rows: seq<Row>, j: nat)
    requires cfg.window.Valid() && j < |rows| && Emits(cfg.window, j) && Count(cfg.window, j) < |Records(cfg, rows)|
    ensures j + 1 >= cfg.window.W
    ensures Flatten(rows[j + 1 - cfg.window.W..j + 1]) == Records(cfg, rows)[Count(cfg.window, j)]
  {
    hide Emitted, Flatten, Count;
    EmitsCount(cfg.window, j);
    RecordAt(cfg.window, rows, Count(cfg.window, j), j + 1 - cfg.window.W);
  }

  lemma SampleOf(rows: seq<Row>, j: nat, i: nat)
    requires i <= 2
    ensures FirstDropped(rows).sample(3 * j + i)
         == if i == 0 && j < |rows| then SampleRow(rows[j]) else NoSampleYet
  {
    assert (3 * j + i) / 3 == j && (3 * j + i) % 3 == i;
  }

  /** The first round of a block takes a row. */
  lemma FirstOfBlock(cfg: Config, rows: seq<Row>, j: nat, s: Sys)
    requires TooLong(cfg, rows) && cfg.window.Valid() && Rested(cfg, rows, 3 * j, j, s) && j < |rows|
    requires Reachable(cfg, FirstDropped(rows), s)
    ensures var q, c := QueueWindow(cfg, FirstDropped(rows), s), Count(cfg.window, j);
            && q == s.(samplesTaken := 3 * j + 1, builder := q.builder, fed := rows[..j + 1], dataset := q.dataset,
                       pending := q.pending, generated := q.generated)
            && (!Emits(cfg.window, j) ==> q.pending == [])
            && (Emits(cfg.window, j) ==>
                  q.pending == [PendingWindow(c, cfg.encode(Records(cfg, rows)[c]), s.now)])
            && s.seqNo == SeqOf(c)
  {
    hide Reachable, Table, Start, Count, SeqOf, OnStride, Flatten, Records, FirstDropped, Emits;
    Parts(cfg, rows);
    var env := FirstDropped(rows);
    AllSent(cfg, env, s);
    Wants(cfg, rows, s);
    SampleOf(rows, j, 0);
    TakesRow(cfg, env, s, rows[j]);
    assert rows[..j] + [rows[j]] == rows[..j + 1];
    if Emits(cfg.window, j) {
      CompletedBy(cfg, rows, j);
      assert rows[..j + 1][j + 1 - cfg.window.W..] == rows[j + 1 - cfg.window.W..j + 1];
    }
  }

  /** In the other two rounds there is no row. */
  lemma LaterInBlock(cfg: Config, rows: seq<Row>, j: nat, i: nat, s: Sys)
    requires TooLong(cfg, rows) && cfg.window.Valid() && 1 <= i <= 2 && s.samplesTaken == 3 * j + i
    requires !s.noMoreSamples && s.pending == [] && s.sent <= 256 && Reachable(cfg, FirstDropped(rows), s)
    ensures QueueWindow(cfg, FirstDropped(rows), s) == s.(samplesTaken := 3 * j + i + 1)
  {
    hide Reachable, Records, Count, SeqOf, FirstDropped;
    Parts(cfg, rows);
    AllSent(cfg, FirstDropped(rows), s);
    Wants(cfg, rows, s);
    SampleOf(rows, j, i);
    TakesNothing(cfg, FirstDropped(rows), s);
  }

  lemma SamePlan(cfg: Config, rows: seq<Row>, j: nat, i: nat)
    requires cfg.window.Valid() && i <= 2
    ensures var c := Count(cfg.window, j);
            Schedule(cfg, rows)(3 * j + i)
            == if !Emits(cfg.window, j) || c >= |Records(cfg, rows)| then Pause(0, 0)
               else if i == 0 then Pause(0, cfg.latencyMs)
               else if i == 1 then Pause(1, cfg.latencyMs)
               else Pause(0, cfg.Spacing(LengthOf(cfg, rows, c)) - 2 * cfg.latencyMs)
  {
    hide Records, Count, Emits, LengthOf, Config.Spacing;
    assert (3 * j + i) / 3 == j && (3 * j + i) % 3 == i;
  }

  // ---------------------------------------------------------------------
  // A block without a window
  // ---------------------------------------------------------------------

  lemma EmptyStays(cfg: Config, env: Env, q: Sys)
    requires q.pending == []
    ensures SendPending(cfg, env, q) == q
  {
  }

  lemma QuietRound(cfg: Config, rows: seq<Row>, j: nat, i: nat, s: Sys) returns (v: Sys)
    requires TooLong(cfg, rows) && cfg.window.Valid() && !Emits(cfg.window, j) && i <= 2 && j < |rows|
    requires Rested(cfg, rows, 3 * j + i, if i == 0 then j else j + 1, s)
    requires AtRound(cfg, FirstDropped(rows), Schedule(cfg, rows), 3 * j + i, s)
    ensures Rested(cfg, rows, 3 * j + i + 1, j + 1, v)
    ensures AtRound(cfg, FirstDropped(rows), Schedule(cfg, rows), 3 * j + i + 1, v)
  {
    hide TooLong, Start, Records, Count, Emits, Loop, Expired, Table, FirstDropped, Schedule, TxProcessOnce;
    hide QueueWindow, Reachable, IsDone, RxMany;
    Parts(cfg, rows);
    var env := FirstDropped(rows);
    EmitsCount(cfg.window, j);
    RestedWaits(cfg, rows, 3 * j + i, if i == 0 then j else j + 1, s);
    OnlySends(cfg, env, s);
    if i == 0 {
      FirstOfBlock(cfg, rows, j, s);
    } else {
      LaterInBlock(cfg, rows, j, i, s);
    }
    EmptyStays(cfg, env, QueueWindow(cfg, env, s));
    SamePlan(cfg, rows, j, i);
    NotDone(cfg, rows, TxProcessOnce(cfg, env, s));
    v := NextQuietRound(cfg, env, Schedule(cfg, rows), 3 * j + i, s);
    TableSame(cfg, rows, Count(cfg.window, j + 1), s, v);
  }

  lemma TableSame(cfg: Config, rows: seq<Row>, c: nat, s: Sys, t: Sys)
    requires cfg.window.Valid() && |Records(cfg, rows)| == 257 && c <= 256
    requires Table(cfg, rows, c, s) && t.gate == s.gate && t.link.usedAb == s.link.usedAb
    ensures Table(cfg, rows, c, t)
  {
    hide Records, Start, LengthOf;
  }

  // ---------------------------------------------------------------------
  // A block with a window
  // ---------------------------------------------------------------------

  lemma OneKey(m: map<byte, Inflight>)
    requires m.Keys <= {0}
    ensures |m| <= 1
  {
    assert |m| == |m.Keys|;
    if m.Keys != {} {
      assert m.Keys == {0};
    }
  }

  /** The gate opens a spacing after the last transmission. */
  lemma GateOpens(cfg: Config, rows: seq<Row>, c: nat, s: Sys)
    requires TooLong(cfg, rows) && cfg.window.Valid() && c <= 256
    requires Table(cfg, rows, c, s) && s.now == Start(cfg, rows, c)
    ensures CanSend(cfg, s.gate, s.now)
  {
    hide PaceDeadline, Start, Records, LengthOf, Config.Spacing;
    OneKey(s.gate.inflight);
    if c > 0 {
      NextStart(cfg, rows, c - 1);
      DeadlineAfter(cfg, s.gate, LengthOf(cfg, rows, c - 1));
    }
  }

  lemma SmallSeq(c: nat)
    requires c <= 255
    ensures SeqOf(c) == c
  {
  }

  /** What sending window c leaves in the gate. */
  lemma GateAfter(cfg: Config, rows: seq<Row>, c: nat, g: Gate, now: int)
    requires TooLong(cfg, rows) && cfg.window.Valid() && |Records(cfg, rows)| == 257 && c <= 255
    requires g.inflight.Keys == if c == 0 then {} else {0}
    ensures var n := LengthOf(cfg, rows, c);
            var h := RecordSend(g, now, SeqOf(c), cfg.toaMs(n), cfg.ackTimeoutMs(n));
            && h.inflight.Keys == {0, SeqOf(c)} && h.lastTxMs == Some(now) && h.lastToaMs == cfg.toaMs(n)
            && h.inflight[SeqOf(c)].lastTxMs == now && h.inflight[SeqOf(c)].attempts == 1
            && h.inflight[SeqOf(c)].ackTimeoutMs == cfg.ackTimeoutMs(n)
            && (c > 0 ==> h.inflight[0] == g.inflight[0])
  {
    hide Records, Start, LengthOf;
    SmallSeq(c);
    assert SeqOf(c) !in g.inflight;
    assert {} + {SeqOf(c)} == {SeqOf(c)} && {0} + {SeqOf(c)} == {0, SeqOf(c)};
  }

  /** The entry of the window just sent. */
  ghost predicate JustFlying(cfg: Config, rows: seq<Row>, c: nat, s: Sys)
    requires cfg.window.Valid() && c < |Records(cfg, rows)|
  {
    var k: byte := SeqOf(c);
    && k in s.gate.inflight && s.gate.inflight[k].lastTxMs == Start(cfg, rows, c) && s.gate.inflight[k].attempts == 1
    && s.gate.inflight[k].ackTimeoutMs == cfg.ackTimeoutMs(LengthOf(cfg, rows, c))
  }

  /** Window c goes out, and window 0 is dropped. */
  lemma Sends(cfg: Config, rows: seq<Row>, r: nat, j: nat, c: nat, q: Sys)
    requires TooLong(cfg, rows) && cfg.window.Valid() && c <= 255
    requires Table(cfg, rows, c, q) && q.now == Start(cfg, rows, c) && q.payloads.Keys == q.gate.inflight.Keys
    requires q.samplesTaken == r && j <= |rows| && q.fed == rows[..j] && !q.noMoreSamples && q.lost == {}
    requires q.sent == c && q.link.toA == [] && q.link.toB == [] && q.seqNo == SeqOf(c)
    requires q.pending == [PendingWindow(c, cfg.encode(Records(cfg, rows)[c]), q.now)]
    ensures var t := SendNext(cfg, FirstDropped(rows), q);
            && Flying(cfg, rows, r, j, c, t) && JustFlying(cfg, rows, c, t)
            && OnTheWay(cfg, rows, c, q.now + cfg.latencyMs, t) && t.now == q.now
  {
    hide TooLong, DataFrame, Records, RecordSend, Start, SeqOf;
    Parts(cfg, rows);
    SmallSeq(c);
    var n := LengthOf(cfg, rows, c);
    GateAfter(cfg, rows, c, q.gate, q.now);
    var d := Delivery(q.now + cfg.latencyMs, DataFrame(SeqOf(c), q.pending[0].payload));
    assert Insert([], d) == [d];
  }

  lemma FirstRound(cfg: Config, rows: seq<Row>, j: nat, s: Sys) returns (v: Sys)
    requires TooLong(cfg, rows) && cfg.window.Valid() && Emits(cfg.window, j) && Count(cfg.window, j) <= 255
    requires Rested(cfg, rows, 3 * j, j, s) && j < |rows|
    requires AtRound(cfg, FirstDropped(rows), Schedule(cfg, rows), 3 * j, s)
    ensures var c := Count(cfg.window, j);
            && Flying(cfg, rows, 3 * j + 1, j + 1, c, v) && JustFlying(cfg, rows, c, v)
            && OnTheWay(cfg, rows, c, v.now, v) && v.now == Start(cfg, rows, c) + cfg.latencyMs
    ensures AtRound(cfg, FirstDropped(rows), Schedule(cfg, rows), 3 * j + 1, v)
  {
    hide TooLong, Start, Records, Count, Emits, Loop, Expired, Table, FirstDropped, Schedule, TxProcessOnce;
    hide QueueWindow, Reachable, IsDone, RxMany, CanSend, SendNext, Flying, JustFlying, OnTheWay, SeqOf;
    Parts(cfg, rows);
    var env, c := FirstDropped(rows), Count(cfg.window, j);
    var q := QueueWindow(cfg, env, s);
    RestedWaits(cfg, rows, 3 * j, j, s);
    OnlySends(cfg, env, s);
    FirstOfBlock(cfg, rows, j, s);
    PayloadKeys(cfg, env, s);
    TableSame(cfg, rows, c, s, q);
    GateOpens(cfg, rows, c, q);
    Sends(cfg, rows, 3 * j + 1, j + 1, c, q);
    SamePlan(cfg, rows, j, 0);
    var u := TxProcessOnce(cfg, env, s);
    FlyingParts(cfg, rows, 3 * j + 1, j + 1, c, u);
    NotDone(cfg, rows, u);
    v := NextQuietRound(cfg, env, Schedule(cfg, rows), 3 * j, s);
    FlyingSame(cfg, rows, 3 * j + 1, 3 * j + 1, j + 1, c, u, v);
    JustSame(cfg, rows, c, u, v);
    WaySame(cfg, rows, c, u.now + cfg.latencyMs, u, v);
  }

  lemma FlyingParts(cfg: Config, rows: seq<Row>, r: nat, j: nat, c: nat, s: Sys)
    requires cfg.window.Valid() && |Records(cfg, rows)| == 257 && c <= 256 && Flying(cfg, rows, r, j, c, s)
    ensures Calm(rows, r, j, c + 1, s)
  {
  }

  lemma FlyingSame(cfg: Config, rows: seq<Row>, r: nat, next: nat, j: nat, c: nat, s: Sys, t: Sys)
    requires cfg.window.Valid() && |Records(cfg, rows)| == 257 && c <= 256 && Flying(cfg, rows, r, j, c, s)
    requires t.gate == s.gate && t.samplesTaken == next && t.fed == s.fed && t.link.usedAb == s.link.usedAb
    requires t.noMoreSamples == s.noMoreSamples && t.pending == s.pending && t.lost == s.lost && t.sent == s.sent
    ensures Flying(cfg, rows, next, j, c, t)
  {
    hide Records, Start, LengthOf;
  }

  lemma JustSame(cfg: Config, rows: seq<Row>, c: nat, s: Sys, t: Sys)
    requires cfg.window.Valid() && c < |Records(cfg, rows)| && JustFlying(cfg, rows, c, s) && t.gate == s.gate
    ensures JustFlying(cfg, rows, c, t)
  {
  }

  lemma WaySame(cfg: Config, rows: seq<Row>, c: nat, at: int, s: Sys, t: Sys)
    requires cfg.window.Valid() && c < |Records(cfg, rows)| && OnTheWay(cfg, rows, c, at, s) && t.link == s.link
    ensures OnTheWay(cfg, rows, c, at, t)
  {
  }

  // ---------------------------------------------------------------------
  // A latency later
  // ---------------------------------------------------------------------

  /** Giving up what is due leaves window 0 where it is. */
  lemma GivingUp(cfg: Config, env: Env, s: Sys)
    requires cfg.Valid() && Reachable(cfg, env, s) && 0 in s.gate.inflight && !Expired(s.gate.inflight[0], s.now)
    ensures var t := FailAll(s, ExpiredFailures(cfg, s.gate, s.now, s.gate.order));
            && 0 in t.gate.inflight && t.gate.inflight[0] == s.gate.inflight[0] && SamplerSame(s, t)
            && t.pending == s.pending && t.link == s.link && t.sent == s.sent && t.lost == s.lost
            && t.gate.lastTxMs == s.gate.lastTxMs && t.gate.lastToaMs == s.gate.lastToaMs
            && forall k <- t.gate.inflight :: k in s.gate.inflight
  {
    hide Reachable, FailAll, ExpiredFailures, Expired;
    OrderInvariant(cfg, env, s);
    var dead := ExpiredFailures(cfg, s.gate, s.now, s.gate.order);
    ExpiredFailuresDue(cfg, s.gate, s.now, s.gate.order);
    assert !FailureDue(cfg, s.gate, s.now, 0);
    forall i | 0 <= i < |dead| ensures dead[i] in s.gate.inflight {
      assert dead[i] in dead;
    }
    FailAllRemoves(s, dead);
    FailAllKeepsSampler(s, dead);
  }

  /** Either nothing has expired yet, or the gate is still closed. */
  lemma NothingResent(cfg: Config, rows: seq<Row>, r: nat, j: nat, c: nat, q: Sys)
    requires TooLong(cfg, rows) && cfg.window.Valid() && c <= 255 && q.now == Start(cfg, rows, c) + cfg.latencyMs
    requires Flying(cfg, rows, r, j, c, q) && JustFlying(cfg, rows, c, q) && TableInv(cfg, q)
    requires OrderInv(q.gate)
    ensures RetryAll(cfg, FirstDropped(rows), q, ExpiredSequences(cfg, q.gate, q.now, q.gate.order)) == q
    ensures !Expired(q.gate.inflight[0], q.now)
  {
    hide TooLong, Records, Start, LengthOf, PaceDeadline, Config.Spacing, FirstDropped, ExpiredSequences;
    Parts(cfg, rows);
    NextStart(cfg, rows, c);
    PinnedWaits(cfg, rows, q);
    if cfg.latencyMs == 0 {
      forall k <- q.gate.inflight ensures !Expired(q.gate.inflight[k], q.now) {
        assert EntryInv(q.gate.inflight[k], k, q.now);
      }
      NothingDueIn(cfg, q, q.gate.order);
    } else {
      DeadlineAfter(cfg, q.gate, LengthOf(cfg, rows, c));
      RetryAllShut(cfg, FirstDropped(rows), q, ExpiredSequences(cfg, q.gate, q.now, q.gate.order));
    }
  }

  lemma SecondCall(cfg: Config, rows: seq<Row>, j: nat, c: nat, s: Sys)
    requires TooLong(cfg, rows) && cfg.window.Valid() && c <= 255
    requires Flying(cfg, rows, 3 * j + 1, j + 1, c, s) && JustFlying(cfg, rows, c, s)
    requires OnTheWay(cfg, rows, c, s.now, s) && s.now == Start(cfg, rows, c) + cfg.latencyMs
    requires Reachable(cfg, FirstDropped(rows), s)
    ensures var u := TxProcessOnce(cfg, FirstDropped(rows), s);
            && Flying(cfg, rows, 3 * j + 2, j + 1, c, u) && OnTheWay(cfg, rows, c, s.now, u) && u.now == s.now
  {
    hide TooLong, Start, Records, FirstDropped, QueueWindow, Reachable, SeqOf, DataFrame, RetryAll, FailAll, Expired;
    hide ExpiredSequences, ExpiredFailures, LengthOf, TableInv, DataInv, SampleInv, FromSampler, OrderInv;
    Parts(cfg, rows);
    var env := FirstDropped(rows);
    LaterInBlock(cfg, rows, j, 1, s);
    var q := QueueWindow(cfg, env, s);
    StepReachable(cfg, env, s, Sampling);
    StateParts(cfg, env, q);
    assert HandleIncoming(cfg, q) == q;
    NothingResent(cfg, rows, 3 * j + 2, j + 1, c, q);
    GivingUp(cfg, env, q);
    EmptyStays(cfg, env, RetryExpired(cfg, env, q));
  }

  /** The receiver reads the frame and answers it. */
  lemma Answers(cfg: Config, rows: seq<Row>, c: nat, u: Sys)
    requires cfg.Valid() && cfg.window.Valid() && c < |Records(cfg, rows)| && OnTheWay(cfg, rows, c, u.now, u)
    ensures var t := RxMany(cfg, FirstDropped(rows), u, 1);
            && t == u.(link := t.link, log := t.log, ackSeq := t.ackSeq, rxOkCount := t.rxOkCount)
            && t.link.usedAb == u.link.usedAb && OnTheWayBack(c, u.now + cfg.latencyMs, t)
  {
    hide DataFrame, ParseData, SeqOf, Records;
    var env, k := FirstDropped(rows), SeqOf(c);
    var t := RxProcessOnce(cfg, env, u);
    assert RxMany(cfg, env, u, 1) == RxMany(cfg, env, t, 0) == t;
    if c > 0 {
      ArqAckSound.FrameParses(cfg, k, cfg.encode(Records(cfg, rows)[c]));
      var d := Delivery(u.now + cfg.latencyMs, AckFrame(u.ackSeq, k));
      assert Insert([], d) == [d];
    }
  }

  lemma SecondRound(cfg: Config, rows: seq<Row>, j: nat, s: Sys) returns (v: Sys)
    requires TooLong(cfg, rows) && cfg.window.Valid() && Emits(cfg.window, j) && Count(cfg.window, j) <= 255
    requires var c := Count(cfg.window, j);
             && Flying(cfg, rows, 3 * j + 1, j + 1, c, s) && JustFlying(cfg, rows, c, s)
             && OnTheWay(cfg, rows, c, s.now, s) && s.now == Start(cfg, rows, c) + cfg.latencyMs
    requires AtRound(cfg, FirstDropped(rows), Schedule(cfg, rows), 3 * j + 1, s)
    ensures var c := Count(cfg.window, j);
            && Flying(cfg, rows, 3 * j + 2, j + 1, c, v) && OnTheWayBack(c, v.now, v)
            && v.now == Start(cfg, rows, c) + 2 * cfg.latencyMs
    ensures AtRound(cfg, FirstDropped(rows), Schedule(cfg, rows), 3 * j + 2, v)
  {
    hide TooLong, Start, Records, Count, Emits, Loop, FirstDropped, Schedule, TxProcessOnce, Reachable, IsDone, RxMany;
    hide Flying, JustFlying, OnTheWay, SeqOf;
    Parts(cfg, rows);
    var env, c := FirstDropped(rows), Count(cfg.window, j);
    SecondCall(cfg, rows, j, c, s);
    SamePlan(cfg, rows, j, 1);
    var u := TxProcessOnce(cfg, env, s);
    Answers(cfg, rows, c, u);
    var t := RxMany(cfg, env, u, 1);
    FlyingParts(cfg, rows, 3 * j + 2, j + 1, c, u);
    NotDone(cfg, rows, t);
    v := NextRound(cfg, env, Schedule(cfg, rows), 3 * j + 1, s);
    FlyingSame(cfg, rows, 3 * j + 2, 3 * j + 2, j + 1, c, u, v);
  }

  // ---------------------------------------------------------------------
  // Another latency later
  // ---------------------------------------------------------------------

  /** The transmitter reads the answer. */
  lemma IsAnswered(cfg: Config, rows: seq<Row>, r: nat, j: nat, c: nat, q: Sys)
    requires TooLong(cfg, rows) && cfg.window.Valid() && c <= 255
    requires Flying(cfg, rows, r, j, c, q) && OnTheWayBack(c, q.now, q)
    ensures var h := HandleIncoming(cfg, q);
            && h == q.(gate := h.gate, payloads := h.payloads, log := h.log, link := h.link)
            && h.link.toA == [] && h.link.toB == [] && Table(cfg, rows, c + 1, h)
  {
    hide TooLong, Records, Start, LengthOf, Without, AckEvent, SeqOf, Calm;
    Parts(cfg, rows);
    SmallSeq(c);
    var k: byte := SeqOf(c);
    if c == 0 {
      assert HandleIncoming(cfg, q) == q;
      assert q.gate.inflight.Keys == {0};
    } else {
      var f := q.link.toA[0].frame;
      assert f[2..] == [k];
      assert ParseReply(cfg, f) == AckFor(k);
      var h := HandleFrame(cfg, q);
      assert h.gate.inflight.Keys == {0};
      assert HandleIncoming(cfg, h) == h;
    }
  }

  lemma ThirdCall(cfg: Config, rows: seq<Row>, j: nat, c: nat, s: Sys)
    requires TooLong(cfg, rows) && cfg.window.Valid() && c <= 255 && s.now <= Start(cfg, rows, 256)
    requires Flying(cfg, rows, 3 * j + 2, j + 1, c, s) && OnTheWayBack(c, s.now, s)
    requires Reachable(cfg, FirstDropped(rows), s)
    ensures var u := TxProcessOnce(cfg, FirstDropped(rows), s);
            && u == s.(samplesTaken := 3 * j + 3, gate := u.gate, payloads := u.payloads, log := u.log, link := u.link)
            && u.link.toA == [] && u.link.toB == [] && Table(cfg, rows, c + 1, u)
  {
    hide TooLong, Start, Records, FirstDropped, QueueWindow, HandleIncoming, RetryExpired, Expired, SeqOf, Reachable;
    hide Flying, OnTheWayBack, Table;
    Parts(cfg, rows);
    var env := FirstDropped(rows);
    FlyingParts(cfg, rows, 3 * j + 2, j + 1, c, s);
    LaterInBlock(cfg, rows, j, 2, s);
    var q := QueueWindow(cfg, env, s);
    FlyingSame(cfg, rows, 3 * j + 2, 3 * j + 3, j + 1, c, s, q);
    BackSame(c, s, q);
    IsAnswered(cfg, rows, 3 * j + 3, j + 1, c, q);
    var h := HandleIncoming(cfg, q);
    TableWaits(cfg, rows, c + 1, h);
    NothingDue(cfg, env, h);
    EmptyStays(cfg, env, h);
  }

  lemma BackSame(c: nat, s: Sys, t: Sys)
    requires OnTheWayBack(c, s.now, s) && t.link == s.link && t.now == s.now
    ensures OnTheWayBack(c, t.now, t)
  {
  }

  lemma ThirdRound(cfg: Config, rows: seq<Row>, j: nat, s: Sys) returns (v: Sys)
    requires TooLong(cfg, rows) && cfg.window.Valid() && Emits(cfg.window, j) && Count(cfg.window, j) <= 255
    requires var c := Count(cfg.window, j);
             && Flying(cfg, rows, 3 * j + 2, j + 1, c, s) && OnTheWayBack(c, s.now, s)
             && s.now == Start(cfg, rows, c) + 2 * cfg.latencyMs
    requires AtRound(cfg, FirstDropped(rows), Schedule(cfg, rows), 3 * j + 2, s)
    ensures Rested(cfg, rows, 3 * j + 3, j + 1, v)
    ensures AtRound(cfg, FirstDropped(rows), Schedule(cfg, rows), 3 * j + 3, v)
  {
    hide TooLong, Start, Records, Count, Emits, Loop, FirstDropped, Schedule, TxProcessOnce, Reachable, IsDone, RxMany;
    hide Flying, Table, SeqOf, LengthOf, Config.Spacing;
    Parts(cfg, rows);
    var env, c := FirstDropped(rows), Count(cfg.window, j);
    FlyingParts(cfg, rows, 3 * j + 2, j + 1, c, s);
    EmitsCount(cfg.window, j);
    NextStart(cfg, rows, c);
    ThirdCall(cfg, rows, j, c, s);
    SamePlan(cfg, rows, j, 2);
    var u := TxProcessOnce(cfg, env, s);
    NotDone(cfg, rows, u);
    v := NextQuietRound(cfg, env, Schedule(cfg, rows), 3 * j + 2, s);
    TableSame(cfg, rows, c + 1, u, v);
  }

  // ---------------------------------------------------------------------
  // The run
  // ---------------------------------------------------------------------

  /** One block. */
  lemma OneBlock(cfg: Config, rows: seq<Row>, j: nat, s: Sys) returns (v: Sys)
    requires TooLong(cfg, rows) && cfg.window.Valid() && Count(cfg.window, j + 1) <= 256 && j < |rows|
    requires |Records(cfg, rows)| == 257
    requires Rested(cfg, rows, 3 * j, j, s) && AtRound(cfg, FirstDropped(rows), Schedule(cfg, rows), 3 * j, s)
    ensures Rested(cfg, rows, 3 * (j + 1), j + 1, v)
    ensures AtRound(cfg, FirstDropped(rows), Schedule(cfg, rows), 3 * (j + 1), v)
  {
    hide TooLong, Count, Emits, Rested, AtRound, Flying, JustFlying, OnTheWay, OnTheWayBack, Records, Start;
    EmitsCount(cfg.window, j);
    if Emits(cfg.window, j) {
      var a := FirstRound(cfg, rows, j, s);
      var b := SecondRound(cfg, rows, j, a);
      v := ThirdRound(cfg, rows, j, b);
    } else {
      var a := QuietRound(cfg, rows, j, 0, s);
      var b := QuietRound(cfg, rows, j, 1, a);
      v := QuietRound(cfg, rows, j, 2, b);
    }
  }

  lemma Starts(cfg: Config, rows: seq<Row>)
    requires TooLong(cfg, rows) && cfg.window.Valid() && |Records(cfg, rows)| == 257
    ensures Rested(cfg, rows, 0, 0, Init(0))
  {
    hide Records, Start;
    Parts(cfg, rows);
  }

  lemma {:induction false} Blocks(cfg: Config, rows: seq<Row>, j: nat) returns (s: Sys)
    requires TooLong(cfg, rows) && cfg.window.Valid() && |Records(cfg, rows)| == 257
    requires Count(cfg.window, j) <= 256 && j <= |rows|
    ensures Rested(cfg, rows, 3 * j, j, s) && AtRound(cfg, FirstDropped(rows), Schedule(cfg, rows), 3 * j, s)
    decreases j
  {
    hide TooLong, Count, Rested, AtRound, Init, Records;
    if j == 0 {
      s := Init(0);
      Starts(cfg, rows);
      AtStart(cfg, FirstDropped(rows), Schedule(cfg, rows));
    } else {
      EmitsCount(cfg.window, j - 1);
      var before := Blocks(cfg, rows, j - 1);
      s := OneBlock(cfg, rows, j - 1, before);
    }
  }

  lemma LosesFirst(cfg: Config, env: Env, s: Sys)
    requires s.pending != [] && s.seqNo == SeqOf(256) && 0 in s.payloads && s.payloads[0].id == 0 && s.lost == {}
    ensures SendNext(cfg, env, s).lost == {0}
  {
    hide SendFromA, RecordSend, DataFrame;
  }

  lemma HoldsFirst(cfg: Config, env: Env, s: Sys)
    requires cfg.Valid() && Reachable(cfg, env, s) && s.sent <= 256 && 0 in s.payloads
    ensures s.payloads[0].id == 0
  {
    hide Reachable, SampleInv, Encodes, SentInv;
    CoreParts(cfg, env, s);
    assert HeldInv(cfg, s, 0, s.payloads[0]);
  }

  /** Window 256 is due. */
  lemma LastCall(cfg: Config, rows: seq<Row>, j: nat, s: Sys)
    requires TooLong(cfg, rows) && cfg.window.Valid() && Emits(cfg.window, j) && Count(cfg.window, j) == 256
    requires |Records(cfg, rows)| == 257 && j < |rows|
    requires Rested(cfg, rows, 3 * j, j, s) && Reachable(cfg, FirstDropped(rows), s)
    ensures TxProcessOnce(cfg, FirstDropped(rows), s).lost == {0}
  {
    hide TooLong, Start, Records, Count, Emits, Expired, FirstDropped, TxProcessOnce, QueueWindow, Reachable;
    hide CanSend, SendNext, LengthOf;
    Parts(cfg, rows);
    var env := FirstDropped(rows);
    var q := QueueWindow(cfg, env, s);
    RestedWaits(cfg, rows, 3 * j, j, s);
    OnlySends(cfg, env, s);
    FirstOfBlock(cfg, rows, j, s);
    PayloadKeys(cfg, env, s);
    HoldsFirst(cfg, env, s);
    GateOpens(cfg, rows, 256, q);
    LosesFirst(cfg, env, q);
  }

  lemma LostInLoop(cfg: Config, env: Env, s: Sys, plan: nat -> Pause, r: nat)
    requires cfg.window.Valid() && plan(r).rxSteps == 0
    ensures Loop(cfg, env, s, plan, r, 1).lost == TxProcessOnce(cfg, env, s).lost
  {
    hide TxProcessOnce, IsDone;
    var u := TxProcessOnce(cfg, env, s);
    assert RxMany(cfg, env, u, 0) == u;
    assert Loop(cfg, env, Tick(u, plan(r).ms), plan, r + 1, 0) == Tick(u, plan(r).ms);
  }

  lemma RowsAreGiven(rows: seq<Row>, dims: nat)
    requires Fit(rows, dims)
    ensures RowsFit(FirstDropped(rows), dims)
  {
  }

  /** With such rows, and any retry limit, one dropped frame is enough: in this run of the transmit loop window 256
      takes over the table entry of window 0, which is then never reported. */
  lemma ReuseHappens(cfg: Config, rows: seq<Row>) returns (env: Env, plan: nat -> Pause, m: nat)
    requires cfg.window.Valid() && TooLong(cfg, rows)
    ensures forall dims: nat :: Fit(rows, dims) ==> RowsFit(env, dims)
    ensures (forall i: nat :: env.dropAb(i) <==> i == 0) && (forall i: nat :: !env.dropBa(i))
    ensures Loop(cfg, env, Init(0), plan, 0, m).lost == {0}
  {
    hide TooLong, Reachable, Count, Loop, Init, TxProcessOnce, Emits, Rested, RowsFit, Records, Fit;
    Parts(cfg, rows);
    var w := cfg.window;
    var j := |rows| - 1;
    RowsNeeded(w, j, 256);
    RowsNeeded(w, j, 257);
    RowsNeeded(w, j + 1, 257);
    EmitsCount(w, j);
    var s := Blocks(cfg, rows, j);
    env, plan, m := FirstDropped(rows), Schedule(cfg, rows), 3 * j + 1;
    SamePlan(cfg, rows, j, 0);
    LastCall(cfg, rows, j, s);
    LostInLoop(cfg, env, s, plan, 3 * j);
    assert Loop(cfg, env, Init(0), plan, 0, m) == Loop(cfg, env, s, plan, 3 * j, m - 3 * j);
    forall dims: nat | Fit(rows, dims) ensures RowsFit(env, dims) {
      RowsAreGiven(rows, dims);
    }
  }

  // ---------------------------------------------------------------------
  // The exact condition
  // ---------------------------------------------------------------------

  /** No run of the transmit loop with rows of this length ever reuses a SEQ in flight. */
  ghost predicate NeverReuses(cfg: Config, dims: nat)
    requires cfg.window.Valid()
  {
    forall env: Env, start: nat, plan: nat -> Pause, m: nat ::
      RowsFit(env, dims) ==> Loop(cfg, env, Init(start), plan, 0, m).lost == {}
  }

  /** Of any 256 consecutive windows, the first one's frame expires within the spacings of all of them. */
  ghost predicate AlwaysInTime(cfg: Config, dims: nat)
    requires cfg.window.Valid()
  {
    forall rows: seq<Row> ::
      |rows| == RowsOf(cfg.window, 256) && Fit(rows, dims) ==> InTime(cfg, Records(cfg, rows))
  }

  /** Every frame keeps the channel for at least a round trip. */
  ghost predicate ShortTrips(cfg: Config, dims: nat) {
    forall rows: seq<Row> ::
      |rows| == cfg.window.W && Fit(rows, dims) ==>
        2 * cfg.latencyMs <= cfg.Spacing(FrameLength(cfg, Flatten(rows)))
  }

  lemma InTimeHere(cfg: Config, env: Env, dims: nat)
    requires cfg.window.Valid() && RowsFit(env, dims) && AlwaysInTime(cfg, dims)
    ensures ExpiresInTime(cfg, env)
  {
    hide RowsFit, FromSampler, Fit, Emitted, InTime;
    forall rows: seq<Row> | |rows| == RowsOf(cfg.window, 256) && FromSampler(env, rows)
      ensures InTime(cfg, Emitted(cfg.window, rows))
    {
      GivenFit(env, dims, rows);
      assert InTime(cfg, Records(cfg, rows));
    }
  }

  lemma TripsAreShort(cfg: Config, dims: nat, rows: seq<Row>, c: nat)
    requires cfg.window.Valid() && ShortTrips(cfg, dims) && Fit(rows, dims) && c < |Records(cfg, rows)|
    ensures 2 * cfg.latencyMs <= cfg.Spacing(LengthOf(cfg, rows, c))
  {
    hide Emitted, Flatten, Config.Spacing, FrameLength;
    var from := c * cfg.window.stride;
    RecordAt(cfg.window, rows, c, from);
    var part := rows[from..from + cfg.window.W];
    assert Fit(part, dims);
  }

  /** Rows for one more window. */
  lemma Extended(cfg: Config, dims: nat, rows: seq<Row>) returns (more: seq<Row>)
    requires cfg.Valid() && cfg.maxInflight >= 2 && (cfg.maxWindows.Some? ==> cfg.maxWindows.value > 256)
    requires ShortTrips(cfg, dims) && Fit(rows, dims) && |rows| == RowsOf(cfg.window, 256)
    requires !InTime(cfg, Records(cfg, rows))
    ensures TooLong(cfg, more) && Fit(more, dims)
  {
    hide Emitted, ShortTrips, Config.Spacing, FrameLength, Busy;
    var w := cfg.window;
    more := rows + seq(w.stride, i => Zeros(dims));
    RecordsOfRows(w, rows, 256);
    RecordsOfRows(w, more, 257);
    var records, others := Records(cfg, more), Records(cfg, rows);
    assert PartAt(more, 0, rows);
    forall i | 0 <= i < 256 ensures records[i + 0] == others[i] {
      SameRecord(w, more, 0, rows, 0, i);
    }
    BusySame(cfg, records, others, 0, 0, 256);
    forall c | 0 <= c < 257 ensures 2 * cfg.latencyMs <= cfg.Spacing(LengthOf(cfg, more, c)) {
      TripsAreShort(cfg, dims, more, c);
    }
    assert records[0 + 0] == others[0];
  }

  lemma FewWindows(cfg: Config, env: Env, s: Sys)
    requires cfg.Valid() && Reachable(cfg, env, s) && cfg.maxWindows.Some? && cfg.maxWindows.value <= 256
    ensures s.lost == {}
  {
    hide Reachable, DataInv, SampleInv;
    CoreParts(cfg, env, s);
    SentAtMostGenerated(cfg, s);
    NoReuseByCount(cfg, env, s);
  }

  /** Without retries, and with round trips within the spacings: no SEQ is ever reused in flight if and only if
      frames always expire in time, or the table has one place, or at most 256 windows are sent. */
  lemma NoReuseIff(cfg: Config, dims: nat)
    requires cfg.Valid() && cfg.maxRetries == 0 && ShortTrips(cfg, dims)
    ensures NeverReuses(cfg, dims)
            <==> || AlwaysInTime(cfg, dims)
                 || cfg.maxInflight == 1
                 || (cfg.maxWindows.Some? && cfg.maxWindows.value <= 256)
  {
    hide Reachable, RowsFit, ExpiresInTime, Loop, Init, ShortTrips, InTime, TooLong, Fit;
    if || AlwaysInTime(cfg, dims)
       || cfg.maxInflight == 1
       || (cfg.maxWindows.Some? && cfg.maxWindows.value <= 256)
    {
      forall env: Env, start: nat, plan: nat -> Pause, m: nat | RowsFit(env, dims)
        ensures Loop(cfg, env, Init(start), plan, 0, m).lost == {}
      {
        var s := Loop(cfg, env, Init(start), plan, 0, m);
        InitReachable(cfg, env, start);
        LoopReachable(cfg, env, Init(start), plan, 0, m);
        if cfg.maxInflight == 1 {
          NoReuseByCount(cfg, env, s);
        } else if AlwaysInTime(cfg, dims) {
          InTimeHere(cfg, env, dims);
          SeqWrapIsSafe(cfg, env, s);
        } else {
          FewWindows(cfg, env, s);
        }
      }
    } else {
      var rows: seq<Row> :|
        |rows| == RowsOf(cfg.window, 256) && Fit(rows, dims) && !InTime(cfg, Records(cfg, rows));
      var more := Extended(cfg, dims, rows);
      var env, plan, m := ReuseHappens(cfg, more);
      assert !NeverReuses(cfg, dims);
    }
  }

  /** For frames of one length: they expire in time if and only if the timeout is at most 256 spacings. */
  lemma UniformInTimeIff(cfg: Config, dims: nat, n: nat)
    requires cfg.Valid() && Uniform(cfg, dims, n)
    ensures AlwaysInTime(cfg, dims) <==> cfg.ackTimeoutMs(n) <= 256 * cfg.Spacing(n)
  {
    hide Emitted, Flatten, Config.Spacing, InTime, Uniform, Fit;
    forall rows: seq<Row> | |rows| == RowsOf(cfg.window, 256) && Fit(rows, dims)
      ensures InTime(cfg, Records(cfg, rows)) <==> cfg.ackTimeoutMs(n) <= 256 * cfg.Spacing(n)
    {
      UniformInTime(cfg, dims, n, rows);
    }
    var zeros := seq(RowsOf(cfg.window, 256), i => Zeros(dims));
    assert Fit(zeros, dims) by { ZerosFit(dims, zeros); }
  }

  lemma ZerosFit(dims: nat, rows: seq<Row>)
    requires forall i :: 0 <= i < |rows| ==> rows[i] == Zeros(dims)
    ensures Fit(rows, dims)
  {
  }

  lemma UniformInTime(cfg: Config, dims: nat, n: nat, rows: seq<Row>)
    requires cfg.Valid() && Uniform(cfg, dims, n) && |rows| == RowsOf(cfg.window, 256) && Fit(rows, dims)
    ensures InTime(cfg, Records(cfg, rows)) <==> cfg.ackTimeoutMs(n) <= 256 * cfg.Spacing(n)
  {
    hide Emitted, Flatten, Config.Spacing, FrameLength, Busy;
    RecordsOfRows(cfg.window, rows, 256);
    forall c | 0 <= c < 256 ensures FrameLength(cfg, Records(cfg, rows)[c]) == n {
      UniformRecord(cfg, dims, n, rows, c);
    }
    EqualBusy(cfg, Records(cfg, rows), n, 0, 256);
  }

  lemma UniformRecord(cfg: Config, dims: nat, n: nat, rows: seq<Row>, c: nat)
    requires cfg.window.Valid() && Uniform(cfg, dims, n) && Fit(rows, dims) && c < |Records(cfg, rows)|
    ensures FrameLength(cfg, Records(cfg, rows)[c]) == n
  {
    hide Emitted, Flatten;
    var from := c * cfg.window.stride;
    RecordAt(cfg.window, rows, c, from);
    assert Fit(rows[from..from + cfg.window.W], dims);
  }
}
