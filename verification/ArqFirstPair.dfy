/** Runs in which the second transmission overlaps the first: window 1 follows window 0, or window 0 is resent. */
module ArqFirstPair {
  import opened Basics
  import opened Windows
  import opened ArqModel
  import opened ArqRuns
  import opened ArqSampling
  import opened ArqPacing
  import opened ArqRounds
  import opened ArqBackToBack
  import ArqAckSound

  /** The length of the frame made of these rows. */
  function Length(cfg: Config, rows: seq<Row>): nat {
    2 + |cfg.encode(Flatten(rows))|
  }

  /** When the gate opens after a frame of that length, without a guard time. */
  function Slot(cfg: Config, n: nat): int {
    cfg.toaMs(n).Floor
  }

  /** A window of rows whose time on air is not a whole number of milliseconds. */
  ghost predicate Fractional(cfg: Config, dims: nat, rows: seq<Row>) {
    && |rows| == cfg.window.W && Fit(rows, dims)
    && Slot(cfg, Length(cfg, rows)) as real != cfg.toaMs(Length(cfg, rows))
  }

  /** The limit allows n windows. */
  predicate Allows(cfg: Config, n: nat) {
    cfg.maxWindows.Some? ==> n <= cfg.maxWindows.value
  }

  // ---------------------------------------------------------------------
  // Window 0
  // ---------------------------------------------------------------------

  /** The given rows come first, and nothing is dropped. */
  ghost predicate StartsWith(env: Env, rows: seq<Row>) {
    && (forall i: nat :: !env.dropAb(i)) && (forall i: nat :: !env.dropBa(i))
    && (forall i: nat :: i < |rows| ==> env.sample(i) == SampleRow(rows[i]))
  }

  /** The first r rows have been taken, and nothing else has happened. */
  ghost predicate Fresh(rows: seq<Row>, r: nat, s: Sys)
    requires r <= |rows|
  {
    && s.now == 0 && s.gate == EmptyGate && s.payloads == map[] && s.link == Link([], [], 0, 0) && s.log == []
    && s.pending == [] && s.sent == 0 && !s.noMoreSamples && s.samplesTaken == r && s.fed == rows[..r]
  }

  lemma FreshParts(cfg: Config, env: Env, rows: seq<Row>, r: nat, s: Sys)
    requires cfg.Valid() && Reachable(cfg, env, s) && r <= |rows| && Fresh(rows, r, s)
    ensures s.generated == Count(cfg.window, r) == 0 && s.seqNo == 0
    ensures Allows(cfg, 1) ==> WantsSample(cfg, s) && !IsDone(cfg, s)
  {
    hide Reachable, Count;
    AllSent(cfg, env, s);
  }

  lemma FirstEmits(w: WindowSpec, r: nat)
    requires w.Valid() && Count(w, r) == 0
    ensures Emits(w, r) <==> r + 1 == w.W
  {
    hide Count;
    EmitsCount(w, r);
    RowsNeeded(w, r + 1, 1);
  }

  lemma FreshRound(cfg: Config, env: Env, rows: seq<Row>, r: nat, s: Sys)
    requires cfg.Valid() && Allows(cfg, 1) && |rows| == cfg.window.W && StartsWith(env, rows) && r + 1 < |rows|
    requires Reachable(cfg, env, s) && Fresh(rows, r, s)
    ensures Fresh(rows, r + 1, TxProcessOnce(cfg, env, s))
  {
    hide Reachable, Count, Emits, QueueWindow, Flatten, Expired, SendNext, CanSend;
    FreshParts(cfg, env, rows, r, s);
    FirstEmits(cfg.window, r);
    assert env.sample(s.samplesTaken) == SampleRow(rows[r]);
    TakesRow(cfg, env, s, rows[r]);
    OnlySends(cfg, env, s);
  }

  lemma {:induction false} TakesRows(cfg: Config, env: Env, plan: nat -> Pause, rows: seq<Row>, r: nat)
    returns (s: Sys)
    requires cfg.Valid() && Allows(cfg, 1) && |rows| == cfg.window.W && StartsWith(env, rows) && r < |rows|
    requires forall i: nat :: i + 1 < |rows| ==> plan(i) == Pause(0, 0)
    ensures AtRound(cfg, env, plan, r, s) && Fresh(rows, r, s)
    decreases r
  {
    hide AtRound, StartsWith, TxProcessOnce, IsDone, Reachable;
    if r == 0 {
      s := Init(0);
      AtStart(cfg, env, plan);
    } else {
      var before := TakesRows(cfg, env, plan, rows, r - 1);
      AtIsReachable(cfg, env, plan, r - 1, before);
      FreshRound(cfg, env, rows, r - 1, before);
      var u := TxProcessOnce(cfg, env, before);
      TxProcessOnceReachable(cfg, env, before);
      FreshParts(cfg, env, rows, r, u);
      s := NextQuietRound(cfg, env, plan, r - 1, before);
    }
  }

  lemma AtIsReachable(cfg: Config, env: Env, plan: nat -> Pause, r: nat, s: Sys)
    requires cfg.window.Valid() && AtRound(cfg, env, plan, r, s)
    ensures Reachable(cfg, env, s)
  {
  }

  /** Only window 0 is in flight, sent at time 0, and its transmission x is all there is in the log. */
  ghost predicate Alone(cfg: Config, n: nat, x: Event, s: Sys) {
    && x.TxSent? && x.ts == 0 && x.toaMs == cfg.toaMs(n) && Sends(s.log) == [x]
    && 0 in s.gate.inflight && s.gate.inflight.Keys == {0} && s.payloads.Keys == {0}
    && s.gate.inflight[0].lastTxMs == 0 && s.gate.inflight[0].attempts == 1
    && s.gate.inflight[0].ackTimeoutMs == cfg.ackTimeoutMs(n)
    && s.gate.lastTxMs == Some(0) && s.gate.lastToaMs == cfg.toaMs(n) && s.sent == 1
    && s.pending == [] && !s.noMoreSamples
  }

  lemma OneSend(x: Event)
    requires x.TxSent?
    ensures Sends([x]) == [x]
  {
    assert [x][..0] == [];
  }

  lemma Launches(cfg: Config, env: Env, n: nat, q: Sys) returns (x: Event)
    requires !env.dropAb(0) && q.now == 0 && q.gate == EmptyGate && q.payloads == map[] && q.log == []
    requires q.link == Link([], [], 0, 0) && q.sent == 0 && q.seqNo == 0 && !q.noMoreSamples
    requires |q.pending| == 1 && 2 + |q.pending[0].payload| == n
    ensures var t := SendNext(cfg, env, q);
            && Alone(cfg, n, x, t) && t.now == 0 && t.samplesTaken == q.samplesTaken && t.link.toA == []
            && t.link.toB == [Delivery(cfg.latencyMs, DataFrame(0, q.pending[0].payload))]
  {
    hide DataFrame, Sends;
    var d := Delivery(cfg.latencyMs, DataFrame(0, q.pending[0].payload));
    assert Insert([], d) == [d];
    var t := SendNext(cfg, env, q);
    x := t.log[0];
    assert t.log == [x];
    OneSend(x);
    assert t.gate.inflight.Keys == {0} && t.payloads.Keys == {0};
  }

  /** Window 0 goes out in round W - 1. */
  lemma FirstSent(cfg: Config, env: Env, rows: seq<Row>, s: Sys) returns (x: Event)
    requires cfg.Valid() && Allows(cfg, 1) && |rows| == cfg.window.W && StartsWith(env, rows)
    requires Reachable(cfg, env, s) && Fresh(rows, |rows| - 1, s)
    ensures var u, p := TxProcessOnce(cfg, env, s), cfg.encode(Flatten(rows));
            && Alone(cfg, Length(cfg, rows), x, u) && u.now == 0 && u.samplesTaken == |rows|
            && u.link.toA == [] && u.link.toB == [Delivery(cfg.latencyMs, DataFrame(0, p))]
  {
    hide Reachable, Count, Emits, QueueWindow, Flatten, Expired, DataFrame, Sends, SendNext, Alone;
    var r := |rows| - 1;
    FreshParts(cfg, env, rows, r, s);
    FirstEmits(cfg.window, r);
    assert env.sample(s.samplesTaken) == SampleRow(rows[r]);
    TakesRow(cfg, env, s, rows[r]);
    assert rows[..r] + [rows[r]] == rows && rows[0..] == rows;
    OnlySends(cfg, env, s);
    x := Launches(cfg, env, Length(cfg, rows), QueueWindow(cfg, env, s));
  }

  lemma AloneSize(cfg: Config, n: nat, x: Event, s: Sys)
    requires Alone(cfg, n, x, s)
    ensures |s.gate.inflight| == 1 && !IsDone(cfg, s)
  {
    hide Sends;
    assert |s.gate.inflight| == |s.gate.inflight.Keys|;
  }

  lemma AloneGenerated(cfg: Config, env: Env, n: nat, x: Event, s: Sys)
    requires cfg.Valid() && Reachable(cfg, env, s) && Alone(cfg, n, x, s)
    ensures s.generated == 1 && (Allows(cfg, 2) ==> WantsSample(cfg, s))
  {
    hide Reachable, Sends, Count;
    AllSent(cfg, env, s);
  }

  lemma AloneSame(cfg: Config, n: nat, x: Event, s: Sys, t: Sys)
    requires Alone(cfg, n, x, s) && t.gate == s.gate && t.payloads == s.payloads && Sends(t.log) == Sends(s.log)
    requires t.sent == s.sent && t.pending == s.pending && t.noMoreSamples == s.noMoreSamples
    ensures Alone(cfg, n, x, t)
  {
    hide Sends;
  }

  // ---------------------------------------------------------------------
  // Without an answer
  // ---------------------------------------------------------------------

  /** The given rows, then the first of them again and again. */
  function Repeating(rows: seq<Row>): Env
    requires rows != []
  {
    Env((i: nat) => false, (i: nat) => false, (i: nat) => SampleRow(if i < |rows| then rows[i] else rows[0]))
  }

  lemma RepeatingFits(rows: seq<Row>, dims: nat)
    requires rows != [] && Fit(rows, dims)
    ensures RowsFit(Repeating(rows), dims)
  {
  }

  /** After window 0 a pause until the gate opens. */
  function PauseOnce(rows: seq<Row>, ms: int): nat -> Pause {
    (r: nat) => Pause(0, if r + 1 == |rows| then ms else 0)
  }

  /** With room for a second entry, or with window 0 given up by then. */
  ghost predicate NeedsNoAnswer(cfg: Config, n: nat) {
    || (cfg.maxInflight >= 2 && Allows(cfg, 2))
    || (cfg.maxRetries == 0 && cfg.ackTimeoutMs(n) <= Slot(cfg, n) && Allows(cfg, 2))
    || (cfg.maxInflight >= 2 && cfg.maxRetries >= 1 && cfg.ackTimeoutMs(n) <= Slot(cfg, n) && Allows(cfg, 1))
  }

  lemma SlotOpens(cfg: Config, dims: nat, rows: seq<Row>, n: nat, x: Event, s: Sys)
    requires cfg.Valid() && cfg.guardMs == 0 && Fractional(cfg, dims, rows) && n == Length(cfg, rows)
    requires s.gate.lastTxMs == Some(x.ts) && s.gate.lastToaMs == cfg.toaMs(n) && s.now == x.ts + Slot(cfg, n)
    requires x.TxSent? && x.toaMs == cfg.toaMs(n) && LastIs(s.log, x)
    requires |s.gate.inflight| < cfg.maxInflight || forall k <- s.gate.inflight :: FailureDue(cfg, s.gate, s.now, k)
    ensures Open(cfg, s, x)
  {
    hide LastIs, FailureDue, Flatten;
    FloorShift(x.ts, cfg.toaMs(n));
    assert s.gate.lastTxMs.value as real + s.gate.lastToaMs + cfg.guardMs as real == x.ts as real + cfg.toaMs(n);
  }

  lemma SlotNotNegative(cfg: Config, rows: seq<Row>)
    requires cfg.Valid()
    ensures Slot(cfg, Length(cfg, rows)) >= 0
  {
    assert |cfg.encode(Flatten(rows))| <= cfg.maxPayload;
  }

  lemma OpensUnanswered(cfg: Config, dims: nat, rows: seq<Row>, n: nat, x: Event, s: Sys)
    requires cfg.Valid() && cfg.guardMs == 0 && Fractional(cfg, dims, rows) && n == Length(cfg, rows)
    requires NeedsNoAnswer(cfg, n) && Alone(cfg, n, x, s) && s.now == Slot(cfg, n)
    ensures Open(cfg, s, x)
  {
    hide Sends, Flatten, Open;
    AloneSize(cfg, n, x, s);
    if cfg.maxInflight == 1 {
      assert forall k <- s.gate.inflight :: k == 0;
    }
    SlotOpens(cfg, dims, rows, n, x, s);
  }

  /** The second transmission is due: a window may come, or window 0 is to be resent. */
  lemma SomethingComes(cfg: Config, env: Env, n: nat, x: Event, s: Sys)
    requires cfg.Valid() && Reachable(cfg, env, s) && Alone(cfg, n, x, s) && NeedsNoAnswer(cfg, n)
    requires s.now == Slot(cfg, n)
    ensures WantsSample(cfg, s) || ExpiredSequences(cfg, s.gate, s.now, s.gate.order) != []
  {
    hide Reachable, Sends, ExpiredSequences;
    AloneGenerated(cfg, env, n, x, s);
    if !Allows(cfg, 2) {
      OrderInvariant(cfg, env, s);
      ExpiredSequencesDue(cfg, s.gate, s.now, s.gate.order);
      assert RetryDue(cfg, s.gate, s.now, 0);
    }
  }

  lemma Unanswered(cfg: Config, dims: nat, rows: seq<Row>) returns (env: Env, plan: nat -> Pause, m: nat)
    requires cfg.Valid() && cfg.guardMs == 0 && Fractional(cfg, dims, rows)
    requires NeedsNoAnswer(cfg, Length(cfg, rows))
    ensures RowsFit(env, dims) && HasOverlap(Loop(cfg, env, Init(0), plan, 0, m).log)
  {
    hide AtRound, Fresh, TxProcessOnce, IsDone, Loop, Init, HasOverlap, Alone, Open, Flatten, RowsFit, Reachable;
    hide WantsSample, ExpiredSequences;
    var n, w := Length(cfg, rows), |rows|;
    env, plan := Repeating(rows), PauseOnce(rows, Slot(cfg, n));
    RepeatingFits(rows, dims);
    var s := TakesRows(cfg, env, plan, rows, w - 1);
    AtIsReachable(cfg, env, plan, w - 1, s);
    var x := FirstSent(cfg, env, rows, s);
    var u := TxProcessOnce(cfg, env, s);
    AloneSize(cfg, n, x, u);
    var v := NextQuietRound(cfg, env, plan, w - 1, s);
    SlotNotNegative(cfg, rows);
    AloneSame(cfg, n, x, u, v);
    AtIsReachable(cfg, env, plan, w, v);
    OpensUnanswered(cfg, dims, rows, n, x, v);
    SomethingComes(cfg, env, n, x, v);
    AlonePending(cfg, n, x, v);
    m := NextOverlaps(cfg, env, plan, w, v, x);
  }

  lemma AlonePending(cfg: Config, n: nat, x: Event, s: Sys)
    requires Alone(cfg, n, x, s)
    ensures s.pending == [] && !s.noMoreSamples
  {
  }

  // ---------------------------------------------------------------------
  // With an answer
  // ---------------------------------------------------------------------

  /** The given rows, two requests without a row, then the first row again and again. */
  function WithGap(rows: seq<Row>): Env
    requires rows != []
  {
    Env((i: nat) => false, (i: nat) => false,
        (i: nat) =>
          if i == |rows| || i == |rows| + 1 then NoSampleYet
          else SampleRow(if i < |rows| then rows[i] else rows[0]))
  }

  lemma WithGapFits(rows: seq<Row>, dims: nat)
    requires rows != [] && Fit(rows, dims)
    ensures RowsFit(WithGap(rows), dims)
  {
  }

  /** The receiver reads the frame as soon as it is there; the gate opens after its answer. */
  function RoundTrip(cfg: Config, rows: seq<Row>, ms: int): nat -> Pause {
    (r: nat) =>
      if r + 1 == |rows| then Pause(0, cfg.latencyMs)
      else if r == |rows| then Pause(1, cfg.latencyMs)
      else if r == |rows| + 1 then Pause(0, ms - 2 * cfg.latencyMs)
      else Pause(0, 0)
  }

  /** An answer is back before the gate opens, and window 0 is still in flight then. */
  ghost predicate AnswersInTime(cfg: Config, n: nat) {
    && 2 * cfg.latencyMs <= Slot(cfg, n) && Allows(cfg, 2)
    && ((cfg.maxInflight == 1 && cfg.maxRetries >= 1) || cfg.ackTimeoutMs(n) > Slot(cfg, n))
  }

  /** Meanwhile a call of process_once does nothing. */
  lemma Waits(cfg: Config, env: Env, n: nat, x: Event, s: Sys)
    requires cfg.window.Valid() && AnswersInTime(cfg, n) && Alone(cfg, n, x, s) && s.now < Slot(cfg, n) + 1
    ensures RetryExpired(cfg, env, s) == s
  {
    hide Sends;
    if cfg.ackTimeoutMs(n) > Slot(cfg, n) {
      NothingDue(cfg, env, s);
    } else {
      AloneSize(cfg, n, x, s);
      FullTableStays(cfg, env, s);
    }
  }

  /** The receiver reads the frame of a window and answers it. */
  lemma Echoes(cfg: Config, env: Env, k: byte, payload: bytes, s: Sys)
    requires 1 <= cfg.maxPayload <= 255 && |payload| <= cfg.maxPayload && !env.dropBa(s.link.usedBa)
    requires s.link.toA == [] && s.link.toB != [] && s.link.toB[0].at <= s.now
    requires s.link.toB[0].frame == DataFrame(k, payload)
    ensures var t := RxMany(cfg, env, s, 1);
            && t == s.(link := t.link, log := t.log, ackSeq := t.ackSeq, rxOkCount := t.rxOkCount)
            && t.link.toA == [Delivery(s.now + cfg.latencyMs, AckFrame(s.ackSeq, k))]
            && Sends(t.log) == Sends(s.log)
  {
    hide ParseData, DataFrame, AckFrame, Sends;
    ArqAckSound.FrameParses(cfg, k, payload);
    var t := RxProcessOnce(cfg, env, s);
    assert RxMany(cfg, env, t, 0) == t;
    var d := Delivery(s.now + cfg.latencyMs, AckFrame(s.ackSeq, k));
    assert Insert([], d) == [d];
    SendsSnoc2(s.log, RxOk(s.now, k, payload), AckSent(s.now, k));
  }

  /** The transmitter takes an answer for the only window in flight. */
  lemma TakesAnswer(cfg: Config, s: Sys, k: byte, ackSeq: byte)
    requires 1 <= cfg.maxPayload <= 255 && s.gate.inflight.Keys == {k} && |s.link.toA| == 1
    requires s.link.toA[0].at <= s.now && s.link.toA[0].frame == AckFrame(ackSeq, k)
    ensures var h := HandleIncoming(cfg, s);
            && h == s.(gate := h.gate, payloads := h.payloads, log := h.log, link := h.link)
            && h.gate.inflight == map[] && h.link.toA == [] && Sends(h.log) == Sends(s.log)
            && h.gate.lastTxMs == s.gate.lastTxMs && h.gate.lastToaMs == s.gate.lastToaMs
  {
    hide Sends, Without;
    assert k in s.gate.inflight;
    assert AckFrame(ackSeq, k)[2..] == [k];
    assert ParseReply(cfg, s.link.toA[0].frame) == AckFor(k);
    var h := HandleFrame(cfg, s);
    assert h.gate.inflight.Keys == s.gate.inflight.Keys - {k} == {};
    AckEventIsAck(PopA(s), k);
    SendsSnoc(s.log, AckEvent(PopA(s), k));
    assert HandleIncoming(cfg, h) == h;
  }

  /** Round W: the frame is read. */
  lemma FrameRead(cfg: Config, rows: seq<Row>, x: Event, s: Sys) returns (v: Sys, ackSeq: byte)
    requires cfg.Valid() && rows != []
    requires var n, env, plan := Length(cfg, rows), WithGap(rows), RoundTrip(cfg, rows, Slot(cfg, Length(cfg, rows)));
             && AnswersInTime(cfg, n) && Alone(cfg, n, x, s) && AtRound(cfg, env, plan, |rows|, s)
             && s.now == cfg.latencyMs && s.samplesTaken == |rows| && s.link.toA == []
             && s.link.toB == [Delivery(cfg.latencyMs, DataFrame(0, cfg.encode(Flatten(rows))))]
    ensures var n, env, plan := Length(cfg, rows), WithGap(rows), RoundTrip(cfg, rows, Slot(cfg, Length(cfg, rows)));
            && Alone(cfg, n, x, v) && AtRound(cfg, env, plan, |rows| + 1, v)
            && v.now == 2 * cfg.latencyMs && v.samplesTaken == |rows| + 1
            && v.link.toA == [Delivery(v.now, AckFrame(ackSeq, 0))]
  {
    hide Loop, Init, Alone, Flatten, DataFrame, AckFrame, QueueWindow, RetryExpired, WantsSample, IsDone, Reachable;
    hide RxMany;
    var n, env, plan := Length(cfg, rows), WithGap(rows), RoundTrip(cfg, rows, Slot(cfg, Length(cfg, rows)));
    var p := cfg.encode(Flatten(rows));
    AloneGenerated(cfg, env, n, x, s);
    AlonePending(cfg, n, x, s);
    TakesNothing(cfg, env, s);
    var u := QueueWindow(cfg, env, s);
    AloneSame(cfg, n, x, s, u);
    assert HandleIncoming(cfg, u) == u;
    Waits(cfg, env, n, x, u);
    assert TxProcessOnce(cfg, env, s) == u;
    assert |p| <= cfg.maxPayload;
    Echoes(cfg, env, 0, p, u);
    ackSeq := u.ackSeq;
    var t := RxMany(cfg, env, u, 1);
    AloneSame(cfg, n, x, u, t);
    AloneSize(cfg, n, x, t);
    v := NextRound(cfg, env, plan, |rows|, s);
    AloneSame(cfg, n, x, t, v);
  }

  /** Round W + 1: the answer is read. */
  lemma AnswerRead(cfg: Config, dims: nat, rows: seq<Row>, x: Event, s: Sys, ackSeq: byte) returns (v: Sys)
    requires cfg.Valid() && cfg.guardMs == 0 && Fractional(cfg, dims, rows)
    requires var n, env, plan := Length(cfg, rows), WithGap(rows), RoundTrip(cfg, rows, Slot(cfg, Length(cfg, rows)));
             && AnswersInTime(cfg, n) && Alone(cfg, n, x, s) && AtRound(cfg, env, plan, |rows| + 1, s)
             && s.now == 2 * cfg.latencyMs && s.samplesTaken == |rows| + 1
             && s.link.toA == [Delivery(s.now, AckFrame(ackSeq, 0))]
    ensures var env, plan := WithGap(rows), RoundTrip(cfg, rows, Slot(cfg, Length(cfg, rows)));
            && AtRound(cfg, env, plan, |rows| + 2, v) && Open(cfg, v, x) && v.samplesTaken == |rows| + 2
            && v.link.toA == [] && v.pending == [] && WantsSample(cfg, v)
  {
    hide Loop, Init, Flatten, AckFrame, QueueWindow, HandleIncoming, RetryExpired, IsDone, Reachable, Sends, RxMany;
    hide Open, TxProcessOnce, Slot;
    var n, env, plan := Length(cfg, rows), WithGap(rows), RoundTrip(cfg, rows, Slot(cfg, Length(cfg, rows)));
    AloneGenerated(cfg, env, n, x, s);
    TakesNothing(cfg, env, s);
    var q := QueueWindow(cfg, env, s);
    TakesAnswer(cfg, q, 0, ackSeq);
    var h := HandleIncoming(cfg, q);
    NothingDue(cfg, env, h);
    assert TxProcessOnce(cfg, env, s) == h by { SilentCall(cfg, env, s); }
    WantsIsNotDone(cfg, h);
    v := NextQuietRound(cfg, env, plan, |rows| + 1, s);
    LastOfOne(v.log, x);
    SlotOpens(cfg, dims, rows, n, x, v);
  }

  lemma LastOfOne(log: seq<Event>, x: Event)
    requires Sends(log) == [x]
    ensures LastIs(log, x)
  {
  }

  /** A call of process_once that sends nothing. */
  lemma SilentCall(cfg: Config, env: Env, s: Sys)
    requires cfg.window.Valid()
    requires var h := HandleIncoming(cfg, QueueWindow(cfg, env, s)); RetryExpired(cfg, env, h) == h && h.pending == []
    ensures TxProcessOnce(cfg, env, s) == HandleIncoming(cfg, QueueWindow(cfg, env, s))
  {
    hide HandleIncoming, QueueWindow, RetryExpired;
  }

  lemma AnsweredFirst(cfg: Config, dims: nat, rows: seq<Row>) returns (env: Env, plan: nat -> Pause, m: nat)
    requires cfg.Valid() && cfg.guardMs == 0 && Fractional(cfg, dims, rows) && AnswersInTime(cfg, Length(cfg, rows))
    ensures RowsFit(env, dims) && HasOverlap(Loop(cfg, env, Init(0), plan, 0, m).log)
  {
    hide AtRound, Fresh, TxProcessOnce, IsDone, Loop, Init, HasOverlap, Alone, Open, Flatten, RowsFit, Reachable;
    hide WantsSample, ExpiredSequences, DataFrame, AckFrame;
    var n, w := Length(cfg, rows), |rows|;
    env, plan := WithGap(rows), RoundTrip(cfg, rows, Slot(cfg, n));
    WithGapFits(rows, dims);
    var s := TakesRows(cfg, env, plan, rows, w - 1);
    AtIsReachable(cfg, env, plan, w - 1, s);
    var x := FirstSent(cfg, env, rows, s);
    var u := TxProcessOnce(cfg, env, s);
    AloneSize(cfg, n, x, u);
    var a := NextQuietRound(cfg, env, plan, w - 1, s);
    AloneSame(cfg, n, x, u, a);
    var b, ackSeq := FrameRead(cfg, rows, x, a);
    var c := AnswerRead(cfg, dims, rows, x, b, ackSeq);
    m := NextOverlaps(cfg, env, plan, w + 2, c, x);
  }
}
