/** From a state in which the gate has opened during the last transmission to one in which the next
    transmission overlaps it. */
module ArqBackToBack {
  import opened Basics
  import opened Windows
  import opened ArqModel
  import opened ArqRuns
  import opened ArqInvariants
  import opened ArqSampling
  import opened ArqPhases
  import opened ArqPacing
  import opened ArqRounds
  import ArqRoom
  import ArqSeqWrap

  /** y starts before the estimated end of x. */
  predicate Overlaps(x: Event, y: Event) {
    x.TxSent? && y.TxSent? && (y.ts as real) < x.ts as real + x.toaMs
  }

  predicate OverlapAt(xs: seq<Event>, k: nat)
    requires k + 1 < |xs|
  {
    Overlaps(xs[k], xs[k + 1])
  }

  /** Two consecutive transmissions of a log overlap. */
  ghost predicate HasOverlap(log: seq<Event>) {
    exists k: nat :: k + 1 < |Sends(log)| && OverlapAt(Sends(log), k)
  }

  /** The last transmission of the log is x. */
  ghost predicate LastIs(log: seq<Event>, x: Event) {
    Sends(log) != [] && Sends(log)[|Sends(log)| - 1] == x
  }

  lemma {:induction false} SendsAppend(log: seq<Event>, more: seq<Event>)
    ensures |Sends(log)| <= |Sends(log + more)| && Sends(log + more)[..|Sends(log)|] == Sends(log)
    ensures (forall e <- more :: !e.TxSent?) ==> Sends(log + more) == Sends(log)
    decreases |more|
  {
    if more == [] {
      assert log + more == log;
    } else {
      var before, e := more[..|more| - 1], more[|more| - 1];
      SendsAppend(log, before);
      SendsSnoc(log + before, e);
      assert more == before + [e] && log + more == log + before + [e];
    }
  }

  lemma OverlapStays(log: seq<Event>, more: seq<Event>)
    requires HasOverlap(log)
    ensures HasOverlap(log + more)
  {
    hide Sends;
    SendsAppend(log, more);
    var k: nat :| k + 1 < |Sends(log)| && OverlapAt(Sends(log), k);
    var xs := Sends(log + more);
    assert xs[k] == xs[..|Sends(log)|][k] && xs[k + 1] == xs[..|Sends(log)|][k + 1];
    assert OverlapAt(xs, k);
  }

  /** One more transmission, before the end of the last one. */
  lemma OverlapNow(log: seq<Event>, x: Event, y: Event)
    requires LastIs(log, x) && Overlaps(x, y)
    ensures HasOverlap(log + [y])
  {
    hide Sends;
    SendsSnoc(log, y);
    assert OverlapAt(Sends(log + [y]), |Sends(log)| - 1);
  }

  // ---------------------------------------------------------------------
  // Logs grow
  // ---------------------------------------------------------------------

  lemma {:induction false} RetryAllLog(cfg: Config, env: Env, s: Sys, sns: seq<byte>) returns (more: seq<Event>)
    ensures RetryAll(cfg, env, s, sns).log == s.log + more
    decreases |sns|
  {
    hide CanSend, RecordSend, SendFromA, Attempt;
    more := [];
    if sns != [] {
      if sns[0] in s.payloads && CanSend(cfg, s.gate, s.now) {
        var t := Retry(cfg, env, s, sns[0]);
        var rest := RetryAllLog(cfg, env, t, sns[1..]);
        more := [t.log[|s.log|]] + rest;
      } else {
        more := RetryAllLog(cfg, env, s, sns[1..]);
      }
    }
  }

  lemma {:induction false} FailAllLog(s: Sys, sns: seq<byte>) returns (more: seq<Event>)
    ensures var t := FailAll(s, sns); t.log == s.log + more && t.link == s.link && t.fed == s.fed
    ensures forall e <- more :: !e.TxSent?
    decreases |sns|
  {
    hide Drop;
    more := [];
    if sns != [] {
      if sns[0] in s.gate.inflight {
        var t := Fail(s, sns[0]);
        var rest := FailAllLog(t, sns[1..]);
        more := [t.log[|s.log|]] + rest;
      } else {
        more := FailAllLog(s, sns[1..]);
      }
    }
  }

  // ---------------------------------------------------------------------
  // One call
  // ---------------------------------------------------------------------

  /** The gate has opened while x is still on the air, and nothing stands in the way of the next window: there is
      room, or what is in the table is about to be given up. */
  ghost predicate Open(cfg: Config, s: Sys, x: Event) {
    && LastIs(s.log, x) && x.TxSent? && (s.now as real) < x.ts as real + x.toaMs
    && s.gate.lastTxMs.Some? && PaceDeadline(cfg, s.gate) <= s.now
    && (|s.gate.inflight| < cfg.maxInflight || forall k <- s.gate.inflight :: FailureDue(cfg, s.gate, s.now, k))
  }

  lemma OpenGate(cfg: Config, s: Sys, x: Event)
    requires Open(cfg, s, x) && |s.gate.inflight| < cfg.maxInflight
    ensures CanSend(cfg, s.gate, s.now)
  {
    hide LastIs, PaceDeadline, FailureDue;
  }

  /** Whatever goes out now overlaps. */
  lemma SendingOverlaps(cfg: Config, env: Env, s: Sys, x: Event, w: PendingWindow, sn: byte)
    requires Open(cfg, s, x)
    ensures HasOverlap(Transmit(cfg, env, s, w, sn).log)
  {
    hide LastIs, HasOverlap, PaceDeadline, RecordSend, SendFromA, FailureDue, Attempt;
    var t := Transmit(cfg, env, s, w, sn);
    OverlapNow(s.log, x, t.log[|s.log|]);
  }

  /** An entry that is due for a retry is resent. */
  lemma RetryOverlaps(cfg: Config, env: Env, s: Sys, x: Event)
    requires Open(cfg, s, x) && TableInv(cfg, s) && OrderInv(s.gate)
    requires ExpiredSequences(cfg, s.gate, s.now, s.gate.order) != []
    ensures HasOverlap(RetryExpired(cfg, env, s).log)
  {
    hide Open, HasOverlap, CanSend, EntryInv, Transmit, ExpiredSequences, Expired, RetryAll, FailAll, RetryDue;
    var due := ExpiredSequences(cfg, s.gate, s.now, s.gate.order);
    ExpiredSequencesDue(cfg, s.gate, s.now, s.gate.order);
    var k := due[0];
    assert k in due && RetryDue(cfg, s.gate, s.now, k);
    DueHasRoom(cfg, s, x, k);
    OpenGate(cfg, s, x);
    var t := Retry(cfg, env, s, k);
    SendingOverlaps(cfg, env, s, x, s.payloads[k], k);
    var r := RetryAll(cfg, env, s, due);
    assert r == RetryAll(cfg, env, t, due[1..]) by { RetryFirst(cfg, env, s, due); }
    var more := RetryAllLog(cfg, env, t, due[1..]);
    OverlapStays(t.log, more);
    var rest := FailAllLog(r, ExpiredFailures(cfg, r.gate, r.now, r.gate.order));
    OverlapStays(r.log, rest);
  }

  lemma RetryFirst(cfg: Config, env: Env, s: Sys, sns: seq<byte>)
    requires sns != [] && sns[0] in s.payloads && CanSend(cfg, s.gate, s.now)
    ensures RetryAll(cfg, env, s, sns) == RetryAll(cfg, env, Retry(cfg, env, s, sns[0]), sns[1..])
  {
    hide Transmit, CanSend;
  }

  lemma DueHasRoom(cfg: Config, s: Sys, x: Event, k: byte)
    requires Open(cfg, s, x) && RetryDue(cfg, s.gate, s.now, k)
    ensures k in s.gate.inflight && |s.gate.inflight| < cfg.maxInflight
  {
    hide LastIs, PaceDeadline, Expired;
    assert !FailureDue(cfg, s.gate, s.now, k);
  }

  /** With nothing to retry there is room after `_retry_expired`, and everything else is as before. */
  lemma MakesRoom(cfg: Config, env: Env, s: Sys, x: Event)
    requires cfg.Valid() && Reachable(cfg, env, s) && Open(cfg, s, x)
    requires ExpiredSequences(cfg, s.gate, s.now, s.gate.order) == []
    ensures var t := RetryExpired(cfg, env, s);
            && Open(cfg, t, x) && |t.gate.inflight| < cfg.maxInflight
            && t.pending == s.pending && t.link == s.link && SamplerSame(s, t)
  {
    hide Reachable, Sends, PaceDeadline, FailAll, FailureDue, ExpiredSequences, ExpiredFailures;
    var t := RetryExpired(cfg, env, s);
    var dead := ExpiredFailures(cfg, s.gate, s.now, s.gate.order);
    assert t == FailAll(s, dead);
    FailAllShrinks(s, dead);
    FailAllKeepsSampler(s, dead);
    RetryExpiredReachable(cfg, env, s);
    var more := FailAllLog(s, dead);
    SendsAppend(s.log, more);
    SubTable(s.gate.inflight, t.gate.inflight);
    ArqSeqWrap.SameDeadline(cfg, s.gate, t.gate);
    if |s.gate.inflight| >= cfg.maxInflight {
      forall k <- t.gate.inflight ensures false {
        assert FailureDue(cfg, s.gate, s.now, k);
        StillDue(cfg, s, t, k);
      }
      assert |t.gate.inflight| == 0;
    }
  }

  lemma StillDue(cfg: Config, s: Sys, t: Sys, k: byte)
    requires FailureDue(cfg, s.gate, s.now, k) && t.now == s.now
    requires k in t.gate.inflight && t.gate.inflight[k] == s.gate.inflight[k]
    ensures FailureDue(cfg, t.gate, t.now, k)
  {
  }

  /** What a call of process_once does in an open state with an empty queue and an empty inbox. */
  lemma OneCall(cfg: Config, env: Env, s: Sys, x: Event)
    requires cfg.Valid() && Reachable(cfg, env, s) && Open(cfg, s, x) && s.link.toA == []
    ensures var q, u := QueueWindow(cfg, env, s), TxProcessOnce(cfg, env, s);
            || HasOverlap(u.log)
            || (&& q.pending == [] && ExpiredSequences(cfg, s.gate, s.now, s.gate.order) == []
                && Open(cfg, u, x) && u.pending == [] && u.link.toA == [] && SamplerSame(q, u))
  {
    hide Reachable, Open, HasOverlap, QueueWindow, RetryExpired, CanSend, SendNext, TableInv, DataInv, OrderInv;
    hide SampleInv, FromSampler, ExpiredSequences;
    var q := QueueWindow(cfg, env, s);
    StepReachable(cfg, env, s, Sampling);
    QueueWindowLeaves(cfg, env, s);
    OpenSame(cfg, s, q, x);
    assert HandleIncoming(cfg, q) == q;
    ArqRoom.StateParts(cfg, env, q);
    var r := RetryExpired(cfg, env, q);
    if ExpiredSequences(cfg, q.gate, q.now, q.gate.order) != [] {
      RetryOverlaps(cfg, env, q, x);
      SendPendingKeepsOverlap(cfg, env, r);
    } else {
      MakesRoom(cfg, env, q, x);
      OpenGate(cfg, r, x);
      if r.pending != [] {
        SendOverlaps(cfg, env, r, x);
      }
    }
  }

  lemma QueueWindowLeaves(cfg: Config, env: Env, s: Sys)
    requires cfg.window.Valid()
    ensures var q := QueueWindow(cfg, env, s);
            q.gate == s.gate && q.now == s.now && q.link == s.link && q.log == s.log && q.payloads == s.payloads
  {
    hide Feed;
  }

  lemma OpenSame(cfg: Config, s: Sys, t: Sys, x: Event)
    requires Open(cfg, s, x) && t.gate == s.gate && t.now == s.now && t.log == s.log
    ensures Open(cfg, t, x)
  {
  }

  lemma SendOverlaps(cfg: Config, env: Env, s: Sys, x: Event)
    requires Open(cfg, s, x) && s.pending != []
    ensures HasOverlap(SendNext(cfg, env, s).log)
  {
    hide Open, HasOverlap, Transmit;
    SendingOverlaps(cfg, env, s, x, s.pending[0], s.seqNo);
    assert SendNext(cfg, env, s).log == Transmit(cfg, env, s, s.pending[0], s.seqNo).log;
  }

  lemma SendPendingKeepsOverlap(cfg: Config, env: Env, s: Sys)
    requires HasOverlap(s.log)
    ensures HasOverlap(SendPending(cfg, env, s).log)
  {
    hide HasOverlap, CanSend, RecordSend, SendFromA, Attempt;
    if s.pending != [] && CanSend(cfg, s.gate, s.now) {
      OverlapStays(s.log, [SendNext(cfg, env, s).log[|s.log|]]);
    }
  }

  // ---------------------------------------------------------------------
  // The rounds until the next transmission
  // ---------------------------------------------------------------------

  /** From here on no time passes, and every answer of the sampler is a row. */
  ghost predicate Feeds(env: Env, plan: nat -> Pause, r: nat, taken: nat) {
    && (forall i: nat :: i >= r ==> plan(i) == Pause(0, 0))
    && (forall i: nat :: i >= taken ==> env.sample(i).SampleRow?)
  }

  lemma OverlapInLoop(cfg: Config, env: Env, plan: nat -> Pause, r: nat, s: Sys)
    requires cfg.window.Valid() && AtRound(cfg, env, plan, r, s) && plan(r) == Pause(0, 0)
    requires HasOverlap(TxProcessOnce(cfg, env, s).log)
    ensures HasOverlap(Loop(cfg, env, Init(0), plan, 0, r + 1).log)
  {
    hide Reachable, TxProcessOnce, HasOverlap, Init, IsDone;
    var u := TxProcessOnce(cfg, env, s);
    assert RxMany(cfg, env, u, 0) == u;
    assert Loop(cfg, env, Tick(u, 0), plan, r + 1, 0) == Tick(u, 0);
    assert Loop(cfg, env, Init(0), plan, 0, r + 1) == Loop(cfg, env, s, plan, r, r + 1 - r);
  }

  lemma WantsIsNotDone(cfg: Config, s: Sys)
    requires WantsSample(cfg, s) && s.sent <= s.generated
    ensures !IsDone(cfg, s)
  {
  }

  lemma WantsSame(cfg: Config, s: Sys, t: Sys)
    requires WantsSample(cfg, s) && t.generated == s.generated && t.noMoreSamples == s.noMoreSamples
    ensures WantsSample(cfg, t)
  {
  }

  /** The next row, if no window comes of it. */
  lemma RowTaken(cfg: Config, env: Env, s: Sys)
    requires cfg.Valid() && Reachable(cfg, env, s) && s.pending == [] && WantsSample(cfg, s)
    requires env.sample(s.samplesTaken).SampleRow?
    ensures var q := QueueWindow(cfg, env, s);
            && q.samplesTaken == s.samplesTaken + 1 && |q.fed| == |s.fed| + 1
            && q.noMoreSamples == s.noMoreSamples
            && (q.pending == [] ==>
                  && q.generated == s.generated
                  && |s.fed| + 1 < cfg.window.W + s.generated * cfg.window.stride)
  {
    hide Reachable, Emits, Count, Flatten, DataInv, SampleInv;
    TakesRow(cfg, env, s, env.sample(s.samplesTaken).row);
    AllSent(cfg, env, s);
    EmitsCount(cfg.window, |s.fed|);
    if !Emits(cfg.window, |s.fed|) {
      RowsNeeded(cfg.window, |s.fed| + 1, s.generated + 1);
      var q := QueueWindow(cfg, env, s);
      StepReachable(cfg, env, s, Sampling);
      AllSent(cfg, env, q);
    }
  }

  lemma SentAtMost(cfg: Config, env: Env, s: Sys)
    requires cfg.Valid() && Reachable(cfg, env, s)
    ensures s.sent <= s.generated
  {
    hide Reachable, DataInv, SampleInv;
    CoreParts(cfg, env, s);
    SentAtMostGenerated(cfg, s);
  }

  /** Rows come until a window is complete, and its transmission overlaps the last one, unless a repetition does
      before. */
  lemma {:induction false} NextOverlaps(cfg: Config, env: Env, plan: nat -> Pause, r: nat, s: Sys, x: Event)
    returns (m: nat)
    requires cfg.Valid() && AtRound(cfg, env, plan, r, s) && Feeds(env, plan, r, s.samplesTaken)
    requires Open(cfg, s, x) && s.link.toA == [] && s.pending == []
    requires WantsSample(cfg, s) || ExpiredSequences(cfg, s.gate, s.now, s.gate.order) != []
    ensures HasOverlap(Loop(cfg, env, Init(0), plan, 0, m).log)
    decreases cfg.window.W + s.generated * cfg.window.stride - |s.fed|
  {
    hide Open, HasOverlap, TxProcessOnce, QueueWindow, WantsSample, IsDone, Loop, Init, ExpiredSequences, Reachable;
    var q, u := QueueWindow(cfg, env, s), TxProcessOnce(cfg, env, s);
    OneCall(cfg, env, s, x);
    if HasOverlap(u.log) {
      OverlapInLoop(cfg, env, plan, r, s);
      m := r + 1;
    } else {
      RowTaken(cfg, env, s);
      WantsSame(cfg, s, u);
      TxProcessOnceReachable(cfg, env, s);
      SentAtMost(cfg, env, u);
      WantsIsNotDone(cfg, u);
      var v := NextQuietRound(cfg, env, plan, r, s);
      OpenSame(cfg, u, v, x);
      m := NextOverlaps(cfg, env, plan, r + 1, v, x);
    }
  }
}
