/** What each phase of a round can change: the table, the queue, the sampler. */
module ArqPhases {
  import opened Basics
  import opened Windows
  import opened ArqModel

  // ---------------------------------------------------------------------
  // What one call of process_once can do to the table and the queue
  // ---------------------------------------------------------------------

  /** The table of t is part of the table of s, and nothing was sent in between. */
  ghost predicate Shrinks(s: Sys, t: Sys) {
    && t.now == s.now && t.pending == s.pending && t.gate.sentCount == s.gate.sentCount
    && t.gate.lastTxMs == s.gate.lastTxMs && t.gate.lastToaMs == s.gate.lastToaMs
    && (forall k <- t.gate.inflight :: k in s.gate.inflight && t.gate.inflight[k] == s.gate.inflight[k])
    && (forall k <- t.payloads :: k in s.payloads && t.payloads[k] == s.payloads[k])
  }

  lemma SubTable<K, V>(m: map<K, V>, n: map<K, V>)
    requires forall k <- n :: k in m && n[k] == m[k]
    ensures |n| <= |m|
    ensures |n| == |m| ==> n == m
  {
    assert n.Keys <= m.Keys;
    SubsetSize(n.Keys, m.Keys);
    if |n| == |m| {
      assert n.Keys == m.Keys;
    }
  }

  lemma SubsetSize<T>(a: set<T>, b: set<T>)
    requires a <= b
    ensures |a| <= |b|
    ensures |a| == |b| ==> a == b
  {
    assert b == a + (b - a);
    assert |b| == |a| + |b - a|;
    if |b - a| == 0 {
      assert b - a == {};
    }
  }

  lemma HandleFrameShrinks(cfg: Config, s: Sys)
    requires Deliverable(s.link.toA, s.now)
    ensures Shrinks(s, HandleFrame(cfg, s))
  {
    hide ParseReply, Without, AckEvent;
  }

  lemma {:induction false} HandleIncomingShrinks(cfg: Config, s: Sys)
    ensures Shrinks(s, HandleIncoming(cfg, s))
    decreases |s.link.toA|
  {
    hide ParseReply, Without, AckEvent;
    if Deliverable(s.link.toA, s.now) {
      HandleFrameShrinks(cfg, s);
      HandleIncomingShrinks(cfg, HandleFrame(cfg, s));
    }
  }

  lemma {:induction false} FailAllShrinks(s: Sys, sns: seq<byte>)
    ensures Shrinks(s, FailAll(s, sns))
    decreases |sns|
  {
    hide Without;
    if sns != [] && sns[0] in s.gate.inflight {
      FailAllShrinks(Fail(s, sns[0]), sns[1..]);
    } else if sns != [] {
      FailAllShrinks(s, sns[1..]);
    }
  }

  /** Something was transmitted, or else something left the table. */
  ghost predicate Advances(s: Sys, t: Sys) {
    || t.gate.sentCount > s.gate.sentCount
    || (t.gate.sentCount == s.gate.sentCount && |t.gate.inflight| < |s.gate.inflight|)
  }

  ghost predicate Stands(s: Sys, t: Sys) {
    && t.pending == s.pending && t.gate.inflight == s.gate.inflight && t.gate.sentCount == s.gate.sentCount
    && t.gate.lastTxMs == s.gate.lastTxMs && t.gate.lastToaMs == s.gate.lastToaMs
  }

  lemma ShrinkingAdvancesOrStands(s: Sys, t: Sys)
    requires Shrinks(s, t)
    ensures Advances(s, t) || Stands(s, t)
  {
    SubTable(s.gate.inflight, t.gate.inflight);
  }

  // ---------------------------------------------------------------------
  // What each phase leaves alone
  // ---------------------------------------------------------------------

  /** The sampler, the windows built and the clock. */
  ghost predicate SamplerSame(s: Sys, t: Sys) {
    && t.now == s.now && t.generated == s.generated && t.fed == s.fed
    && t.noMoreSamples == s.noMoreSamples && t.samplesTaken == s.samplesTaken
  }

  lemma {:induction false} HandleIncomingKeepsSampler(cfg: Config, s: Sys)
    ensures SamplerSame(s, HandleIncoming(cfg, s))
    decreases |s.link.toA|
  {
    hide ParseReply, Drop, AckEvent;
    if Deliverable(s.link.toA, s.now) {
      HandleIncomingKeepsSampler(cfg, HandleFrame(cfg, s));
    }
  }

  /** The retry loop leaves the state alone or transmits, and keeps sampler and queue. */
  lemma {:induction false} RetryAllKeeps(cfg: Config, env: Env, s: Sys, sns: seq<byte>)
    ensures var t := RetryAll(cfg, env, s, sns);
            && SamplerSame(s, t) && t.pending == s.pending
            && (t == s || t.gate.sentCount > s.gate.sentCount)
    decreases |sns|
  {
    hide SendFromA, Attempt, DataFrame, CanSend;
    if sns != [] {
      if sns[0] in s.payloads && CanSend(cfg, s.gate, s.now) {
        RetryAllKeeps(cfg, env, Retry(cfg, env, s, sns[0]), sns[1..]);
      } else {
        RetryAllKeeps(cfg, env, s, sns[1..]);
      }
    }
  }

  lemma {:induction false} FailAllKeepsSampler(s: Sys, sns: seq<byte>)
    ensures SamplerSame(s, FailAll(s, sns))
    decreases |sns|
  {
    hide Drop;
    if sns != [] {
      if sns[0] in s.gate.inflight {
        FailAllKeepsSampler(Fail(s, sns[0]), sns[1..]);
      } else {
        FailAllKeepsSampler(s, sns[1..]);
      }
    }
  }

  lemma SendNextKeepsSampler(cfg: Config, env: Env, s: Sys)
    requires s.pending != []
    ensures SamplerSame(s, SendNext(cfg, env, s))
    ensures SendNext(cfg, env, s).gate.sentCount == s.gate.sentCount + 1
  {
    hide SendFromA, Attempt, DataFrame;
  }

  /** `_retry_expired` transmits, or only removes entries. */
  lemma RetryExpiredKeeps(cfg: Config, env: Env, s: Sys)
    ensures var t := RetryExpired(cfg, env, s);
            SamplerSame(s, t) && (t.gate.sentCount > s.gate.sentCount || Shrinks(s, t))
  {
    hide RetryAll, FailAll, ExpiredSequences, ExpiredFailures;
    var due := ExpiredSequences(cfg, s.gate, s.now, s.gate.order);
    RetryAllKeeps(cfg, env, s, due);
    var r := RetryAll(cfg, env, s, due);
    var dead := ExpiredFailures(cfg, r.gate, r.now, r.gate.order);
    FailAllKeepsSampler(r, dead);
    FailAllShrinks(r, dead);
  }

  lemma QueueWindowKeeps(cfg: Config, env: Env, s: Sys)
    requires cfg.window.Valid()
    ensures var t := QueueWindow(cfg, env, s);
            && t.now == s.now && t.gate == s.gate && t.payloads == s.payloads
            && if WantsSample(cfg, s) then t.samplesTaken == s.samplesTaken + 1 else t == s
  {
    hide Feed;
  }

  /** A call of process_once that wants a sample takes one. */
  lemma SamplingProgress(cfg: Config, env: Env, s: Sys)
    requires cfg.window.Valid()
    ensures var t := TxProcessOnce(cfg, env, s);
            && t.now == s.now
            && if WantsSample(cfg, s) then t.samplesTaken == s.samplesTaken + 1 else SamplerSame(s, t)
  {
    hide QueueWindow, HandleIncoming, RetryExpired, SendNext, CanSend, WantsSample;
    var a := QueueWindow(cfg, env, s);
    QueueWindowKeeps(cfg, env, s);
    HandleIncomingKeepsSampler(cfg, a);
    var b := HandleIncoming(cfg, a);
    RetryExpiredKeeps(cfg, env, b);
    var c := RetryExpired(cfg, env, b);
    if c.pending != [] {
      SendNextKeepsSampler(cfg, env, c);
    }
  }

  lemma {:induction false} RxManyKeepsTransmitter(cfg: Config, env: Env, s: Sys, n: nat)
    ensures var t := RxMany(cfg, env, s, n);
            && t.gate == s.gate && t.payloads == s.payloads && t.pending == s.pending && t.sent == s.sent
            && SamplerSame(s, t)
    decreases n
  {
    hide ParseData, SendFromB;
    if n > 0 {
      RxManyKeepsTransmitter(cfg, env, RxProcessOnce(cfg, env, s), n - 1);
    }
  }
}
