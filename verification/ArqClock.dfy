/** The clock of a run: it stands still while the nodes work, and `run_pair` lets it advance by one step after every
    round except the one that finds the transmitter done. */
module ArqClock {
  import opened Basics
  import opened ArqModel
  import Arith

  lemma {:induction false} HandleIncomingStands(cfg: Config, s: Sys)
    ensures HandleIncoming(cfg, s).now == s.now
    decreases |s.link.toA|
  {
    if Deliverable(s.link.toA, s.now) {
      hide ParseReply, Drop, AckEvent;
      HandleIncomingStands(cfg, HandleFrame(cfg, s));
    }
  }

  lemma {:induction false} RetryAllStands(cfg: Config, env: Env, s: Sys, sns: seq<byte>)
    ensures RetryAll(cfg, env, s, sns).now == s.now
    decreases |sns|
  {
    hide CanSend, RecordSend, SendFromA;
    if sns != [] {
      if sns[0] in s.payloads && CanSend(cfg, s.gate, s.now) {
        RetryAllStands(cfg, env, Retry(cfg, env, s, sns[0]), sns[1..]);
      } else {
        RetryAllStands(cfg, env, s, sns[1..]);
      }
    }
  }

  lemma {:induction false} FailAllStands(s: Sys, sns: seq<byte>)
    ensures FailAll(s, sns).now == s.now
    decreases |sns|
  {
    hide Drop;
    if sns != [] {
      if sns[0] in s.gate.inflight {
        FailAllStands(Fail(s, sns[0]), sns[1..]);
      } else {
        FailAllStands(s, sns[1..]);
      }
    }
  }

  lemma TxStands(cfg: Config, env: Env, s: Sys)
    requires cfg.window.Valid()
    ensures TxProcessOnce(cfg, env, s).now == s.now
  {
    hide HandleIncoming, RetryAll, FailAll, ExpiredSequences, ExpiredFailures, CanSend, RecordSend, SendFromA;
    var a := QueueWindow(cfg, env, s);
    HandleIncomingStands(cfg, a);
    var b := HandleIncoming(cfg, a);
    RetryAllStands(cfg, env, b, ExpiredSequences(cfg, b.gate, b.now, b.gate.order));
    var c := RetryAll(cfg, env, b, ExpiredSequences(cfg, b.gate, b.now, b.gate.order));
    FailAllStands(c, ExpiredFailures(cfg, c.gate, c.now, c.gate.order));
  }

  lemma RxStands(cfg: Config, env: Env, s: Sys)
    ensures RxProcessOnce(cfg, env, s).now == s.now
  {
    hide ParseData, SendFromB;
  }

  lemma OneRound(cfg: Config, env: Env, s: Sys, stepMs: int, n: nat)
    requires cfg.window.Valid() && n >= 1
    ensures var t := RxProcessOnce(cfg, env, TxProcessOnce(cfg, env, s));
            && t.now == s.now && Tick(t, stepMs).now == s.now + Max(0, stepMs)
            && IsDone(cfg, Tick(t, stepMs)) == IsDone(cfg, t)
            && RunPair(cfg, env, s, stepMs, n)
               == if IsDone(cfg, t) then t else RunPair(cfg, env, Tick(t, stepMs), stepMs, n - 1)
  {
    TxStands(cfg, env, s);
    RxStands(cfg, env, TxProcessOnce(cfg, env, s));
    hide TxProcessOnce, RxProcessOnce;
  }

  /** A `run_pair` of at most n >= 1 rounds sleeps k times, and ends done if and only if k < n. It has then not been
      done after any of the first k rounds, and more rounds would not have changed anything. */
  lemma {:induction false} RunPairSleeps(cfg: Config, env: Env, s: Sys, stepMs: int, n: nat) returns (k: nat)
    requires cfg.window.Valid() && n >= 1
    ensures var t := RunPair(cfg, env, s, stepMs, n);
            && k <= n && t.now == s.now + k * Max(0, stepMs)
            && (IsDone(cfg, t) <==> k < n)
            && (forall i: nat :: 1 <= i <= k ==> !IsDone(cfg, RunPair(cfg, env, s, stepMs, i)))
            && (forall i: nat :: i > k ==> k < n ==> RunPair(cfg, env, s, stepMs, i) == t)
    decreases n
  {
    hide TxProcessOnce, RxProcessOnce, IsDone, RunPair;
    var t := RxProcessOnce(cfg, env, TxProcessOnce(cfg, env, s));
    OneRound(cfg, env, s, stepMs, n);
    forall i: nat | i >= 1
      ensures RunPair(cfg, env, s, stepMs, i)
              == if IsDone(cfg, t) then t else RunPair(cfg, env, Tick(t, stepMs), stepMs, i - 1)
    {
      OneRound(cfg, env, s, stepMs, i);
    }
    if IsDone(cfg, t) {
      k := 0;
    } else if n == 1 {
      k := 1;
      NoRounds(cfg, env, Tick(t, stepMs), stepMs);
    } else {
      var j := RunPairSleeps(cfg, env, Tick(t, stepMs), stepMs, n - 1);
      NoRounds(cfg, env, Tick(t, stepMs), stepMs);
      k := j + 1;
      Arith.Distribute(j, 1, Max(0, stepMs));
    }
  }

  lemma NoRounds(cfg: Config, env: Env, s: Sys, stepMs: int)
    requires cfg.window.Valid()
    ensures RunPair(cfg, env, s, stepMs, 0) == s
  {
  }
}
