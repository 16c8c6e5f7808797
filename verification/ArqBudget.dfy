/** How often a run transmits: however the table is used, and whatever is lost, each window that was sent
    accounts for at most max_retries + 1 transmissions. */
module ArqBudget {
  import opened Basics
  import opened ArqModel
  import Windows

  /** Transmissions that the entry under key k may still cause. */
  function Left(cfg: Config, table: map<byte, Inflight>, k: int): nat {
    if 0 <= k < 256 && k in table then Max(0, cfg.maxRetries + 1 - table[k].attempts) else 0
  }

  function LeftBelow(cfg: Config, table: map<byte, Inflight>, n: nat): nat {
    if n == 0 then 0 else LeftBelow(cfg, table, n - 1) + Left(cfg, table, n - 1)
  }

  lemma {:induction false} OneKeyChanged(
    cfg: Config, before: map<byte, Inflight>, after: map<byte, Inflight>, k: byte, n: nat)
    requires forall x: byte :: x != k ==>
               (x in before <==> x in after) && (x in before ==> before[x].attempts == after[x].attempts)
    ensures LeftBelow(cfg, after, n) - LeftBelow(cfg, before, n)
            == if k < n then Left(cfg, after, k) - Left(cfg, before, k) else 0
    decreases n
  {
    if n > 0 {
      OneKeyChanged(cfg, before, after, k, n - 1);
      if n - 1 < 256 {
        var x: byte := n - 1;
        assert x != k ==> Left(cfg, before, x) == Left(cfg, after, x);
      }
    }
  }

  /** What has been transmitted and what the table may still transmit is paid for by the windows sent. */
  ghost predicate BudgetInv(cfg: Config, s: Sys) {
    s.gate.sentCount + LeftBelow(cfg, s.gate.inflight, 256) <= (cfg.maxRetries + 1) * s.sent
  }

  lemma BudgetSending(cfg: Config, env: Env, s: Sys)
    requires BudgetInv(cfg, s) && s.pending != []
    ensures BudgetInv(cfg, SendNext(cfg, env, s))
  {
    hide LeftBelow, SendFromA, DataFrame;
    var t := SendNext(cfg, env, s);
    OneKeyChanged(cfg, s.gate.inflight, t.gate.inflight, s.seqNo, 256);
    assert (cfg.maxRetries + 1) * (s.sent + 1) == (cfg.maxRetries + 1) * s.sent + (cfg.maxRetries + 1);
  }

  lemma BudgetRetrying(cfg: Config, env: Env, s: Sys, sn: byte)
    requires BudgetInv(cfg, s) && sn in s.payloads && RetryDue(cfg, s.gate, s.now, sn)
    ensures BudgetInv(cfg, Retry(cfg, env, s, sn))
  {
    hide LeftBelow, SendFromA, DataFrame;
    OneKeyChanged(cfg, s.gate.inflight, Retry(cfg, env, s, sn).gate.inflight, sn, 256);
  }

  lemma BudgetDropping(cfg: Config, s: Sys, t: Sys, sn: byte)
    requires BudgetInv(cfg, s) && t.gate.inflight == s.gate.inflight - {sn}
    requires t.gate.sentCount == s.gate.sentCount && t.sent == s.sent
    ensures BudgetInv(cfg, t)
  {
    hide LeftBelow;
    OneKeyChanged(cfg, s.gate.inflight, t.gate.inflight, sn, 256);
  }

  lemma BudgetReceiving(cfg: Config, s: Sys)
    requires BudgetInv(cfg, s) && Deliverable(s.link.toA, s.now)
    ensures BudgetInv(cfg, HandleFrame(cfg, s))
  {
    hide LeftBelow, ParseReply, Without, AckEvent;
    match ParseReply(cfg, s.link.toA[0].frame) {
      case AckFor(sn) =>
        if sn in s.gate.inflight {
          BudgetDropping(cfg, s, HandleFrame(cfg, s), sn);
        }
      case _ =>
    }
  }

  lemma BudgetInvStep(cfg: Config, env: Env, s: Sys, step: Step)
    requires cfg.window.Valid() && BudgetInv(cfg, s) && Enabled(cfg, s, step)
    ensures BudgetInv(cfg, Apply(cfg, env, s, step))
  {
    hide LeftBelow, HandleFrame, SendNext, Transmit, Without, ParseData, SendFromB, Windows.Feed, CanSend;
    match step {
      case Sending => BudgetSending(cfg, env, s);
      case Retrying(sn) => BudgetRetrying(cfg, env, s, sn);
      case Failing(sn) => BudgetDropping(cfg, s, Fail(s, sn), sn);
      case Receiving => BudgetReceiving(cfg, s);
      case _ =>
    }
  }

  lemma {:induction false} BudgetInvAlong(cfg: Config, env: Env, s: Sys, steps: seq<Step>, t: Sys)
    requires cfg.window.Valid() && BudgetInv(cfg, s) && Leads(cfg, env, s, steps, t)
    ensures BudgetInv(cfg, t)
    decreases |steps|
  {
    hide Apply, Enabled, BudgetInv;
    if steps != [] {
      BudgetInvStep(cfg, env, s, steps[0]);
      BudgetInvAlong(cfg, env, Apply(cfg, env, s, steps[0]), steps[1..], t);
    }
  }

  lemma {:induction false} NothingLeft(cfg: Config, n: nat)
    ensures LeftBelow(cfg, map[], n) == 0
    decreases n
  {
    if n > 0 {
      NothingLeft(cfg, n - 1);
    }
  }

  /** In every run, with or without reuse of SEQs, a node transmits at most max_retries + 1 times as often
      as it sends new windows. */
  lemma SendsBounded(cfg: Config, env: Env, s: Sys)
    requires cfg.window.Valid() && Reachable(cfg, env, s)
    ensures s.gate.sentCount <= (cfg.maxRetries + 1) * s.sent
  {
    hide Leads;
    var start: nat, steps :| Leads(cfg, env, Init(start), steps, s);
    NothingLeft(cfg, 256);
    BudgetInvAlong(cfg, env, Init(start), steps, s);
  }
}
