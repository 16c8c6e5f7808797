/** `TxNode.run` as the loop it is, proved to terminate. */
module ArqTxRun {
  import opened Basics
  import opened ArqModel
  import opened ArqRuns
  import opened ArqNodes
  import opened ArqSampling
  import opened ArqRoom
  import opened ArqLiveness
  import opened LogCounts

  /** The sleep is all that happens between two calls of `process_once`. */
  function Plan(stepMs: int): nat -> Pause {
    i => Pause(0, stepMs)
  }

  /** What is left of the loop: at most n rounds. */
  ghost predicate EndsWithin(cfg: Config, env: Env, s: Sys, stepMs: int, n: nat)
    requires cfg.window.Valid()
  {
    forall m: nat :: m >= n ==> ArqModel.IsDone(cfg, Loop(cfg, env, s, Plan(stepMs), 0, m))
  }

  lemma {:induction false} PlanShift(cfg: Config, env: Env, s: Sys, stepMs: int, j: nat, k: nat, n: nat)
    requires cfg.window.Valid()
    ensures Loop(cfg, env, s, Plan(stepMs), j, n) == Loop(cfg, env, s, Plan(stepMs), k, n)
    decreases n
  {
    hide TxProcessOnce, ArqModel.IsDone, Tick;
    if n > 0 {
      PlanShift(cfg, env, Tick(TxProcessOnce(cfg, env, s), stepMs), stepMs, j + 1, k + 1, n - 1);
    }
  }

  lemma EndsStep(cfg: Config, env: Env, s: Sys, stepMs: int, n: nat)
    requires cfg.window.Valid() && EndsWithin(cfg, env, s, stepMs, n) && !ArqModel.IsDone(cfg, s)
    ensures n >= 1
    ensures var t := TxProcessOnce(cfg, env, s);
            ArqModel.IsDone(cfg, t) || EndsWithin(cfg, env, Tick(t, stepMs), stepMs, n - 1)
  {
    hide TxProcessOnce, ArqModel.IsDone, Tick;
    var plan := Plan(stepMs);
    assert Loop(cfg, env, s, plan, 0, 0) == s;
    var t := TxProcessOnce(cfg, env, s);
    if !ArqModel.IsDone(cfg, t) {
      forall m: nat | m >= n - 1 ensures ArqModel.IsDone(cfg, Loop(cfg, env, Tick(t, stepMs), plan, 0, m)) {
        assert RxMany(cfg, env, t, 0) == t;
        assert Loop(cfg, env, s, plan, 0, m + 1) == Loop(cfg, env, Tick(t, stepMs), plan, 1, m);
        PlanShift(cfg, env, Tick(t, stepMs), stepMs, 1, 0, m);
      }
    }
  }

  lemma DoneStays(cfg: Config, s: Sys, ms: int)
    ensures ArqModel.IsDone(cfg, s) <==> ArqModel.IsDone(cfg, Tick(s, ms))
  {
  }

  /** Within n rounds the loop has seen `is_done` or an error. */
  ghost predicate StopsWithin(io: Plugs, cfg: Config, env: Env, s: Sys, stepMs: int, n: nat)
    requires cfg.window.Valid()
    decreases n
  {
    ArqModel.IsDone(cfg, s)
    || (n > 0
        && (|| io.Verdict(cfg, s).Err?
            || StopsWithin(io, cfg, env, Tick(TxProcessOnce(cfg, env, s), stepMs), stepMs, n - 1)))
  }

  ghost predicate Stops(io: Plugs, cfg: Config, env: Env, s: Sys, stepMs: int)
    requires cfg.window.Valid()
  {
    exists n: nat :: StopsWithin(io, cfg, env, s, stepMs, n)
  }

  lemma {:induction false} EndingStops(io: Plugs, cfg: Config, env: Env, s: Sys, stepMs: int, n: nat)
    requires cfg.window.Valid() && EndsWithin(cfg, env, s, stepMs, n)
    ensures StopsWithin(io, cfg, env, s, stepMs, n)
    decreases n
  {
    hide TxProcessOnce, ArqModel.IsDone, Tick, EndsWithin, Plugs.Verdict;
    if !ArqModel.IsDone(cfg, s) {
      EndsStep(cfg, env, s, stepMs, n);
      var t := TxProcessOnce(cfg, env, s);
      DoneStays(cfg, t, stepMs);
      if !ArqModel.IsDone(cfg, t) {
        EndingStops(io, cfg, env, Tick(t, stepMs), stepMs, n - 1);
      }
    }
  }

  /** From any state of a run the loop stops by itself, whatever codec and sampler do, if the model's sampler
      suffices and retries cannot be shut out. */
  lemma RunStops(io: Plugs, cfg: Config, env: Env, s: Sys, stepMs: int)
    requires cfg.Valid() && Reachable(cfg, env, s) && stepMs >= 1
    requires SamplerSuffices(cfg, env) && StaysRoomy(cfg, env, s)
    ensures Stops(io, cfg, env, s, stepMs)
  {
    hide SamplerSuffices, StaysRoomy, Reachable, Loop, StopsWithin;
    assert TicksFrom(Plan(stepMs), 0);
    var n := RunsOut(cfg, env, s, Plan(stepMs), 0, 0);
    assert EndsWithin(cfg, env, s, stepMs, n);
    EndingStops(io, cfg, env, s, stepMs, n);
  }

  /** `TxNode.run`, from any state of a run in which it stops at all. Unless its codec or sampler makes the node
      raise, it is done then, so its sampler sufficed; and unless a SEQ was reused in flight, every window
      has been reported exactly once. */
  method Run(tx: TxNode, stepMs: int, ghost rx: RxPart) returns (r: Result<(), TxError>)
    requires tx.Valid() && Reachable(tx.cfg, tx.env, tx.View(rx))
    requires Stops(tx.io, tx.cfg, tx.env, tx.View(rx), stepMs)
    modifies tx, tx.gate, tx.link, tx.link.lossAb, tx.link.lossBa, tx.builder, tx.log, tx.clock
    ensures tx.Valid()
    ensures r.Ok? ==> Reachable(tx.cfg, tx.env, tx.View(rx)) && ArqModel.IsDone(tx.cfg, tx.View(rx))
    ensures r.Ok? ==> SamplerSuffices(tx.cfg, tx.env)
    ensures r.Ok? && (tx.View(rx).lost == {} || NoReuse(tx.cfg, tx.env)) ==> CompletedOnce(tx.cfg, tx.env, tx.View(rx))
    ensures r.Err? ==> exists s: Sys :: Raised(tx.io, tx.cfg, tx.env, s, r) && tx.View(rx) == tx.io.Stopped(tx.cfg, s)
  {
    hide TxProcessOnce, ArqModel.IsDone, Tick, Reachable, TxNode.View, SamplerSuffices, NoReuse, CompletedOnce,
      Plugs.Verdict, Plugs.Stopped;
    ghost var left: nat :| StopsWithin(tx.io, tx.cfg, tx.env, tx.View(rx), stepMs, left);
    var done := tx.IsDone(rx);
    while !done
      invariant tx.Valid() && Reachable(tx.cfg, tx.env, tx.View(rx))
      invariant done == ArqModel.IsDone(tx.cfg, tx.View(rx))
      invariant done || StopsWithin(tx.io, tx.cfg, tx.env, tx.View(rx), stepMs, left)
      decreases left, !done
    {
      ghost var s := tx.View(rx);
      TxProcessOnceReachable(tx.cfg, tx.env, s);
      StepReachable(tx.cfg, tx.env, TxProcessOnce(tx.cfg, tx.env, s), Ticking(stepMs));
      r := tx.ProcessOnce(rx);
      if r.Err? {
        assert Raised(tx.io, tx.cfg, tx.env, s, r);
        return;
      }
      Sleep(tx, rx, stepMs);
      left := left - 1;
      done := tx.IsDone(rx);
    }
    DoneMeansSuffices(tx.cfg, tx.env, tx.View(rx));
    Completed(tx.cfg, tx.env, tx.View(rx));
    return Ok(());
  }

  /** A call of `process_once` in state s of a run raises r. */
  ghost predicate Raised(io: Plugs, cfg: Config, env: Env, s: Sys, r: Result<(), TxError>)
    requires cfg.window.Valid()
  {
    Reachable(cfg, env, s) && r.Err? && io.Verdict(cfg, s) == r
  }

  lemma Completed(cfg: Config, env: Env, s: Sys)
    requires cfg.Valid() && Reachable(cfg, env, s) && ArqModel.IsDone(cfg, s)
    ensures s.lost == {} || NoReuse(cfg, env) ==> CompletedOnce(cfg, env, s)
  {
    hide Reachable, ArqModel.IsDone, NoReuse, Resolutions, Num, IsTotal;
    if NoReuse(cfg, env) {
      NothingLost(cfg, env, s);
    }
    if s.lost == {} {
      DoneMeansResolved(cfg, env, s);
    }
  }
}
