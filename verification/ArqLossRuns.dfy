/** What a loss pattern does to a run. */
module ArqLossRuns {
  import opened Basics
  import opened ArqModel
  import opened LogCounts
  import opened ArqLink
  import opened ArqCore
  import opened ArqSampling
  import opened ArqLoss
  import ArqLossFree
  import Arith

  lemma {:induction false} DroppedIsHit(drop: nat -> bool, losses: Losses, n: nat)
    requires LosesBy(drop, losses) && losses.pattern != []
    ensures Dropped(drop, n) == |Hit(losses.pattern, n)|
    decreases n
  {
    hide Hit;
    if n == 0 {
      NoHits(losses.pattern);
    } else {
      DroppedIsHit(drop, losses, n - 1);
      HitNext(losses.pattern, n - 1);
    }
  }

  /** Of n data frames sent over a link with a pattern, those received and those on their way are n less the hits
      of the pattern among the first n. */
  lemma PatternLoses(cfg: Config, env: Env, s: Sys, losses: Losses)
    requires cfg.Valid() && Reachable(cfg, env, s) && LosesBy(env.dropAb, losses) && losses.pattern != []
    ensures var n := Num(AnySent, s.log);
            Num(Received, s.log) + |s.link.toB| == n - |Hit(losses.pattern, n)|
  {
    hide Reachable, Num, Dropped, Hit, LosesBy;
    FrameConservation(cfg, env, s);
    DroppedIsHit(env.dropAb, losses, Num(AnySent, s.log));
  }

  /** The hits in whole periods. */
  lemma {:induction false} HitsInPeriods(pattern: seq<bool>, k: nat)
    requires pattern != []
    ensures |Hit(pattern, k * |pattern|)| == k * |Hit(pattern, |pattern|)|
    decreases k
  {
    hide Hit;
    if k == 0 {
      NoHits(pattern);
    } else {
      HitsInPeriods(pattern, k - 1);
      HitsShift(pattern, k - 1, |pattern|);
      Arith.Distribute(k - 1, 1, |pattern|);
      Arith.Distribute(k - 1, 1, |Hit(pattern, |pattern|)|);
    }
  }

  lemma {:induction false} HitsShift(pattern: seq<bool>, k: nat, n: nat)
    requires pattern != [] && n <= |pattern|
    ensures |Hit(pattern, k * |pattern| + n)| == |Hit(pattern, k * |pattern|)| + |Hit(pattern, n)|
    decreases n
  {
    hide Hit;
    if n == 0 {
      NoHits(pattern);
    } else {
      HitsShift(pattern, k, n - 1);
      Arith.MulNonNegative(k, |pattern|);
      Arith.DivUnique(k * |pattern| + (n - 1), |pattern|, k, n - 1);
      Arith.DivUnique(n - 1, |pattern|, 0, n - 1);
      HitNext(pattern, k * |pattern| + (n - 1));
      HitNext(pattern, n - 1);
    }
  }

  // ---------------------------------------------------------------------
  // Patterns that drop nothing or everything
  // ---------------------------------------------------------------------

  ghost predicate Spares(losses: Losses) {
    losses.pattern != [] && forall i :: 0 <= i < |losses.pattern| ==> !losses.pattern[i]
  }

  /** Patterns that are false throughout lose nothing: every window is acknowledged on its first attempt, in order. */
  lemma SparingPatternDelivers(cfg: Config, env: Env, p: ArqLossFree.Pace, m: nat, ab: Losses, ba: Losses)
    requires cfg.Valid() && p.Valid() && cfg.maxInflight <= 256 && ArqLossFree.Patient(cfg, p)
    requires LosesBy(env.dropAb, ab) && LosesBy(env.dropBa, ba) && Spares(ab) && Spares(ba)
    ensures var t := RunPair(cfg, env, Init(p.start), p.step, m);
            && Num(Resent, t.log) == 0 && Num(Failed, t.log) == 0 && Num(AnySent, t.log) == t.sent
            && |AckIds(t.log)| == Num(Acked, t.log) <= t.sent
            && forall j :: 0 <= j < |AckIds(t.log)| ==> AckIds(t.log)[j] == Some(j)
  {
    hide ArqLossFree.Patient, RunPair, Num, AckIds, CanBuild;
    forall n: nat ensures !env.dropAb(n) && !env.dropBa(n) {
    }
    assert ArqLossFree.NoLoss(cfg, env);
    ArqLossFree.LossFreeDelivery(cfg, env, p, m);
  }

  lemma {:induction false} AllDropped(drop: nat -> bool, n: nat)
    requires forall i: nat :: drop(i)
    ensures Dropped(drop, n) == n
    decreases n
  {
    if n > 0 {
      AllDropped(drop, n - 1);
    }
  }

  /** With a pattern that is true throughout nothing ever arrives. */
  lemma FullPatternLosesAll(cfg: Config, env: Env, s: Sys, losses: Losses)
    requires cfg.Valid() && Reachable(cfg, env, s) && LosesBy(env.dropAb, losses) && losses.pattern != []
    requires forall i :: 0 <= i < |losses.pattern| ==> losses.pattern[i]
    ensures Num(Received, s.log) == Num(Echoed, s.log) == Num(Acked, s.log) == 0
    ensures s.link.toB == [] && s.link.toA == []
  {
    hide Reachable, Num, Dropped;
    forall n: nat ensures env.dropAb(n) {
    }
    AllDropped(env.dropAb, Num(AnySent, s.log));
    FrameConservation(cfg, env, s);
  }
}
