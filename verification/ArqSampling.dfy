/** What a run can get out of its sampler: how many rows come before the sampler ends, how many windows
    they make, and whether that is enough for `is_done`. */
module ArqSampling {
  import opened Basics
  import opened Windows
  import opened ArqModel
  import opened ArqInvariants
  import opened ArqCore
  import Arith
  import ArqLink

  /** None of the first i answers ends the sampler. */
  ghost predicate Unended(env: Env, i: nat) {
    forall j: nat :: j < i ==> !env.sample(j).SamplesExhausted?
  }

  /** Answer i is the first one that ends the sampler. */
  ghost predicate EndsAt(env: Env, i: nat) {
    Unended(env, i) && env.sample(i).SamplesExhausted?
  }

  /** How many of the first i answers are rows. */
  function RowsIn(env: Env, i: nat): nat {
    if i == 0 then 0 else RowsIn(env, i - 1) + (if env.sample(i - 1).SampleRow? then 1 else 0)
  }

  lemma {:induction false} RowsMonotone(env: Env, i: nat, j: nat)
    requires i <= j
    ensures RowsIn(env, i) <= RowsIn(env, j)
    decreases j
  {
    if i < j {
      RowsMonotone(env, i, j - 1);
    }
  }

  /** Rows for n windows come before the sampler ends. */
  ghost predicate RowsFor(cfg: Config, env: Env, n: nat)
    requires cfg.window.Valid()
  {
    exists i: nat :: Unended(env, i) && n <= Count(cfg.window, RowsIn(env, i))
  }

  /** A run can get as far as n windows: the limit allows them and the rows for them exist. */
  ghost predicate CanBuild(cfg: Config, env: Env, n: nat)
    requires cfg.window.Valid()
  {
    (cfg.maxWindows.Some? ==> n <= cfg.maxWindows.value) && RowsFor(cfg, env, n)
  }

  /** The most windows a run can build. */
  ghost predicate IsTotal(cfg: Config, env: Env, n: nat)
    requires cfg.window.Valid()
  {
    CanBuild(cfg, env, n) && forall m: nat :: CanBuild(cfg, env, m) ==> m <= n
  }

  /** What `is_done` waits for can come about: with a limit of n windows, rows for all of them; without
      one, the end of the sampler. */
  ghost predicate SamplerSuffices(cfg: Config, env: Env)
    requires cfg.window.Valid()
  {
    match cfg.maxWindows
    case None => exists i: nat :: env.sample(i).SamplesExhausted?
    case Some(n) => RowsFor(cfg, env, n)
  }

  /** n windows need W + (n - 1) stride rows. */
  lemma RowsNeeded(w: WindowSpec, rows: nat, n: nat)
    requires w.Valid()
    ensures n <= Count(w, rows) <==> n == 0 || rows >= w.W + (n - 1) * w.stride
  {
    if n > 0 && rows >= w.W {
      var q, r := (rows - w.W) / w.stride, (rows - w.W) % w.stride;
      assert rows - w.W == q * w.stride + r;
      if n - 1 <= q {
        Arith.MulMonotone(n - 1, q, w.stride);
      } else {
        Arith.MulMonotone(q + 1, n - 1, w.stride);
        assert (q + 1) * w.stride == q * w.stride + w.stride;
      }
    } else if n > 0 {
      Arith.MulNonNegative(n - 1, w.stride);
    }
  }

  /** With a limit of n windows: none are wanted, or W + (n - 1) stride rows come before the sampler ends. */
  lemma SufficesWithLimit(cfg: Config, env: Env, n: nat)
    requires cfg.window.Valid() && cfg.maxWindows == Some(n)
    ensures SamplerSuffices(cfg, env)
            <==> n == 0
                 || exists i: nat ::
                      Unended(env, i) && RowsIn(env, i) >= cfg.window.W + (n - 1) * cfg.window.stride
  {
    hide Count, RowsIn;
    forall i: nat
      ensures n <= Count(cfg.window, RowsIn(env, i))
              <==> n == 0 || RowsIn(env, i) >= cfg.window.W + (n - 1) * cfg.window.stride
    {
      RowsNeeded(cfg.window, RowsIn(env, i), n);
    }
    if n == 0 {
      assert Unended(env, 0);
    }
  }

  lemma CountMonotone(w: WindowSpec, a: nat, b: nat)
    requires w.Valid() && a <= b
    ensures Count(w, a) <= Count(w, b)
  {
    if Count(w, a) > 0 {
      RowsNeeded(w, a, Count(w, a));
      RowsNeeded(w, b, Count(w, a));
    }
  }

  // ---------------------------------------------------------------------
  // Along a run
  // ---------------------------------------------------------------------

  /** The answers taken so far are the ones the state remembers. */
  ghost predicate SamplerInv(env: Env, s: Sys) {
    if s.noMoreSamples then
      s.samplesTaken >= 1 && EndsAt(env, s.samplesTaken - 1) && |s.fed| == RowsIn(env, s.samplesTaken - 1)
    else Unended(env, s.samplesTaken) && |s.fed| == RowsIn(env, s.samplesTaken)
  }

  lemma SamplerInvStep(cfg: Config, env: Env, s: Sys, step: Step)
    requires cfg.window.Valid() && SamplerInv(env, s) && Enabled(cfg, s, step)
    ensures SamplerInv(env, Apply(cfg, env, s, step))
  {
    hide ParseReply, ParseData, RecordSend, SendFromA, SendFromB, Drop, CanSend, AckEvent, Windows.Feed, FailureDue;
    match step {
      case Sampling =>
        assert RowsIn(env, s.samplesTaken + 1)
            == RowsIn(env, s.samplesTaken) + (if env.sample(s.samplesTaken).SampleRow? then 1 else 0);
      case _ =>
    }
  }

  lemma {:induction false} SamplerInvAlong(cfg: Config, env: Env, s: Sys, steps: seq<Step>, t: Sys)
    requires cfg.window.Valid() && SamplerInv(env, s) && Leads(cfg, env, s, steps, t)
    ensures SamplerInv(env, t)
    decreases |steps|
  {
    hide Apply, Enabled, SamplerInv;
    if steps != [] {
      SamplerInvStep(cfg, env, s, steps[0]);
      SamplerInvAlong(cfg, env, Apply(cfg, env, s, steps[0]), steps[1..], t);
    }
  }

  lemma CoreParts(cfg: Config, env: Env, s: Sys)
    requires cfg.Valid() && Reachable(cfg, env, s)
    ensures DataInv(cfg, s) && SampleInv(cfg, s)
    ensures s.generated == Count(cfg.window, |s.fed|)
    ensures cfg.maxWindows.Some? ==> s.generated <= cfg.maxWindows.value
  {
    hide Reachable, TableInv, FateInv, CountInv, ArqLink.OriginInv, ArqLink.FrameInv, Emitted, After, Count;
    CoreInvariant(cfg, env, s);
    WindowJoin(cfg.window, s.fed);
  }

  lemma SentAtMostGenerated(cfg: Config, s: Sys)
    requires DataInv(cfg, s)
    ensures s.sent <= s.generated
    ensures s.pending == [] ==> s.sent == s.generated
  {
  }

  lemma SamplerInvariant(cfg: Config, env: Env, s: Sys)
    requires cfg.window.Valid() && Reachable(cfg, env, s)
    ensures SamplerInv(env, s)
  {
    hide Leads;
    var start: nat, steps :| Leads(cfg, env, Init(start), steps, s);
    SamplerInvAlong(cfg, env, Init(start), steps, s);
  }

  /** All windows of a run are built from rows that come before the sampler ends. */
  lemma BuiltFromRows(cfg: Config, env: Env, s: Sys)
    requires cfg.Valid() && Reachable(cfg, env, s)
    ensures CanBuild(cfg, env, s.generated)
  {
    hide Reachable, DataInv, SampleInv, Count;
    CoreParts(cfg, env, s);
    SamplerInvariant(cfg, env, s);
  }

  /** From answer `last` on, a state no longer asks for samples. */
  ghost predicate SamplingEndsBy(cfg: Config, env: Env, last: nat)
    requires cfg.window.Valid()
  {
    forall s: Sys :: Reachable(cfg, env, s) && WantsSample(cfg, s) ==> s.samplesTaken < last
  }

  lemma SamplingEnds(cfg: Config, env: Env) returns (last: nat)
    requires cfg.Valid() && SamplerSuffices(cfg, env)
    ensures SamplingEndsBy(cfg, env, last)
  {
    hide Reachable, Count, DataInv, SampleInv;
    match cfg.maxWindows {
      case None =>
        var i: nat :| env.sample(i).SamplesExhausted?;
        last := i + 1;
        forall s: Sys | Reachable(cfg, env, s) && WantsSample(cfg, s) ensures s.samplesTaken < last {
          SamplerInvariant(cfg, env, s);
        }
      case Some(n) =>
        var i: nat :| Unended(env, i) && n <= Count(cfg.window, RowsIn(env, i));
        last := i;
        forall s: Sys | Reachable(cfg, env, s) && WantsSample(cfg, s) ensures s.samplesTaken < last {
          SamplerInvariant(cfg, env, s);
          CoreParts(cfg, env, s);
          if i <= s.samplesTaken {
            RowsMonotone(env, i, s.samplesTaken);
            CountMonotone(cfg.window, RowsIn(env, i), |s.fed|);
          }
        }
    }
  }

  /** A state that asks for no more samples has all it waits for. */
  lemma SamplingOver(cfg: Config, env: Env, s: Sys)
    requires cfg.Valid() && SamplerSuffices(cfg, env) && Reachable(cfg, env, s) && !WantsSample(cfg, s)
    ensures match cfg.maxWindows
            case None => s.noMoreSamples
            case Some(n) => s.generated == n
  {
    hide Reachable, Count, DataInv, SampleInv;
    CoreParts(cfg, env, s);
    SamplerInvariant(cfg, env, s);
    if cfg.maxWindows.Some? && s.noMoreSamples {
      var i: nat :| Unended(env, i) && cfg.maxWindows.value <= Count(cfg.window, RowsIn(env, i));
      var e := s.samplesTaken - 1;
      assert i <= e;
      RowsMonotone(env, i, e);
      CountMonotone(cfg.window, RowsIn(env, i), |s.fed|);
    }
  }

  /** Being done is proof that the sampler sufficed. */
  lemma DoneMeansSuffices(cfg: Config, env: Env, s: Sys)
    requires cfg.Valid() && Reachable(cfg, env, s) && IsDone(cfg, s)
    ensures SamplerSuffices(cfg, env)
    ensures cfg.maxWindows.Some? ==> s.generated == cfg.maxWindows.value
  {
    hide Reachable, Count, DataInv, SampleInv;
    CoreParts(cfg, env, s);
    SamplerInvariant(cfg, env, s);
    SentAtMostGenerated(cfg, s);
    BuiltFromRows(cfg, env, s);
  }

  lemma OverMeansTotal(cfg: Config, env: Env, s: Sys)
    requires cfg.Valid() && SamplerSuffices(cfg, env) && Reachable(cfg, env, s) && !WantsSample(cfg, s)
    ensures IsTotal(cfg, env, s.generated)
  {
    hide Reachable, Count, DataInv, SampleInv;
    CoreParts(cfg, env, s);
    SamplerInvariant(cfg, env, s);
    SamplingOver(cfg, env, s);
    BuiltFromRows(cfg, env, s);
    if cfg.maxWindows.None? {
      forall m: nat | CanBuild(cfg, env, m) ensures m <= s.generated {
        var i: nat :| Unended(env, i) && m <= Count(cfg.window, RowsIn(env, i));
        var e := s.samplesTaken - 1;
        assert i <= e;
        RowsMonotone(env, i, e);
        CountMonotone(cfg.window, RowsIn(env, i), RowsIn(env, e));
      }
    }
  }

  lemma DoneWantsNothing(cfg: Config, env: Env, s: Sys)
    requires cfg.Valid() && Reachable(cfg, env, s) && IsDone(cfg, s)
    ensures !WantsSample(cfg, s)
  {
    hide Reachable;
    DoneMeansSuffices(cfg, env, s);
  }

  // ---------------------------------------------------------------------
  // The rows a window can be made of
  // ---------------------------------------------------------------------

  /** All rows have the same number of values. */
  ghost predicate RowsFit(env: Env, dims: nat) {
    forall n: nat :: env.sample(n).SampleRow? ==> |env.sample(n).row| == dims
  }

  ghost predicate Fit(rows: seq<Row>, dims: nat) {
    forall i :: 0 <= i < |rows| ==> |rows[i]| == dims
  }

  /** Some answer of the sampler is this row. */
  ghost predicate Gives(env: Env, row: Row) {
    exists n: nat :: env.sample(n) == SampleRow(row)
  }

  ghost predicate FromSampler(env: Env, rows: seq<Row>) {
    forall i :: 0 <= i < |rows| ==> Gives(env, rows[i])
  }

  lemma FedGivenStep(cfg: Config, env: Env, s: Sys, step: Step)
    requires cfg.window.Valid() && FromSampler(env, s.fed) && Enabled(cfg, s, step)
    ensures FromSampler(env, Apply(cfg, env, s, step).fed)
  {
    hide ParseReply, ParseData, RecordSend, SendFromA, SendFromB, Drop, CanSend, AckEvent, RetryDue, FailureDue;
    hide Windows.Feed, Gives;
    match step {
      case Sampling =>
        if env.sample(s.samplesTaken).SampleRow? {
          IsGiven(env, s.samplesTaken);
        }
      case _ =>
    }
  }

  lemma IsGiven(env: Env, n: nat)
    requires env.sample(n).SampleRow?
    ensures Gives(env, env.sample(n).row)
  {
  }

  lemma {:induction false} FedGivenAlong(cfg: Config, env: Env, s: Sys, steps: seq<Step>, t: Sys)
    requires cfg.window.Valid() && FromSampler(env, s.fed) && Leads(cfg, env, s, steps, t)
    ensures FromSampler(env, t.fed)
    decreases |steps|
  {
    hide Apply, Enabled, FromSampler;
    if steps != [] {
      FedGivenStep(cfg, env, s, steps[0]);
      FedGivenAlong(cfg, env, Apply(cfg, env, s, steps[0]), steps[1..], t);
    }
  }

  /** The window builder is fed with answers of the sampler and nothing else. */
  lemma FedGiven(cfg: Config, env: Env, s: Sys)
    requires cfg.window.Valid() && Reachable(cfg, env, s)
    ensures FromSampler(env, s.fed)
  {
    hide Leads;
    var start: nat, steps :| Leads(cfg, env, Init(start), steps, s);
    FedGivenAlong(cfg, env, Init(start), steps, s);
  }

  lemma GivenFit(env: Env, dims: nat, rows: seq<Row>)
    requires RowsFit(env, dims) && FromSampler(env, rows)
    ensures Fit(rows, dims)
  {
    forall i | 0 <= i < |rows| ensures |rows[i]| == dims {
      assert Gives(env, rows[i]);
    }
  }

  /** All rows fed to the window builder have the length of the sampler's rows. */
  lemma FedFits(cfg: Config, env: Env, dims: nat, s: Sys)
    requires cfg.window.Valid() && RowsFit(env, dims) && Reachable(cfg, env, s)
    ensures Fit(s.fed, dims)
  {
    hide Reachable, RowsFit, FromSampler;
    FedGiven(cfg, env, s);
    GivenFit(env, dims, s.fed);
  }

  /** A record is made of W rows that the sampler gave. */
  lemma RecordRows(cfg: Config, env: Env, s: Sys, id: nat) returns (rows: seq<Row>)
    requires cfg.window.Valid() && SampleInv(cfg, s) && FromSampler(env, s.fed) && id < |s.dataset|
    ensures |rows| == cfg.window.W && FromSampler(env, rows) && s.dataset[id] == Flatten(rows)
  {
    hide Count, Emitted, After, Flatten, Gives;
    WindowJoin(cfg.window, s.fed);
    var start := id * cfg.window.stride;
    assert IsWindowAt(cfg.window, s.fed, start, s.dataset[id]);
    rows := s.fed[start..start + cfg.window.W];
  }

  /** All windows of rows with that many values make frames of length n. */
  ghost predicate Uniform(cfg: Config, dims: nat, n: nat)
    requires cfg.window.Valid()
  {
    forall rows: seq<Row> :: |rows| == cfg.window.W && Fit(rows, dims) ==> 2 + |cfg.encode(Flatten(rows))| == n
  }
}
