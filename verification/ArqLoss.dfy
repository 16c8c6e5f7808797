/** How a mock link loses frames: by a repeating pattern, or by comparing random draws with a rate. */
module ArqLoss {
  import opened Basics

  /** The settings of one direction. An empty pattern is none. */
  datatype Losses = Losses(rate: real, draw: nat -> real, pattern: seq<bool>)

  /** What `create_mock_link` is given: settings for both directions, which each direction may override. */
  datatype LinkSpec = LinkSpec(
    rate: real, rateAb: Option<real>, rateBa: Option<real>,
    pattern: seq<bool>, patternAb: Option<seq<bool>>, patternBa: Option<seq<bool>>,
    drawAb: nat -> real, drawBa: nat -> real)
  {
    function Ab(): Losses {
      Losses(if rateAb.Some? then rateAb.value else rate, drawAb, if patternAb.Some? then patternAb.value else pattern)
    }

    function Ba(): Losses {
      Losses(if rateBa.Some? then rateBa.value else rate, drawBa, if patternBa.Some? then patternBa.value else pattern)
    }
  }

  /** A direction uses its own rate and pattern where they are given, and the common ones otherwise; its draws are
      always its own. */
  lemma EachDirection(spec: LinkSpec)
    ensures spec.rateAb == None ==> spec.Ab().rate == spec.rate
    ensures spec.rateBa == None ==> spec.Ba().rate == spec.rate
    ensures spec.patternAb == None ==> spec.Ab().pattern == spec.pattern
    ensures spec.patternBa == None ==> spec.Ba().pattern == spec.pattern
    ensures forall r: real :: spec.rateAb == Some(r) ==> spec.Ab().rate == r
    ensures forall r: real :: spec.rateBa == Some(r) ==> spec.Ba().rate == r
    ensures forall p: seq<bool> :: spec.patternAb == Some(p) ==> spec.Ab().pattern == p
    ensures forall p: seq<bool> :: spec.patternBa == Some(p) ==> spec.Ba().pattern == p
    ensures spec.Ab().draw == spec.drawAb && spec.Ba().draw == spec.drawBa
  {
  }

  /** These drop decisions are made by these settings. */
  ghost predicate LosesBy(drop: nat -> bool, losses: Losses) {
    forall n: nat ::
      drop(n) <==> if losses.pattern != [] then losses.pattern[n % |losses.pattern|] else losses.draw(n) < losses.rate
  }

  /** Any decisions can be made by some settings. */
  lemma AnyLosses(drop: nat -> bool) returns (losses: Losses)
    ensures LosesBy(drop, losses)
  {
    losses := Losses(0.5, (n: nat) => if drop(n) then 0.0 else 1.0, []);
  }

  /** With draws in [0, 1), rate 0 never drops and rate 1 always does. */
  lemma RateEnds(drop: nat -> bool, losses: Losses, n: nat)
    requires LosesBy(drop, losses) && losses.pattern == [] && forall i: nat :: 0.0 <= losses.draw(i) < 1.0
    ensures losses.rate == 0.0 ==> !drop(n)
    ensures losses.rate == 1.0 ==> drop(n)
  {
  }

  /** A higher rate drops whatever a lower one drops. */
  lemma RateGrows(drop: nat -> bool, more: nat -> bool, losses: Losses, higher: Losses, n: nat)
    requires LosesBy(drop, losses) && LosesBy(more, higher) && losses.pattern == higher.pattern == []
    requires losses.draw == higher.draw && losses.rate <= higher.rate
    ensures drop(n) ==> more(n)
  {
  }

  // ---------------------------------------------------------------------
  // Counting
  // ---------------------------------------------------------------------

  /** The frames among the first n that a pattern drops. */
  function Hit(pattern: seq<bool>, n: nat): set<nat>
    requires pattern != []
  {
    set i: nat | i < n && pattern[i % |pattern|]
  }

  lemma HitNext(pattern: seq<bool>, n: nat)
    requires pattern != []
    ensures |Hit(pattern, n + 1)| == |Hit(pattern, n)| + (if pattern[n % |pattern|] then 1 else 0)
  {
    assert Hit(pattern, n + 1) == if pattern[n % |pattern|] then Hit(pattern, n) + {n} else Hit(pattern, n);
  }

  lemma NoHits(pattern: seq<bool>)
    requires pattern != []
    ensures |Hit(pattern, 0)| == 0
  {
    assert Hit(pattern, 0) == {};
  }
}
