/** `random.shuffle`, as scripts/phase2_train_bam.py uses it for the shuffle buffer: every order comes out, and
    for different elements by exactly one choice of the places drawn. */
module Shuffling {
  function Swapped<T>(s: seq<T>, i: nat, j: nat): (r: seq<T>)
    requires i < |s| && j < |s|
    ensures |r| == |s|
  {
    s[i := s[j]][j := s[i]]
  }

  /** The random place for place i: one that is not behind it. */
  function Drawn(draw: nat -> nat, used: nat, i: nat): (j: nat)
    ensures j <= i
  {
    draw(used + i) % (i + 1)
  }

  /** Places i down to 1, each swapped with a random place not behind it. */
  function Shuffled<T>(s: seq<T>, draw: nat -> nat, used: nat, i: int): (r: seq<T>)
    requires i < |s|
    ensures |r| == |s|
    decreases i
  {
    if i < 1 then s else Shuffled(Swapped(s, i, Drawn(draw, used, i)), draw, used, i - 1)
  }

  method Shuffle<T>(items: seq<T>, draw: nat -> nat, used: nat) returns (shuffled: seq<T>)
    ensures shuffled == Shuffled(items, draw, used, |items| - 1)
  {
    hide Drawn;
    shuffled := items;
    var i := |items| - 1;
    while i >= 1
      invariant |shuffled| == |items| && i < |items|
      invariant Shuffled(shuffled, draw, used, i) == Shuffled(items, draw, used, |items| - 1)
    {
      var j := Drawn(draw, used, i);
      shuffled := shuffled[i := shuffled[j]][j := shuffled[i]];
      i := i - 1;
    }
  }

  lemma {:induction false} ShuffledPermutes<T>(s: seq<T>, draw: nat -> nat, used: nat, i: int)
    requires i < |s|
    ensures multiset(Shuffled(s, draw, used, i)) == multiset(s)
    decreases i
  {
    hide Drawn;
    if i >= 1 {
      ShuffledPermutes(Swapped(s, i, Drawn(draw, used, i)), draw, used, i - 1);
    }
  }

  /** Places behind i stay as they are. */
  lemma {:induction false} BehindStays<T>(s: seq<T>, draw: nat -> nat, used: nat, i: int, k: nat)
    requires i < k < |s|
    ensures Shuffled(s, draw, used, i)[k] == s[k]
    decreases i
  {
    hide Drawn;
    if i >= 1 {
      BehindStays(Swapped(s, i, Drawn(draw, used, i)), draw, used, i - 1, k);
    }
  }

  /** Only draws 1 to i matter, and only by the places they choose. */
  lemma {:induction false} SameDraws<T>(s: seq<T>, draw: nat -> nat, other: nat -> nat, used: nat, i: int)
    requires i < |s| && forall k: nat :: 1 <= k <= i ==> Drawn(draw, used, k) == Drawn(other, used, k)
    ensures Shuffled(s, draw, used, i) == Shuffled(s, other, used, i)
    decreases i
  {
    hide Drawn, Swapped;
    if i >= 1 {
      SameDraws(Swapped(s, i, Drawn(draw, used, i)), draw, other, used, i - 1);
    }
  }

  // ---------------------------------------------------------------------
  // Every order
  // ---------------------------------------------------------------------

  /** The first i elements are those of the target in some order. */
  ghost predicate SameFront<T>(s: seq<T>, target: seq<T>, i: nat) {
    i <= |s| && i <= |target| && multiset(s[..i]) == multiset(target[..i])
  }

  lemma Cancel<T>(a: seq<T>, b: seq<T>, x: T)
    requires multiset(a + [x]) == multiset(b + [x])
    ensures multiset(a) == multiset(b)
  {
    assert multiset(a) == multiset(a + [x]) - multiset{x};
    assert multiset(b) == multiset(b + [x]) - multiset{x};
  }

  lemma PlaceOf<T>(s: seq<T>, target: seq<T>, i: nat) returns (j: nat)
    requires i < |s| && SameFront(s, target, i + 1)
    ensures j <= i && s[j] == target[i]
  {
    var front, goal := s[..i + 1], target[..i + 1];
    assert goal[i] in multiset(goal);
    j :| 0 <= j <= i && front[j] == target[i];
  }

  lemma SwapPermutes<T>(s: seq<T>, i: nat, j: nat)
    requires i < |s| && j < |s|
    ensures multiset(Swapped(s, i, j)) == multiset(s)
  {
  }

  lemma SwapFront<T>(s: seq<T>, i: nat, j: nat)
    requires j <= i < |s|
    ensures Swapped(s[..i + 1], i, j) == Swapped(s, i, j)[..i] + [s[j]]
  {
  }

  lemma FrontAgain<T>(s: seq<T>, target: seq<T>, i: nat, j: nat)
    requires i < |s| && SameFront(s, target, i + 1) && j <= i && s[j] == target[i]
    ensures SameFront(Swapped(s, i, j), target, i)
  {
    SwapPermutes(s[..i + 1], i, j);
    SwapFront(s, i, j);
    hide Swapped;
    assert target[..i + 1] == target[..i] + [target[i]];
    Cancel(Swapped(s, i, j)[..i], target[..i], target[i]);
  }

  /** Draw j for place i, the others as before. */
  function With(rest: nat -> nat, at: nat, j: nat): nat -> nat {
    k => if k == at then j else rest(k)
  }

  lemma WithDraws(rest: nat -> nat, used: nat, i: nat, j: nat)
    requires j <= i
    ensures Drawn(With(rest, used + i, j), used, i) == j
    ensures forall k: nat :: k < i ==> Drawn(With(rest, used + i, j), used, k) == Drawn(rest, used, k)
  {
  }

  lemma {:induction false} EveryOrderUpTo<T>(s: seq<T>, target: seq<T>, used: nat, i: int) returns (draw: nat -> nat)
    requires -1 <= i < |s| && |s| == |target| && SameFront(s, target, i + 1)
    requires forall k :: i < k < |s| ==> s[k] == target[k]
    ensures Shuffled(s, draw, used, i) == target
    decreases i
  {
    if i < 1 {
      draw := k => 0;
      if i == 0 {
        var j := PlaceOf(s, target, 0);
      }
      assert s == target;
    } else {
      var j := PlaceOf(s, target, i);
      FrontAgain(s, target, i, j);
      var t := Swapped(s, i, j);
      var rest := EveryOrderUpTo(t, target, used, i - 1);
      WithDraws(rest, used, i, j);
      hide Drawn, With, SameFront;
      draw := With(rest, used + i, j);
      SameDraws(t, draw, rest, used, i - 1);
    }
  }

  /** Every order of the elements comes out for some draws. */
  lemma EveryOrder<T>(items: seq<T>, target: seq<T>, used: nat) returns (draw: nat -> nat)
    requires multiset(items) == multiset(target)
    ensures Shuffled(items, draw, used, |items| - 1) == target
  {
    assert |items| == |multiset(items)| == |multiset(target)| == |target|;
    assert items[..|items|] == items && target[..|items|] == target;
    draw := EveryOrderUpTo(items, target, used, |items| - 1);
  }

  // ---------------------------------------------------------------------
  // Each order once
  // ---------------------------------------------------------------------

  ghost predicate AllDifferent<T>(s: seq<T>) {
    forall i, j :: 0 <= i < j < |s| ==> s[i] != s[j]
  }

  lemma StillDifferent<T>(s: seq<T>, i: nat, j: nat)
    requires AllDifferent(s) && i < |s| && j < |s|
    ensures AllDifferent(Swapped(s, i, j))
  {
  }

  /** An order of different elements comes out by only one choice of places. */
  lemma {:induction false} OneChoice<T>(s: seq<T>, draw: nat -> nat, other: nat -> nat, used: nat, i: int, k: nat)
    requires i < |s| && AllDifferent(s) && Shuffled(s, draw, used, i) == Shuffled(s, other, used, i)
    requires 1 <= k <= i
    ensures draw(used + k) % (k + 1) == other(used + k) % (k + 1)
    decreases i
  {
    var a, b := Drawn(draw, used, i), Drawn(other, used, i);
    BehindStays(Swapped(s, i, a), draw, used, i - 1, i);
    BehindStays(Swapped(s, i, b), other, used, i - 1, i);
    assert s[a] == s[b];
    assert a == b;
    if k < i {
      StillDifferent(s, i, a);
      hide Drawn, Swapped, AllDifferent;
      OneChoice(Swapped(s, i, a), draw, other, used, i - 1, k);
    }
  }
}
