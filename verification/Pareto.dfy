/** The Pareto front of a parameter sweep (`_pareto_front` in scripts/phase2_sweep_bam.py): small x and
    small y are both wanted. */
module Pareto {
  import opened Basics

  /** A point with the item it belongs to. */
  datatype Point = Point(x: real, y: real, item: int)

  /** Tuples (x, y) compare lexicographically. */
  predicate Leq(p: Point, q: Point) {
    p.x < q.x || (p.x == q.x && p.y <= q.y)
  }

  predicate Sorted(s: seq<Point>) {
    forall i, j :: 0 <= i < j < |s| ==> Leq(s[i], s[j])
  }

  /** p is at least as good as q in both coordinates. */
  predicate Covers(p: Point, q: Point) {
    p.x <= q.x && p.y <= q.y
  }

  /** p is at least as good in both and better in one. */
  predicate Dominates(p: Point, q: Point) {
    Covers(p, q) && (p.x < q.x || p.y < q.y)
  }

  ghost predicate Undominated(p: Point, points: seq<Point>) {
    forall q <- points :: !Dominates(q, p)
  }

  ghost predicate Covered(q: Point, front: seq<Point>) {
    exists p <- front :: Covers(p, q)
  }

  /** What a front has to be: taken from the points, not dominated by any of them, covering all of them,
      and strictly increasing in x and decreasing in y. */
  ghost predicate IsFront(front: seq<Point>, points: seq<Point>) {
    && (forall p <- front :: p in points && Undominated(p, points))
    && (forall q <- points :: Covered(q, front))
    && Descending(front)
  }

  predicate Descending(front: seq<Point>) {
    forall i, j :: 0 <= i < j < |front| ==> front[i].x < front[j].x && front[i].y > front[j].y
  }

  // ---------------------------------------------------------------------
  // Sorting
  // ---------------------------------------------------------------------

  /** `list.sort` is stable; here it inserts behind every point that is not greater. */
  function Insert(s: seq<Point>, p: Point): seq<Point> {
    if s == [] || Leq(s[|s| - 1], p) then s + [p]
    else Insert(s[..|s| - 1], p) + [s[|s| - 1]]
  }

  function Sort(s: seq<Point>): seq<Point> {
    if s == [] then [] else Insert(Sort(s[..|s| - 1]), s[|s| - 1])
  }

  lemma {:induction false} InsertKeeps(s: seq<Point>, p: Point)
    ensures forall q :: q in Insert(s, p) <==> q in s || q == p
  {
    if s != [] && !Leq(s[|s| - 1], p) {
      InsertKeeps(s[..|s| - 1], p);
      assert s == s[..|s| - 1] + [s[|s| - 1]];
    }
  }

  lemma {:induction false} InsertSorts(s: seq<Point>, p: Point)
    requires Sorted(s)
    ensures Sorted(Insert(s, p))
  {
    if s != [] && !Leq(s[|s| - 1], p) {
      var init, last := s[..|s| - 1], s[|s| - 1];
      InsertSorts(init, p);
      InsertKeeps(init, p);
      forall q | q in Insert(init, p) ensures Leq(q, last) {
      }
    }
  }

  lemma {:induction false} SortCorrect(s: seq<Point>)
    ensures Sorted(Sort(s)) && forall q :: q in Sort(s) <==> q in s
  {
    if s != [] {
      var init, last := s[..|s| - 1], s[|s| - 1];
      SortCorrect(init);
      InsertSorts(Sort(init), last);
      InsertKeeps(Sort(init), last);
      assert s == init + [last];
    }
  }

  // ---------------------------------------------------------------------
  // The sweep
  // ---------------------------------------------------------------------

  /** What the sweep has established after some of the sorted points: their front, and `best`, the
      smallest y so far, with `None` for infinity. */
  ghost predicate Swept(front: seq<Point>, seen: seq<Point>, best: Option<real>) {
    && IsFront(front, seen)
    && best == (if front == [] then None else Some(front[|front| - 1].y))
  }

  /** The last kept point is the rightmost and the lowest. */
  lemma LastIsLowest(front: seq<Point>, p: Point)
    requires Descending(front) && p in front
    ensures var last := front[|front| - 1];
            p == last || (p.x < last.x && p.y > last.y)
  {
  }

  lemma StillUndominated(p: Point, seen: seq<Point>, t: Point)
    requires Undominated(p, seen) && !Dominates(t, p)
    ensures Undominated(p, seen + [t])
  {
  }

  lemma StillCovered(q: Point, front: seq<Point>, t: Point)
    requires Covered(q, front)
    ensures Covered(q, front + [t])
  {
    var p :| p in front && Covers(p, q);
    assert p in front + [t];
  }

  lemma CoveredHere(q: Point, front: seq<Point>, p: Point)
    requires p in front && Covers(p, q)
    ensures Covered(q, front)
  {
  }

  /** The new point is not below the last kept one. */
  lemma Skipped(front: seq<Point>, seen: seq<Point>, best: Option<real>, t: Point)
    requires Swept(front, seen, best) && (forall q <- seen :: Leq(q, t)) && best.Some? && t.y >= best.value
    ensures Swept(front, seen + [t], best)
  {
    hide Undominated, Covered;
    var last := front[|front| - 1];
    assert last in front && Leq(last, t);
    CoveredHere(t, front, last);
    forall p <- front ensures Undominated(p, seen + [t]) {
      LastIsLowest(front, p);
      StillUndominated(p, seen, t);
    }
  }

  /** The new point is below the last kept one, hence strictly to the right of it. */
  lemma Kept(front: seq<Point>, seen: seq<Point>, best: Option<real>, t: Point)
    requires Swept(front, seen, best) && (forall q <- seen :: Leq(q, t)) && (best.None? || t.y < best.value)
    ensures Swept(front + [t], seen + [t], Some(t.y))
  {
    hide Undominated, Covered;
    var wider := front + [t];
    forall p <- front ensures p.x < t.x && p.y > t.y {
      LastIsLowest(front, p);
      assert Leq(front[|front| - 1], t);
    }
    LowestUndominated(front, seen, t);
    StillUndominated(t, seen, t);
    forall p <- front ensures Undominated(p, seen + [t]) {
      StillUndominated(p, seen, t);
    }
    forall q <- seen ensures Covered(q, wider) {
      StillCovered(q, front, t);
    }
    CoveredHere(t, wider, t);
  }

  /** Nothing seen so far is as low as a point below the whole front. */
  lemma LowestUndominated(front: seq<Point>, seen: seq<Point>, t: Point)
    requires (forall q <- seen :: Covered(q, front)) && forall p <- front :: p.y > t.y
    ensures Undominated(t, seen)
  {
    forall q <- seen ensures !Dominates(q, t) {
      assert Covered(q, front);
      var p :| p in front && Covers(p, q);
    }
  }

  /** No kept point is dominated by any point, every point is covered by a kept one, and the kept points
      run strictly to the right and strictly down. */
  method ParetoFront(points: seq<Point>) returns (front: seq<Point>)
    ensures IsFront(front, points)
  {
    hide IsFront, Swept;
    SortCorrect(points);
    var pts := Sort(points);
    front := [];
    var bestY: Option<real> := None;
    NothingSwept();
    assert pts[..0] == [];
    for i := 0 to |pts|
      invariant Swept(front, pts[..i], bestY)
    {
      assert pts[..i + 1] == pts[..i] + [pts[i]];
      if bestY.None? || pts[i].y < bestY.value {
        Kept(front, pts[..i], bestY, pts[i]);
        bestY := Some(pts[i].y);
        front := front + [pts[i]];
      } else {
        Skipped(front, pts[..i], bestY, pts[i]);
      }
    }
    assert pts[..|pts|] == pts;
    FrontOfSorted(front, pts, points, bestY);
  }

  lemma NothingSwept()
    ensures Swept([], [], None)
  {
  }

  lemma FrontOfSorted(front: seq<Point>, pts: seq<Point>, points: seq<Point>, best: Option<real>)
    requires Swept(front, pts, best) && forall q :: q in pts <==> q in points
    ensures IsFront(front, points)
  {
    hide Covered;
    forall p <- front ensures Undominated(p, points) {
      assert Undominated(p, pts);
    }
  }

  /** The coordinates of a front are determined by the points: every point of one front appears in any
      other one. */
  lemma FrontIsUnique(a: seq<Point>, b: seq<Point>, points: seq<Point>, p: Point)
    requires IsFront(a, points) && IsFront(b, points) && p in a
    ensures exists q :: q in b && q.x == p.x && q.y == p.y
  {
    hide IsFront;
    FrontMember(a, points, p);
    CoveredBy(b, points, p);
    var q :| q in b && Covers(q, p);
    FrontMember(b, points, q);
    NotDominated(p, points, q);
  }

  lemma FrontMember(front: seq<Point>, points: seq<Point>, p: Point)
    requires IsFront(front, points) && p in front
    ensures p in points && Undominated(p, points)
  {
    hide Undominated, Covered;
  }

  lemma CoveredBy(front: seq<Point>, points: seq<Point>, q: Point)
    requires IsFront(front, points) && q in points
    ensures exists p :: p in front && Covers(p, q)
  {
    hide Undominated;
    assert Covered(q, front);
  }

  lemma NotDominated(p: Point, points: seq<Point>, q: Point)
    requires Undominated(p, points) && q in points
    ensures !Dominates(q, p)
  {
  }
}
