/** What the two replay scripts make of any log, whether or not a run of the link could have written it:
    which line each entry of the table comes from, which window each acknowledgement is joined to, and
    what is counted as inferred or unjoined.

    Sources: scripts/phase3_report.py (`_infer_acked_window_ids`), scripts/validate_run.py
    (`_acked_window_ids`). */
module LogJoin {
  import opened Basics
  import opened LogLines
  import opened LogReplay

  // ---------------------------------------------------------------------
  // Lines
  // ---------------------------------------------------------------------

  /** A line of a first attempt; a missing attempt number, and the number 0, count as 1. */
  predicate FirstLine(e: Record) {
    e.kind.SentKind? && e.sn.Some? && (e.attempt.Some? ==> e.attempt.value == 0 || e.attempt.value == 1)
  }

  /** A line that can put an entry under the SEQ k: a first attempt, or a later one that names its window. */
  predicate Puts(e: Record, k: int) {
    e.kind.SentKind? && e.sn == Some(k) && (FirstLine(e) || e.windowId.Some?)
  }

  /** A line of an answer to some SEQ. */
  predicate AckLine(e: Record) {
    e.kind.AckKind? && e.ackSeq.Some?
  }

  /** A line after which nothing is in the table under k: an answer, and for `phase3_report` a failure. */
  predicate Clears(script: Script, e: Record, k: int) {
    (AckLine(e) && e.ackSeq.value == k) || (script.Phase3Report? && e.kind.FailKind? && e.sn == Some(k))
  }

  /** Line i can put an entry under k, and nothing after it clears k. */
  predicate Lasts(script: Script, log: seq<Record>, k: int, i: nat) {
    i < |log| && Puts(log[i], k) && forall m :: i < m < |log| ==> !Clears(script, log[m], k)
  }

  /** Line j is the one whose window is in the table under k: nothing has cleared k since, no first
      attempt has replaced it, and if it is itself a later attempt, it found no entry. */
  ghost predicate Holds(script: Script, log: seq<Record>, k: int, j: nat) {
    && Lasts(script, log, k, j)
    && (forall m :: j < m < |log| && FirstLine(log[m]) ==> log[m].sn.value != k)
    && (FirstLine(log[j]) || forall i: nat :: i < j ==> !Lasts(script, log, k, i))
  }

  // ---------------------------------------------------------------------
  // Inferred ids
  // ---------------------------------------------------------------------

  /** How many first attempts do not name their window. */
  function Nameless(log: seq<Record>): nat {
    if log == [] then 0
    else
      var n := |log| - 1;
      Nameless(log[..n]) + (if FirstLine(log[n]) && log[n].windowId.None? then 1 else 0)
  }

  /** One more than the largest window of a first attempt so far, and at least 0. */
  function Following(log: seq<Record>): int {
    if log == [] then 0
    else
      var n := |log| - 1;
      if !FirstLine(log[n]) then Following(log[..n])
      else if log[n].windowId.None? then Following(log[..n]) + 1
      else Max(Following(log[..n]), log[n].windowId.value + 1)
  }

  /** The window of line j: its own id, else the number the script infers for it. */
  function WindowOf(script: Script, log: seq<Record>, j: nat): int
    requires j < |log|
  {
    if log[j].windowId.Some? then log[j].windowId.value
    else if script.Phase3Report? then Nameless(log[..j])
    else Following(log[..j])
  }

  lemma {:induction false} NextIs(script: Script, log: seq<Record>)
    ensures ReplayAll(script, log).next == if script.Phase3Report? then Nameless(log) else Following(log)
  {
    if log != [] {
      NextIs(script, log[..|log| - 1]);
    }
  }

  /** What `Following` means: the first attempts so far all have smaller windows, and unless it is 0 one
      of them has the window just below. */
  lemma {:induction false} FollowingIs(log: seq<Record>)
    ensures Following(log) >= 0
    ensures forall j :: 0 <= j < |log| && FirstLine(log[j]) ==> WindowOf(ValidateRun, log, j) < Following(log)
    ensures Following(log) > 0 ==>
              exists j :: 0 <= j < |log| && FirstLine(log[j]) && WindowOf(ValidateRun, log, j) == Following(log) - 1
  {
    if log != [] {
      var n := |log| - 1;
      var before := log[..n];
      FollowingIs(before);
      forall j | 0 <= j < n ensures WindowOf(ValidateRun, log, j) == WindowOf(ValidateRun, before, j) {
        assert log[..j] == before[..j];
      }
      if Following(log) == Following(before) && Following(log) > 0 {
        var j :| 0 <= j < n && FirstLine(before[j]) && WindowOf(ValidateRun, before, j) == Following(before) - 1;
        assert log[j] == before[j];
      }
    }
  }

  // ---------------------------------------------------------------------
  // The table
  // ---------------------------------------------------------------------

  lemma LastsSnoc(script: Script, log: seq<Record>, e: Record, k: int, i: nat)
    ensures Lasts(script, log + [e], k, i)
            <==> if i == |log| then Puts(e, k) else Lasts(script, log, k, i) && !Clears(script, e, k)
  {
    if Lasts(script, log + [e], k, i) && i < |log| {
      assert (log + [e])[|log|] == e;
      assert forall m :: 0 <= m < |log| ==> (log + [e])[m] == log[m];
    }
  }

  /** What one line does to the entry under k. */
  lemma OneEntry(script: Script, r: Replay, e: Record, k: int)
    ensures var t := ReplayOne(script, r, e).table;
            && (k in t <==> Puts(e, k) || (k in r.table && !Clears(script, e, k)))
            && (k in t && (!Puts(e, k) || (k in r.table && !FirstLine(e))) ==> t[k] == r.table[k])
            && (k in t && Puts(e, k) && (k !in r.table || FirstLine(e)) ==>
                  t[k] == if e.windowId.Some? then e.windowId.value else r.next)
  {
  }

  /** The table has an entry under k exactly when some line that could put one has not been cleared. */
  lemma {:induction false} EntryIff(script: Script, log: seq<Record>, k: int)
    ensures k in ReplayAll(script, log).table <==> exists i: nat :: Lasts(script, log, k, i)
  {
    if log != [] {
      var before, e := log[..|log| - 1], log[|log| - 1];
      assert log == before + [e];
      EntryIff(script, before, k);
      ReplaySnoc(script, before, e);
      OneEntry(script, ReplayAll(script, before), e, k);
      hide ReplayAll, ReplayOne, Lasts, Clears, Puts;
      if Puts(e, k) {
        LastsSnoc(script, before, e, k, |before|);
      } else if k in ReplayAll(script, log).table {
        var i: nat :| Lasts(script, before, k, i);
        NotPast(script, before, k, i);
        LastsSnoc(script, before, e, k, i);
      } else if i: nat :| Lasts(script, log, k, i) {
        LastsSnoc(script, before, e, k, i);
      }
    }
  }

  lemma NotPast(script: Script, log: seq<Record>, k: int, i: nat)
    requires Lasts(script, log, k, i)
    ensures i < |log|
  {
  }

  lemma HoldsSnoc(script: Script, log: seq<Record>, e: Record, k: int, j: nat)
    ensures Holds(script, log + [e], k, j)
            <==> if j == |log| then Puts(e, k) && (FirstLine(e) || forall i: nat :: !Lasts(script, log, k, i))
                 else Holds(script, log, k, j) && !Clears(script, e, k) && !(FirstLine(e) && e.sn.value == k)
  {
    forall i: nat
      ensures Lasts(script, log + [e], k, i)
              <==> if i == |log| then Puts(e, k) else Lasts(script, log, k, i) && !Clears(script, e, k)
    {
      LastsSnoc(script, log, e, k, i);
    }
    if j < |log| {
      assert (log + [e])[|log|] == e;
      assert forall m :: 0 <= m < |log| ==> (log + [e])[m] == log[m];
      hide Lasts, FirstLine, Clears;
    } else {
      assert Puts(e, k) ==> !Clears(script, e, k);
      forall i: nat ensures Lasts(script, log, k, i) ==> i < |log| {
      }
      hide Lasts, FirstLine, Clears;
    }
  }

  lemma WindowSnoc(script: Script, log: seq<Record>, e: Record, j: nat)
    requires j < |log|
    ensures WindowOf(script, log + [e], j) == WindowOf(script, log, j)
  {
    assert (log + [e])[..j] == log[..j];
  }

  lemma WindowOfLast(script: Script, log: seq<Record>, e: Record)
    ensures WindowOf(script, log + [e], |log|)
            == if e.windowId.Some? then e.windowId.value else ReplayAll(script, log).next
  {
    assert (log + [e])[..|log|] == log;
    NextIs(script, log);
  }

  /** Every entry is that of a line that holds it. */
  lemma {:induction false} TableHolds(script: Script, log: seq<Record>, k: int) returns (j: nat)
    requires k in ReplayAll(script, log).table
    ensures Holds(script, log, k, j) && ReplayAll(script, log).table[k] == WindowOf(script, log, j)
  {
    var before, e := log[..|log| - 1], log[|log| - 1];
    assert log == before + [e];
    EntryIff(script, before, k);
    ReplaySnoc(script, before, e);
    OneEntry(script, ReplayAll(script, before), e, k);
    WindowOfLast(script, before, e);
    hide ReplayAll, ReplayOne, WindowOf, Holds, Clears, Lasts;
    if Puts(e, k) && (FirstLine(e) || k !in ReplayAll(script, before).table) {
      j := |before|;
      HoldsSnoc(script, before, e, k, j);
    } else {
      j := TableHolds(script, before, k);
      HoldsInside(script, before, k, j);
      HoldsSnoc(script, before, e, k, j);
      WindowSnoc(script, before, e, j);
    }
  }

  lemma HoldsInside(script: Script, log: seq<Record>, k: int, j: nat)
    requires Holds(script, log, k, j)
    ensures j < |log| && Lasts(script, log, k, j)
  {
  }

  /** At most one line holds an entry. */
  lemma HeldOnce(script: Script, log: seq<Record>, k: int, i: nat, j: nat)
    requires Holds(script, log, k, i) && Holds(script, log, k, j)
    ensures i == j
  {
  }

  lemma Held(script: Script, log: seq<Record>, k: int, j: nat)
    requires Holds(script, log, k, j)
    ensures k in ReplayAll(script, log).table && ReplayAll(script, log).table[k] == WindowOf(script, log, j)
  {
    hide ReplayAll, WindowOf;
    EntryIff(script, log, k);
    var i := TableHolds(script, log, k);
    HeldOnce(script, log, k, i, j);
  }

  // ---------------------------------------------------------------------
  // What the acknowledgements are joined to
  // ---------------------------------------------------------------------

  /** The answer on line i names its window, or some line before it has put an entry under its SEQ that
      has not been cleared. */
  ghost predicate Joined(script: Script, log: seq<Record>, i: nat) {
    && i < |log|
    && AckLine(log[i])
    && (log[i].windowId.Some? || exists j: nat :: Lasts(script, log[..i], log[i].ackSeq.value, j))
  }

  ghost predicate Unjoined(script: Script, log: seq<Record>, i: nat) {
    i < |log| && AckLine(log[i]) && !Joined(script, log, i)
  }

  ghost function JoinedLines(script: Script, log: seq<Record>): set<nat> {
    set i: nat | i < |log| && Joined(script, log, i)
  }

  ghost function UnjoinedLines(script: Script, log: seq<Record>): set<nat> {
    set i: nat | i < |log| && Unjoined(script, log, i)
  }

  function InferredLines(log: seq<Record>): set<nat> {
    set i: nat | i < |log| && FirstLine(log[i]) && log[i].windowId.None?
  }

  /** An answer that names its window or finds an entry. */
  predicate Finds(r: Replay, e: Record) {
    AckLine(e) && (e.windowId.Some? || e.ackSeq.value in r.table)
  }

  lemma JoinedSnoc(script: Script, log: seq<Record>, e: Record, i: nat)
    ensures Joined(script, log + [e], i)
            <==> if i == |log| then Finds(ReplayAll(script, log), e) else Joined(script, log, i)
  {
    assert (log + [e])[..|log|] == log;
    if i < |log| {
      assert (log + [e])[..i] == log[..i];
    } else if i == |log| && AckLine(e) {
      EntryIff(script, log, e.ackSeq.value);
    }
  }

  lemma JoinedCount(script: Script, log: seq<Record>, e: Record)
    ensures |JoinedLines(script, log + [e])|
            == |JoinedLines(script, log)| + (if Finds(ReplayAll(script, log), e) then 1 else 0)
  {
    hide Joined, ReplayAll, Finds;
    forall i: nat
      ensures Joined(script, log + [e], i)
              <==> if i == |log| then Finds(ReplayAll(script, log), e) else Joined(script, log, i)
    {
      JoinedSnoc(script, log, e, i);
    }
    assert JoinedLines(script, log + [e])
        == JoinedLines(script, log) + (if Finds(ReplayAll(script, log), e) then {|log|} else {});
  }

  lemma UnjoinedCount(script: Script, log: seq<Record>, e: Record)
    ensures |UnjoinedLines(script, log + [e])|
            == |UnjoinedLines(script, log)| + (if AckLine(e) && !Finds(ReplayAll(script, log), e) then 1 else 0)
  {
    var here := AckLine(e) && !Finds(ReplayAll(script, log), e);
    forall i: nat
      ensures Unjoined(script, log + [e], i) <==> if i == |log| then here else Unjoined(script, log, i)
    {
      hide AckLine, ReplayAll;
      JoinedSnoc(script, log, e, i);
    }
    hide Unjoined, AckLine, ReplayAll, Finds;
    assert UnjoinedLines(script, log + [e]) == UnjoinedLines(script, log) + (if here then {|log|} else {});
  }

  lemma InferredCount(log: seq<Record>, e: Record)
    ensures |InferredLines(log + [e])|
            == |InferredLines(log)| + (if FirstLine(e) && e.windowId.None? then 1 else 0)
  {
    hide FirstLine;
    assert forall i :: 0 <= i < |log| ==> (log + [e])[i] == log[i];
    assert InferredLines(log + [e])
        == InferredLines(log) + (if FirstLine(e) && e.windowId.None? then {|log|} else {});
  }

  /** What one line does to the list of acknowledged windows and to the counters. */
  lemma OneAnswer(script: Script, r: Replay, e: Record)
    ensures var t := ReplayOne(script, r, e);
            && (Finds(r, e) ==>
                  t.acked == r.acked + [if e.windowId.Some? then e.windowId.value else r.table[e.ackSeq.value]])
            && (!Finds(r, e) ==> t.acked == r.acked)
            && t.unjoined == r.unjoined + (if script.ValidateRun? && AckLine(e) && !Finds(r, e) then 1 else 0)
            && t.inferred == r.inferred
                 + (if script.ValidateRun? && FirstLine(e) && e.windowId.None? then 1 else 0)
  {
  }

  /** For any log: the answers that are joined are those that name their window or find an entry; only
      `validate_run` counts the others, and the first attempts it has to number itself. */
  lemma {:induction false} ScriptCounts(script: Script, log: seq<Record>)
    ensures var r := ReplayAll(script, log);
            && |r.acked| == |JoinedLines(script, log)|
            && r.unjoined == (if script.ValidateRun? then |UnjoinedLines(script, log)| else 0)
            && r.inferred == (if script.ValidateRun? then |InferredLines(log)| else 0)
  {
    if log == [] {
      assert JoinedLines(script, log) == UnjoinedLines(script, log) == InferredLines(log) == {};
    } else {
      var before, e := log[..|log| - 1], log[|log| - 1];
      assert log == before + [e];
      ScriptCounts(script, before);
      ReplaySnoc(script, before, e);
      OneAnswer(script, ReplayAll(script, before), e);
      JoinedCount(script, before, e);
      UnjoinedCount(script, before, e);
      InferredCount(before, e);
      hide ReplayAll, ReplayOne, JoinedLines, UnjoinedLines, InferredLines, FirstLine;
    }
  }

  /** For any log: the answer on line i is joined to the window it names, else to the window of the line
      that holds the entry under its SEQ. */
  lemma {:induction false} ScriptJoins(script: Script, log: seq<Record>, i: nat)
    requires Joined(script, log, i)
    ensures var acked, place := ReplayAll(script, log).acked, |JoinedLines(script, log[..i])|;
            && place < |acked|
            && (log[i].windowId.Some? ==> acked[place] == log[i].windowId.value)
            && (log[i].windowId.None? ==>
                  forall j: nat :: Holds(script, log[..i], log[i].ackSeq.value, j) ==>
                    acked[place] == WindowOf(script, log[..i], j))
  {
    var n := |log| - 1;
    var before, e := log[..n], log[n];
    assert log == before + [e];
    ReplaySnoc(script, before, e);
    OneAnswer(script, ReplayAll(script, before), e);
    if i < n {
      JoinedSnoc(script, before, e, i);
      ScriptJoins(script, before, i);
      assert before[..i] == log[..i];
    } else {
      JoinsHere(script, before, e);
    }
  }

  lemma JoinsHere(script: Script, log: seq<Record>, e: Record)
    requires Joined(script, log + [e], |log|)
    ensures var acked, place := ReplayAll(script, log + [e]).acked, |JoinedLines(script, log)|;
            && place < |acked|
            && (e.windowId.Some? ==> acked[place] == e.windowId.value)
            && (e.windowId.None? ==>
                  forall j: nat :: Holds(script, log, e.ackSeq.value, j) ==> acked[place] == WindowOf(script, log, j))
  {
    ScriptCounts(script, log);
    ReplaySnoc(script, log, e);
    OneAnswer(script, ReplayAll(script, log), e);
    JoinedSnoc(script, log, e, |log|);
    hide ReplayAll, ReplayOne, Holds, WindowOf, JoinedLines;
    if e.windowId.None? {
      forall j: nat | Holds(script, log, e.ackSeq.value, j)
        ensures ReplayAll(script, log).table[e.ackSeq.value] == WindowOf(script, log, j)
      {
        Held(script, log, e.ackSeq.value, j);
      }
    }
  }
}
