/** The two scripts that rebuild from a log which windows were delivered: `_infer_acked_window_ids` in
    scripts/phase3_report.py and `_acked_window_ids` in scripts/validate_run.py. */
module LogReplay {
  import opened Basics
  import opened LogLines

  datatype Script = Phase3Report | ValidateRun

  /** What both scripts carry along: the table from SEQ to window, the id the next window without one
      would get, the acknowledged ids, and the two warnings of `validate_run`. */
  datatype Replay = Replay(table: map<int, int>, next: int, acked: seq<int>, inferred: nat, unjoined: nat)

  const Start := Replay(map[], 0, [], 0, 0)

  function ReplaySent(script: Script, r: Replay, e: Record): Replay {
    if e.sn.None? then r
    else if Or(e.attempt, 1) == 1 then
      var id := if e.windowId.Some? then e.windowId.value else r.next;
      match script
      case Phase3Report =>
        r.(table := r.table[e.sn.value := id], next := if e.windowId.Some? then r.next else r.next + 1)
      case ValidateRun =>
        r.(table := r.table[e.sn.value := id], next := Max(r.next, id + 1),
           inferred := if e.windowId.Some? then r.inferred else r.inferred + 1)
    else if e.windowId.Some? && e.sn.value !in r.table then
      r.(table := r.table[e.sn.value := e.windowId.value])
    else r
  }

  /** The id an acknowledgement is joined to: its own, else the one the table holds for its SEQ. */
  function JoinedId(r: Replay, e: Record): Option<int> {
    if e.windowId.Some? then e.windowId
    else if e.ackSeq.Some? && e.ackSeq.value in r.table then Some(r.table[e.ackSeq.value])
    else None
  }

  function ReplayAck(script: Script, r: Replay, e: Record): Replay {
    if e.ackSeq.None? then r
    else
      match JoinedId(r, e)
      case Some(id) => r.(acked := r.acked + [id], table := r.table - {e.ackSeq.value})
      case None =>
        if script.Phase3Report? then r.(table := r.table - {e.ackSeq.value})
        else r.(unjoined := r.unjoined + 1)
  }

  function ReplayFail(script: Script, r: Replay, e: Record): Replay {
    if e.sn.None? || script.ValidateRun? then r else r.(table := r.table - {e.sn.value})
  }

  function ReplayOne(script: Script, r: Replay, e: Record): Replay {
    match e.kind
    case SentKind => ReplaySent(script, r, e)
    case AckKind => ReplayAck(script, r, e)
    case FailKind => ReplayFail(script, r, e)
    case _ => r
  }

  function ReplayAll(script: Script, records: seq<Record>): Replay {
    if records == [] then Start
    else ReplayOne(script, ReplayAll(script, records[..|records| - 1]), records[|records| - 1])
  }

  lemma ReplaySnoc(script: Script, records: seq<Record>, e: Record)
    ensures ReplayAll(script, records + [e]) == ReplayOne(script, ReplayAll(script, records), e)
  {
    assert (records + [e])[..|records + [e]| - 1] == records;
  }

  // ---------------------------------------------------------------------
  // Filtering and sorting
  // ---------------------------------------------------------------------

  function TxOnly(events: seq<Record>): seq<Record> {
    if events == [] then []
    else TxOnly(events[..|events| - 1]) + (if events[|events| - 1].role.TxRole? then [events[|events| - 1]] else [])
  }

  function Key(e: Record): int {
    Or(e.tsMs, 0)
  }

  predicate Sorted(s: seq<Record>) {
    forall i, j :: 0 <= i < j < |s| ==> Key(s[i]) <= Key(s[j])
  }

  /** Insertion behind every element whose key is not greater. */
  function InsertStable(s: seq<Record>, e: Record): seq<Record> {
    if s == [] || Key(s[|s| - 1]) <= Key(e) then s + [e]
    else InsertStable(s[..|s| - 1], e) + [s[|s| - 1]]
  }

  /** Python's stable sort by time stamp. */
  function StableSort(s: seq<Record>): seq<Record> {
    if s == [] then [] else InsertStable(StableSort(s[..|s| - 1]), s[|s| - 1])
  }

  function WithKey(s: seq<Record>, key: int): seq<Record> {
    if s == [] then []
    else WithKey(s[..|s| - 1], key) + (if Key(s[|s| - 1]) == key then [s[|s| - 1]] else [])
  }

  lemma WithKeySnoc(s: seq<Record>, e: Record, key: int)
    ensures WithKey(s + [e], key) == WithKey(s, key) + (if Key(e) == key then [e] else [])
  {
    assert (s + [e])[..|s + [e]| - 1] == s;
  }

  lemma {:induction false} InsertStablePermutes(s: seq<Record>, e: Record)
    ensures multiset(InsertStable(s, e)) == multiset(s) + multiset{e}
  {
    if s != [] && Key(s[|s| - 1]) > Key(e) {
      var init, last := s[..|s| - 1], s[|s| - 1];
      InsertStablePermutes(init, e);
      assert s == init + [last];
    }
  }

  lemma {:induction false} InsertStableSorts(s: seq<Record>, e: Record)
    requires Sorted(s)
    ensures Sorted(InsertStable(s, e))
  {
    if s != [] && Key(s[|s| - 1]) > Key(e) {
      var init, last := s[..|s| - 1], s[|s| - 1];
      InsertStableSorts(init, e);
      InsertStablePermutes(init, e);
      var t := InsertStable(init, e);
      forall i | 0 <= i < |t| ensures Key(t[i]) <= Key(last) {
        assert t[i] in multiset(t);
        assert t[i] in multiset(init) || t[i] == e;
      }
    }
  }

  lemma {:induction false} InsertStableStable(s: seq<Record>, e: Record, key: int)
    ensures WithKey(InsertStable(s, e), key) == WithKey(s, key) + (if Key(e) == key then [e] else [])
  {
    hide Key, WithKey;
    if s == [] || Key(s[|s| - 1]) <= Key(e) {
      WithKeySnoc(s, e, key);
    } else {
      var init, last := s[..|s| - 1], s[|s| - 1];
      InsertStableStable(init, e, key);
      WithKeySnoc(InsertStable(init, e), last, key);
      assert s == init + [last];
      WithKeySnoc(init, last, key);
      NotBoth(WithKey(init, key), e, last, key);
    }
  }

  lemma NotBoth(before: seq<Record>, e: Record, last: Record, key: int)
    requires Key(last) > Key(e)
    ensures var es, ls := if Key(e) == key then [e] else [], if Key(last) == key then [last] else [];
            (before + es) + ls == (before + ls) + es
  {
  }

  /** The sort is a stable sort: ordered, a permutation, and records with equal keys keep their order. */
  lemma {:induction false} StableSortCorrect(s: seq<Record>, key: int)
    ensures Sorted(StableSort(s)) && multiset(StableSort(s)) == multiset(s)
    ensures WithKey(StableSort(s), key) == WithKey(s, key)
  {
    hide Sorted, InsertStable;
    if s == [] {
      NothingToSort();
    } else {
      var init, last := s[..|s| - 1], s[|s| - 1];
      StableSortCorrect(init, key);
      InsertStableSorts(StableSort(init), last);
      InsertStablePermutes(StableSort(init), last);
      InsertStableStable(StableSort(init), last, key);
      assert s == init + [last];
      WithKeySnoc(init, last, key);
      WithKeySnoc(StableSort(init), last, key);
    }
  }

  lemma NothingToSort()
    ensures Sorted([])
  {
  }

  lemma {:induction false} SortedStays(s: seq<Record>)
    requires Sorted(s)
    ensures StableSort(s) == s
  {
    if s != [] {
      var init, last := s[..|s| - 1], s[|s| - 1];
      SortedStays(init);
      assert s == init + [last];
    }
  }

  // ---------------------------------------------------------------------
  // The scripts
  // ---------------------------------------------------------------------

  /** `[e for e in events if e.get("role") == "tx"]`, then sorted. */
  method TxEvents(events: seq<Record>) returns (txEvents: seq<Record>)
    ensures txEvents == StableSort(TxOnly(events))
  {
    var kept := [];
    for i := 0 to |events|
      invariant kept == TxOnly(events[..i])
    {
      assert events[..i + 1][..i] == events[..i];
      if events[i].role.TxRole? {
        kept := kept + [events[i]];
      }
    }
    assert events[..|events|] == events;
    txEvents := StableSort(kept);
  }

  method InferAckedWindowIds(events: seq<Record>) returns (acked: seq<int>)
    ensures acked == ReplayAll(Phase3Report, StableSort(TxOnly(events))).acked
  {
    hide StableSort, TxOnly;
    var txEvents := TxEvents(events);
    var inflight: map<int, int> := map[];
    var nextWindowId := 0;
    acked := [];
    for i := 0 to |txEvents|
      invariant ReplayAll(Phase3Report, txEvents[..i]) == Replay(inflight, nextWindowId, acked, 0, 0)
    {
      assert txEvents[..i + 1] == txEvents[..i] + [txEvents[i]];
      ReplaySnoc(Phase3Report, txEvents[..i], txEvents[i]);
      hide ReplayAll;
      var event := txEvents[i];
      match event.kind {
        case SentKind =>
          if event.sn.None? {
            continue;
          }
          var attempt := Or(event.attempt, 1);
          var windowId := event.windowId;
          if attempt == 1 {
            if windowId.None? {
              windowId := Some(nextWindowId);
              nextWindowId := nextWindowId + 1;
            }
            inflight := inflight[event.sn.value := windowId.value];
          } else if windowId.Some? && event.sn.value !in inflight {
            inflight := inflight[event.sn.value := windowId.value];
          }
        case AckKind =>
          if event.ackSeq.None? {
            continue;
          }
          var windowId := event.windowId;
          if windowId.None? && event.ackSeq.value in inflight {
            windowId := Some(inflight[event.ackSeq.value]);
          }
          if windowId.Some? {
            acked := acked + [windowId.value];
          }
          inflight := inflight - {event.ackSeq.value};
        case FailKind =>
          if event.sn.None? {
            continue;
          }
          inflight := inflight - {event.sn.value};
        case _ =>
      }
    }
    assert txEvents[..|txEvents|] == txEvents;
  }

  /** `inferred` and `unjoined` count the two warnings. */
  method AckedWindowIds(events: seq<Record>) returns (acked: seq<int>, inferred: nat, unjoined: nat)
    ensures var r := ReplayAll(ValidateRun, StableSort(TxOnly(events)));
            acked == r.acked && inferred == r.inferred && unjoined == r.unjoined
  {
    hide StableSort, TxOnly;
    var txEvents := TxEvents(events);
    var seqToWindow: map<int, int> := map[];
    var nextWindowId := 0;
    acked, inferred, unjoined := [], 0, 0;
    for i := 0 to |txEvents|
      invariant ReplayAll(ValidateRun, txEvents[..i]) == Replay(seqToWindow, nextWindowId, acked, inferred, unjoined)
    {
      assert txEvents[..i + 1] == txEvents[..i] + [txEvents[i]];
      ReplaySnoc(ValidateRun, txEvents[..i], txEvents[i]);
      hide ReplayAll;
      var event := txEvents[i];
      if event.kind.SentKind? {
        if event.sn.None? {
          continue;
        }
        var attempt := Or(event.attempt, 1);
        var windowId := event.windowId;
        if attempt == 1 {
          if windowId.None? {
            inferred := inferred + 1;
            windowId := Some(nextWindowId);
          }
          seqToWindow := seqToWindow[event.sn.value := windowId.value];
          nextWindowId := Max(nextWindowId, windowId.value + 1);
        } else if windowId.Some? && event.sn.value !in seqToWindow {
          seqToWindow := seqToWindow[event.sn.value := windowId.value];
        }
      } else if event.kind.AckKind? {
        if event.ackSeq.None? {
          continue;
        }
        var windowId := event.windowId;
        if windowId.None? && event.ackSeq.value in seqToWindow {
          windowId := Some(seqToWindow[event.ackSeq.value]);
        }
        if windowId.None? {
          unjoined := unjoined + 1;
          continue;
        }
        acked := acked + [windowId.value];
        seqToWindow := seqToWindow - {event.ackSeq.value};
      }
    }
    assert txEvents[..|txEvents|] == txEvents;
  }
}
