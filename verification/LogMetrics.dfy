/** The counting part of `compute_metrics` (loralink_mllc/experiments/metrics.py). */
module LogMetrics {
  import opened Basics
  import opened LogLines

  /** An absent count, like an absent ratio, is Python's `None`. */
  datatype Report = Report(
    sentCount: nat, ackedCount: nat, failedCount: nat, rxOkCount: nat, rxParseFailCount: nat, ackSentCount: nat,
    uniqueWindowsSent: Option<nat>, deliveredWindows: Option<nat>, deliveryRatio: Option<real>,
    retries: nat, pdr: real, etx: real, totalToaMs: real)

  function Only(events: seq<Record>, kind: Kind): seq<Record> {
    if events == [] then []
    else Only(events[..|events| - 1], kind)
         + (if events[|events| - 1].kind == kind then [events[|events| - 1]] else [])
  }

  function RetriesIn(sent: seq<Record>): nat {
    if sent == [] then 0
    else RetriesIn(sent[..|sent| - 1]) + (if Or(sent[|sent| - 1].attempt, 1) > 1 then 1 else 0)
  }

  function ToaIn(sent: seq<Record>): real {
    if sent == [] then 0.0
    else ToaIn(sent[..|sent| - 1]) + (if sent[|sent| - 1].toaMs.Some? then sent[|sent| - 1].toaMs.value else 0.0)
  }

  /** Window ids of first attempts, and of acknowledgements. */
  function FirstIds(events: seq<Record>): set<int> {
    set e <- events | e.kind.SentKind? && e.attempt == Some(1) && e.windowId.Some? :: e.windowId.value
  }

  function DeliveredIds(events: seq<Record>): set<int> {
    set e <- events | e.kind.AckKind? && e.windowId.Some? :: e.windowId.value
  }

  function CountOf(ids: set<int>): Option<nat> {
    if ids == {} then None else Some(|ids|)
  }

  function Ratio(delivered: Option<nat>, unique: Option<nat>): Option<real> {
    if delivered.Some? && unique.Some? && unique.value != 0 then Some(delivered.value as real / unique.value as real)
    else None
  }

  /** The ratio of receptions to transmissions where the log has receptions, else that of
      acknowledgements to transmissions. */
  function PdrOf(sent: nat, received: nat, acked: nat): real {
    if sent != 0 && received != 0 then received as real / sent as real
    else if sent != 0 then acked as real / sent as real
    else 0.0
  }

  function Summary(events: seq<Record>): Report {
    var sent, acked := Only(events, SentKind), Only(events, AckKind);
    var unique, delivered := CountOf(FirstIds(events)), CountOf(DeliveredIds(events));
    Report(
      |sent|, |acked|, |Only(events, FailKind)|, |Only(events, ReceivedKind)|, |Only(events, ParseFailKind)|,
      |Only(events, EchoKind)|, unique, delivered, Ratio(delivered, unique), RetriesIn(sent),
      PdrOf(|sent|, |Only(events, ReceivedKind)|, |acked|), |sent| as real / Max(|acked|, 1) as real, ToaIn(sent))
  }

  lemma OnlySnoc(events: seq<Record>, e: Record, kind: Kind)
    ensures Only(events + [e], kind) == if e.kind == kind then Only(events, kind) + [e] else Only(events, kind)
  {
    assert (events + [e])[..|events + [e]| - 1] == events;
    assert Only(events, kind) + [] == Only(events, kind);
  }

  /** A line adds 1 if it has an attempt number beyond 1, and its time on air if it has one. */
  lemma SumsSnoc(sent: seq<Record>, e: Record)
    ensures RetriesIn(sent + [e]) == RetriesIn(sent) + (if e.attempt.Some? && e.attempt.value > 1 then 1 else 0)
    ensures ToaIn(sent + [e]) == ToaIn(sent) + (if e.toaMs.Some? then e.toaMs.value else 0.0)
  {
    assert (sent + [e])[..|sent + [e]| - 1] == sent;
  }

  lemma IdsSnoc(events: seq<Record>, e: Record)
    ensures FirstIds(events + [e])
            == FirstIds(events) + (if e.kind.SentKind? && e.attempt == Some(1) && e.windowId.Some?
                                   then {e.windowId.value} else {})
    ensures DeliveredIds(events + [e])
            == DeliveredIds(events) + (if e.kind.AckKind? && e.windowId.Some? then {e.windowId.value} else {})
  {
    var all := events + [e];
    assert forall x :: x in all <==> x in events || x == e;
  }

  function LinesOf(events: seq<Record>, kind: Kind): set<nat> {
    set i: nat | i < |events| && events[i].kind == kind
  }

  /** Lines of transmissions with an attempt number beyond 1. */
  function RetryLines(events: seq<Record>): set<nat> {
    set i: nat | i < |events| && events[i].kind.SentKind? && events[i].attempt.Some? && events[i].attempt.value > 1
  }

  lemma LinesSnoc(events: seq<Record>, e: Record, kind: Kind)
    ensures |LinesOf(events + [e], kind)| == |LinesOf(events, kind)| + (if e.kind == kind then 1 else 0)
  {
    assert LinesOf(events + [e], kind) == LinesOf(events, kind) + (if e.kind == kind then {|events|} else {});
  }

  lemma RetryLinesSnoc(events: seq<Record>, e: Record)
    ensures |RetryLines(events + [e])|
            == |RetryLines(events)| + (if e.kind.SentKind? && e.attempt.Some? && e.attempt.value > 1 then 1 else 0)
  {
    assert RetryLines(events + [e]) == RetryLines(events)
        + (if e.kind.SentKind? && e.attempt.Some? && e.attempt.value > 1 then {|events|} else {});
  }

  /** For any log: the lines of each kind are counted, and the retries are the lines of later attempts. */
  lemma {:induction false} CountsLines(events: seq<Record>, kind: Kind)
    ensures |Only(events, kind)| == |LinesOf(events, kind)|
    ensures RetriesIn(Only(events, SentKind)) == |RetryLines(events)|
  {
    if events == [] {
      assert LinesOf(events, kind) == RetryLines(events) == {};
    } else {
      var before, e := events[..|events| - 1], events[|events| - 1];
      assert events == before + [e];
      CountsLines(before, kind);
      hide Only, RetriesIn, LinesOf, RetryLines;
      OnlySnoc(before, e, kind);
      OnlySnoc(before, e, SentKind);
      SumsSnoc(Only(before, SentKind), e);
      LinesSnoc(before, e, kind);
      RetryLinesSnoc(before, e);
    }
  }

  /** For any log: the ratios of the report as numbers. */
  lemma RatiosOfReport(events: seq<Record>)
    ensures var m := Summary(events);
            && (m.sentCount == 0 ==> m.pdr == 0.0)
            && (m.sentCount > 0 && m.rxOkCount > 0 ==> m.pdr * m.sentCount as real == m.rxOkCount as real)
            && (m.sentCount > 0 && m.rxOkCount == 0 ==> m.pdr * m.sentCount as real == m.ackedCount as real)
            && m.etx * Max(m.ackedCount, 1) as real == m.sentCount as real
            && (m.uniqueWindowsSent.None? <==> FirstIds(events) == {})
            && (m.deliveredWindows.None? <==> DeliveredIds(events) == {})
            && (m.deliveryRatio.Some? <==> m.uniqueWindowsSent.Some? && m.deliveredWindows.Some?)
            && (m.deliveryRatio.Some? ==>
                  m.deliveryRatio.value * m.uniqueWindowsSent.value as real == m.deliveredWindows.value as real)
  {
    RatiosOf(|Only(events, SentKind)|, |Only(events, ReceivedKind)|, |Only(events, AckKind)|);
    if FirstIds(events) != {} {
      RatioIs(CountOf(DeliveredIds(events)), |FirstIds(events)|);
    }
    hide Only, FirstIds, DeliveredIds, RetriesIn, ToaIn, PdrOf, Ratio;
  }

  lemma RatiosOf(sent: nat, received: nat, acked: nat)
    ensures sent == 0 ==> PdrOf(sent, received, acked) == 0.0
    ensures sent > 0 ==>
              PdrOf(sent, received, acked) * sent as real == (if received > 0 then received else acked) as real
    ensures sent as real / Max(acked, 1) as real * Max(acked, 1) as real == sent as real
  {
  }

  lemma RatioIs(delivered: Option<nat>, unique: nat)
    requires unique > 0
    ensures Ratio(delivered, Some(unique)).Some? <==> delivered.Some?
    ensures delivered.Some? ==> Ratio(delivered, Some(unique)).value * unique as real == delivered.value as real
    ensures Ratio(delivered, None).None?
  {
  }

  /** `[e for e in events if e.get("event") == kind]`. */
  method Select(events: seq<Record>, kind: Kind) returns (chosen: seq<Record>)
    ensures chosen == Only(events, kind)
  {
    chosen := [];
    for i := 0 to |events|
      invariant chosen == Only(events[..i], kind)
    {
      OnlySnoc(events[..i], events[i], kind);
      assert events[..i + 1] == events[..i] + [events[i]];
      if events[i].kind == kind {
        chosen := chosen + [events[i]];
      }
    }
    assert events[..|events|] == events;
  }

  method ComputeMetrics(events: seq<Record>) returns (m: Report)
    ensures m == Summary(events)
  {
    hide Only, FirstIds, DeliveredIds;
    var sent := Select(events, SentKind);
    var received := Select(events, ReceivedKind);
    var acked := Select(events, AckKind);
    var failed := Select(events, FailKind);
    var parseFail := Select(events, ParseFailKind);
    var echoed := Select(events, EchoKind);
    var unique := CountOf(FirstIds(events));
    var delivered := CountOf(DeliveredIds(events));
    var toaMs, retries := Accumulate(sent);
    m := Report(
      |sent|, |acked|, |failed|, |received|, |parseFail|, |echoed|, unique, delivered, Ratio(delivered, unique),
      retries, PdrOf(|sent|, |received|, |acked|), |sent| as real / Max(|acked|, 1) as real, toaMs);
  }

  /** The loop over the transmissions. */
  method Accumulate(sent: seq<Record>) returns (toaMs: real, retries: nat)
    ensures toaMs == ToaIn(sent) && retries == RetriesIn(sent)
  {
    toaMs, retries := 0.0, 0;
    for i := 0 to |sent|
      invariant toaMs == ToaIn(sent[..i]) && retries == RetriesIn(sent[..i])
    {
      SumsSnoc(sent[..i], sent[i]);
      assert sent[..i + 1] == sent[..i] + [sent[i]];
      if sent[i].toaMs.Some? {
        toaMs := toaMs + sent[i].toaMs.value;
      }
      var attempt := Or(sent[i].attempt, 1);
      if attempt > 1 {
        retries := retries + 1;
      }
    }
    assert sent[..|sent|] == sent;
  }
}
