/** Replayed metrics equal live metrics: what `compute_metrics` reads off the log is what the transmit
    gate has counted. */
module ArqMetrics {
  import opened Basics
  import Arith
  import opened ArqModel
  import opened LogCounts
  import opened ArqInvariants
  import opened ArqCore
  import opened ArqLogOrder
  import opened LogLines
  import opened LogFile
  import opened LogMetrics

  // ---------------------------------------------------------------------
  // Counts of a file are counts of the log
  // ---------------------------------------------------------------------

  /** `file` reports the transmit events of `log` and perhaps others. */
  ghost predicate Counts(file: seq<Record>, log: seq<Event>) {
    && |Only(file, SentKind)| == Num(AnySent, log)
    && |Only(file, AckKind)| == Num(Acked, log)
    && |Only(file, FailKind)| == Num(Failed, log)
    && |Only(file, ParseFailKind)| == Num(Unreadable, log)
    && RetriesIn(Only(file, SentKind)) == Num(Resent, log)
    && ToaIn(Only(file, SentKind)) == ToaSum(log)
  }

  lemma CountsSnoc(file: seq<Record>, log: seq<Event>, e: Event, keepId: bool)
    requires Counts(file, log) && (e.TxSent? ==> e.attempt >= 1)
    ensures Counts(file + [RecordOf(e, keepId)], log + [e])
  {
    hide Only, RetriesIn, ToaIn, Num, ToaSum, Resolutions;
    var r := RecordOf(e, keepId);
    OnlySnoc(file, r, SentKind);
    OnlySnoc(file, r, AckKind);
    OnlySnoc(file, r, FailKind);
    OnlySnoc(file, r, ParseFailKind);
    SumsSnoc(Only(file, SentKind), r);
    Snoc(log, e);
  }

  lemma CountsOther(file: seq<Record>, log: seq<Event>, e: Event)
    requires Counts(file, log) && !IsTx(e) && !e.RxParseFail?
    ensures Counts(file, log + [e])
  {
    hide Only, RetriesIn, ToaIn, Num, ToaSum, Resolutions;
    Snoc(log, e);
  }

  ghost predicate AttemptsPositive(log: seq<Event>) {
    forall i :: 0 <= i < |log| && log[i].TxSent? ==> log[i].attempt >= 1
  }

  lemma {:induction false} TxFileCounts(log: seq<Event>, keep: nat -> bool)
    requires AttemptsPositive(log) && Num(Unreadable, log) == 0
    ensures Counts(TxFile(log, keep), log)
    ensures |Only(TxFile(log, keep), ReceivedKind)| == |Only(TxFile(log, keep), EchoKind)| == 0
  {
    hide Counts, RecordOf;
    if log == [] {
      NothingCounted();
    } else {
      var n := |log| - 1;
      TxFileCounts(log[..n], keep);
      assert log == log[..n] + [log[n]];
      if IsTx(log[n]) {
        CountsSnoc(TxFile(log[..n], keep), log[..n], log[n], keep(n));
        OnlySnoc(TxFile(log[..n], keep), RecordOf(log[n], keep(n)), ReceivedKind);
        OnlySnoc(TxFile(log[..n], keep), RecordOf(log[n], keep(n)), EchoKind);
        NoReception(log[n], keep(n));
      } else {
        CountsOther(TxFile(log[..n], keep), log[..n], log[n]);
        assert TxFile(log[..n], keep) + [] == TxFile(log[..n], keep);
      }
    }
  }

  lemma NothingCounted()
    ensures Counts([], [])
  {
  }

  lemma NoReception(e: Event, keepId: bool)
    requires IsTx(e)
    ensures !RecordOf(e, keepId).kind.ReceivedKind? && !RecordOf(e, keepId).kind.EchoKind?
  {
  }

  lemma BothFilesSnoc(before: seq<Event>, e: Event, keep: nat -> bool)
    requires Counts(BothFiles(before, keep), before) && (e.TxSent? ==> e.attempt >= 1)
    requires |Only(BothFiles(before, keep), ReceivedKind)| == Num(Received, before)
    requires |Only(BothFiles(before, keep), EchoKind)| == Num(Echoed, before)
    ensures var file := BothFiles(before, keep) + [RecordOf(e, keep(|before|))];
            && Counts(file, before + [e])
            && |Only(file, ReceivedKind)| == Num(Received, before + [e])
            && |Only(file, EchoKind)| == Num(Echoed, before + [e])
  {
    hide Counts, Only, Num, ToaSum, Resolutions, BothFiles;
    var file, r := BothFiles(before, keep), RecordOf(e, keep(|before|));
    CountsSnoc(file, before, e, keep(|before|));
    OnlySnoc(file, r, ReceivedKind);
    OnlySnoc(file, r, EchoKind);
    Snoc(before, e);
  }

  lemma {:induction false} BothFilesCount(log: seq<Event>, keep: nat -> bool)
    requires AttemptsPositive(log)
    ensures Counts(BothFiles(log, keep), log)
    ensures |Only(BothFiles(log, keep), ReceivedKind)| == Num(Received, log)
    ensures |Only(BothFiles(log, keep), EchoKind)| == Num(Echoed, log)
  {
    hide Counts, RecordOf;
    if log == [] {
      NothingCounted();
    } else {
      var n := |log| - 1;
      BothFilesCount(log[..n], keep);
      BothFilesSnoc(log[..n], log[n], keep);
      assert log == log[..n] + [log[n]];
    }
  }

  // ---------------------------------------------------------------------
  // Distinct windows
  // ---------------------------------------------------------------------

  /** First attempts in the file are first attempts in the log. */
  lemma {:induction false} FirstIdsOfLog(log: seq<Event>, keep: nat -> bool)
    ensures forall id <- FirstIds(TxFile(log, keep)) :: exists i :: 0 <= i < |log| && IsFirst(log[i]) && log[i].id == id
  {
    if log != [] {
      var n := |log| - 1;
      var before, e := log[..n], log[n];
      FirstIdsOfLog(before, keep);
      hide FirstIds;
      var file := TxFile(before, keep);
      if IsTx(e) {
        IdsSnoc(file, RecordOf(e, keep(n)));
      } else {
        assert file + [] == file;
      }
      forall id <- FirstIds(TxFile(log, keep))
        ensures exists i :: 0 <= i < |log| && IsFirst(log[i]) && log[i].id == id
      {
        if id in FirstIds(file) {
          var i :| 0 <= i < |before| && IsFirst(before[i]) && before[i].id == id;
          assert log[i] == before[i];
        } else {
          assert IsFirst(log[n]) && log[n].id == id;
        }
      }
    }
  }

  /** As many different windows have had a first attempt as there are first attempts. */
  lemma {:induction false} FirstIdsCount(log: seq<Event>, keep: nat -> bool)
    requires FirstsIncrease(log) && AttemptsPositive(log) && AllKept(keep)
    ensures |FirstIds(TxFile(log, keep))| + Num(Resent, log) == Num(AnySent, log)
  {
    if log != [] {
      var n := |log| - 1;
      var before, e := log[..n], log[n];
      FirstIdsCount(before, keep);
      FirstIdsOfLog(before, keep);
      assert log == before + [e];
      hide FirstIds, Num, ToaSum, Resolutions;
      Snoc(before, e);
      var file := TxFile(before, keep);
      if IsTx(e) {
        IdsSnoc(file, RecordOf(e, keep(n)));
        assert IsFirst(e) ==> e.id !in FirstIds(file);
      } else {
        assert file + [] == file;
      }
    }
  }

  /** No window is reported twice. */
  ghost predicate ReportedOnce(log: seq<Event>) {
    forall w: nat :: Resolutions(log, w) <= 1
  }

  lemma NothingDelivered(keep: nat -> bool)
    ensures DeliveredIds(TxFile([], keep)) == {} && Num(Acked, []) == 0
  {
  }

  lemma OncePerPrefix(before: seq<Event>, e: Event)
    requires ReportedOnce(before + [e])
    ensures ReportedOnce(before)
    ensures e.AckReceived? && e.window.Some? ==> Resolutions(before, e.window.value) == 0
  {
    hide Num, ToaSum, Resolutions;
    Snoc(before, e);
    forall w: nat ensures Resolutions(before, w) <= 1 {
      assert Resolutions(before + [e], w) <= 1;
    }
    if e.AckReceived? && e.window.Some? {
      assert Resolutions(before + [e], e.window.value) <= 1;
    }
  }

  /** As many different windows have been acknowledged as there are acknowledgements. */
  lemma {:induction false} DeliveredIdsCount(log: seq<Event>, keep: nat -> bool)
    requires ReportedOnce(log) && AcksNamed(log) && AllKept(keep)
    ensures |DeliveredIds(TxFile(log, keep))| == Num(Acked, log)
    ensures forall id <- DeliveredIds(TxFile(log, keep)) :: id >= 0 && Resolutions(log, id) >= 1
  {
    NothingDelivered(keep);
    hide DeliveredIds, Num, ToaSum, Resolutions, ReportedOnce;
    if log != [] {
      var n := |log| - 1;
      var before, e := log[..n], log[n];
      assert log == before + [e];
      Snoc(before, e);
      OncePerPrefix(before, e);
      DeliveredIdsCount(before, keep);
      var file := TxFile(before, keep);
      if IsTx(e) {
        IdsSnoc(file, RecordOf(e, keep(n)));
      } else {
        assert file + [] == file;
      }
    }
  }

  // ---------------------------------------------------------------------
  // The theorems
  // ---------------------------------------------------------------------

  lemma LogShape(cfg: Config, env: Env, s: Sys)
    requires cfg.Valid() && Reachable(cfg, env, s)
    ensures AttemptsPositive(s.log) && ReportedOnce(s.log) && AcksNamed(s.log) && FirstsIncrease(s.log)
    ensures Num(Unreadable, s.log) == 0
    ensures CountInv(s) && s.generated == s.sent + |s.pending|
  {
    hide Reachable, CoreInv, PendingInv, HeldInv, SampleInv, CountInv, TableInv, Encodes, SeqOf, Resolutions;
    FirstsInvariant(cfg, env, s);
    NothingUnreadable(cfg, env, s);
    CoreInvariant(cfg, env, s);
    CoreGives(cfg, env, s);
    LogInvariant(cfg, env, s);
    forall i | 0 <= i < |s.log| && s.log[i].TxSent? ensures s.log[i].attempt >= 1 {
      assert SentInv(cfg, s, s.log[i]);
    }
    forall w: nat ensures Resolutions(s.log, w) <= 1 {
      FateAt(s, w);
    }
  }

  lemma CoreGives(cfg: Config, env: Env, s: Sys)
    requires cfg.window.Valid() && CoreInv(cfg, env, s)
    ensures DataInv(cfg, s) && FateInv(s) && CountInv(s)
  {
  }

  lemma RatioOfCounts(delivered: nat, unique: nat)
    requires delivered <= unique
    ensures var r := Ratio(if delivered == 0 then None else Some(delivered),
                           if unique == 0 then None else Some(unique));
            && (r.Some? <==> delivered > 0)
            && (r.Some? ==> 0.0 < r.value <= 1.0 && r.value * unique as real == delivered as real)
  {
    if delivered > 0 {
      Arith.RatioAtMostOne(delivered as real, unique as real);
    }
  }

  lemma GateRatios(g: Gate)
    ensures if g.sentCount == 0 then Pdr(g) == 0.0 else Pdr(g) * g.sentCount as real == g.ackedCount as real
    ensures Etx(g) * Max(g.ackedCount, 1) as real == g.sentCount as real
  {
  }

  /** On the log file of the transmit node, at any moment of any run and whatever is lost, the report
      repeats the counters and ratios of the gate; the delivered windows are the acknowledgements,
      the windows sent are the first attempts, and no more windows are delivered than were sent. */
  lemma MetricsMatch(cfg: Config, env: Env, s: Sys, keep: nat -> bool)
    requires cfg.Valid() && Reachable(cfg, env, s) && AllKept(keep)
    ensures var m := Summary(TxFile(s.log, keep));
            && m.sentCount == s.gate.sentCount && m.ackedCount == s.gate.ackedCount
            && m.failedCount == Num(Failed, s.log) && m.rxOkCount == m.ackSentCount == m.rxParseFailCount == 0
            && m.retries == s.gate.retriesTotal && m.totalToaMs == s.gate.totalToaMs
            && m.pdr == Pdr(s.gate) && m.etx == Etx(s.gate)
            && (if s.gate.sentCount == 0 then m.pdr == 0.0
                else m.pdr * s.gate.sentCount as real == s.gate.ackedCount as real)
            && m.etx * Max(s.gate.ackedCount, 1) as real == s.gate.sentCount as real
            && m.deliveredWindows == (if s.gate.ackedCount == 0 then None else Some(s.gate.ackedCount))
            && m.uniqueWindowsSent == (if s.sent == |s.lost| then None else Some(s.sent - |s.lost|))
            && (m.deliveryRatio.Some? <==> s.gate.ackedCount > 0)
            && (m.deliveryRatio.Some? ==>
                  && 0.0 < m.deliveryRatio.value <= 1.0
                  && m.deliveryRatio.value * (s.sent - |s.lost|) as real == s.gate.ackedCount as real)
  {
    hide Reachable, TxFile, Only, FirstIds, DeliveredIds, RetriesIn, ToaIn, Num, ToaSum, Resolutions;
    LogShape(cfg, env, s);
    TxFileCounts(s.log, keep);
    FirstIdsCount(s.log, keep);
    DeliveredIdsCount(s.log, keep);
    RatioOfCounts(s.gate.ackedCount, s.sent - |s.lost|);
    GateRatios(s.gate);
    hide Ratio, Etx, Summary, PdrOf, CountOf;
    SummaryParts(TxFile(s.log, keep), s.gate);
    SummaryWindows(TxFile(s.log, keep), s.gate.ackedCount, s.sent - |s.lost|);
    NothingReceived(s.gate);
    hide Pdr;
  }

  lemma SummaryWindows(events: seq<Record>, delivered: nat, unique: nat)
    requires |DeliveredIds(events)| == delivered && |FirstIds(events)| == unique
    ensures var m := Summary(events);
            && m.deliveredWindows == (if delivered == 0 then None else Some(delivered))
            && m.uniqueWindowsSent == (if unique == 0 then None else Some(unique))
            && m.deliveryRatio == Ratio(m.deliveredWindows, m.uniqueWindowsSent)
  {
    hide Only, FirstIds, DeliveredIds, RetriesIn, ToaIn, PdrOf, Ratio;
  }

  lemma NothingReceived(g: Gate)
    ensures PdrOf(g.sentCount, 0, g.ackedCount) == Pdr(g)
  {
  }

  /** With the receiver's lines added, everything the transmitter wrote is counted as before, and the
      ratio becomes that of receptions, which is at least the gate's. */
  lemma MergedMetrics(cfg: Config, env: Env, s: Sys, keep: nat -> bool)
    requires cfg.Valid() && Reachable(cfg, env, s)
    ensures var m := Summary(BothFiles(s.log, keep));
            && m.sentCount == s.gate.sentCount && m.ackedCount == s.gate.ackedCount
            && m.retries == s.gate.retriesTotal && m.totalToaMs == s.gate.totalToaMs && m.etx == Etx(s.gate)
            && m.rxOkCount == m.ackSentCount == s.rxOkCount && m.rxParseFailCount == 0
            && m.failedCount == Num(Failed, s.log)
            && Pdr(s.gate) <= m.pdr <= 1.0
            && (s.rxOkCount > 0 ==> m.pdr * s.gate.sentCount as real == s.rxOkCount as real)
  {
    hide Reachable, BothFiles, Only, RetriesIn, ToaIn, Num, ToaSum, Resolutions, PdrOf, Pdr, Etx, Summary;
    hide ReportedOnce, AcksNamed, FirstsIncrease;
    LogShape(cfg, env, s);
    BothFilesCount(s.log, keep);
    FrameConservation(cfg, env, s);
    MoreReceived(s.gate, s.rxOkCount);
    SummaryParts(BothFiles(s.log, keep), s.gate);
  }

  /** A report that counts as many transmissions and acknowledgements as a gate. */
  lemma SummaryParts(events: seq<Record>, g: Gate)
    requires |Only(events, SentKind)| == g.sentCount && |Only(events, AckKind)| == g.ackedCount
    ensures var m := Summary(events);
            && m.sentCount == g.sentCount && m.ackedCount == g.ackedCount && m.etx == Etx(g)
            && m.failedCount == |Only(events, FailKind)| && m.rxOkCount == |Only(events, ReceivedKind)|
            && m.rxParseFailCount == |Only(events, ParseFailKind)| && m.ackSentCount == |Only(events, EchoKind)|
            && m.retries == RetriesIn(Only(events, SentKind)) && m.totalToaMs == ToaIn(Only(events, SentKind))
            && m.pdr == PdrOf(g.sentCount, m.rxOkCount, g.ackedCount)
  {
    hide Only, FirstIds, DeliveredIds, RetriesIn, ToaIn, PdrOf, Ratio, CountOf;
  }

  lemma MoreReceived(g: Gate, received: nat)
    requires g.ackedCount <= received <= g.sentCount
    ensures Pdr(g) <= PdrOf(g.sentCount, received, g.ackedCount) <= 1.0
    ensures received > 0 ==> PdrOf(g.sentCount, received, g.ackedCount) * g.sentCount as real == received as real
  {
    if received > 0 {
      Arith.RatioAtMostOne(received as real, g.sentCount as real);
      Arith.RatioMonotone(g.ackedCount as real, received as real, g.sentCount as real);
    }
  }
}
