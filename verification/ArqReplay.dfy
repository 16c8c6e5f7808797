/** Which windows the two scripts take to be acknowledged, for the log of any run and any selection of
    lines whose `window_id` has been stripped: `validate_run` is always right, and `phase3_report` exactly
    when the windows it has to number were not preceded by lines that kept their id. */
module ArqReplay {
  import opened Basics
  import opened ArqModel
  import opened LogCounts
  import opened ArqInvariants
  import opened ArqCore
  import opened ArqLogOrder
  import opened LogLines
  import opened LogFile
  import opened LogReplay
  import LogJoin
  import ArqAttempts
  import ArqSoundness
  import ArqLink
  import Windows

  function Live(script: Script, keep: nat -> bool, log: seq<Event>): Replay {
    ReplayAll(script, TxFile(log, keep))
  }

  lemma LiveSnoc(script: Script, keep: nat -> bool, log: seq<Event>, e: Event)
    ensures TxFile(log + [e], keep)
            == TxFile(log, keep) + (if IsTx(e) then [RecordOf(e, keep(|log|))] else [])
    ensures Live(script, keep, log + [e])
            == if IsTx(e) then ReplayOne(script, Live(script, keep, log), RecordOf(e, keep(|log|)))
               else Live(script, keep, log)
  {
    hide RecordOf, ReplayOne;
    assert (log + [e])[..|log + [e]| - 1] == log;
    if IsTx(e) {
      ReplaySnoc(script, TxFile(log, keep), RecordOf(e, keep(|log|)));
    } else {
      assert TxFile(log, keep) + [] == TxFile(log, keep);
    }
  }

  // ---------------------------------------------------------------------
  // What the scripts make of a log
  // ---------------------------------------------------------------------

  /** How many windows have had their first attempt. */
  function Firsts(log: seq<Event>): nat {
    if log == [] then 0
    else Firsts(log[..|log| - 1]) + (if IsFirst(log[|log| - 1]) then 1 else 0)
  }

  /** How many of these lines have lost their id. */
  function Stripped(log: seq<Event>, keep: nat -> bool): nat {
    if log == [] then 0
    else
      var n := |log| - 1;
      Stripped(log[..n], keep) + (if IsFirst(log[n]) && !keep(n) then 1 else 0)
  }

  /** The number `phase3_report` gives to window w: its id if the line of the first attempt has kept it, else
      how many lines before have lost theirs. */
  function Given(log: seq<Event>, keep: nat -> bool, w: nat): nat {
    if log == [] then 0
    else
      var n := |log| - 1;
      if IsFirst(log[n]) && log[n].id == w then if keep(n) then w else Stripped(log[..n], keep)
      else Given(log[..n], keep, w)
  }

  /** `validate_run` gives every window its own number. */
  function GivenBy(script: Script, log: seq<Event>, keep: nat -> bool, w: nat): nat {
    if script.ValidateRun? then w else Given(log, keep, w)
  }

  /** The ids reported for the acknowledgements of a log. */
  function Reported(script: Script, log: seq<Event>, keep: nat -> bool): seq<int> {
    if log == [] then []
    else
      var n := |log| - 1;
      var before, e := log[..n], log[n];
      Reported(script, before, keep)
      + (if e.AckReceived? && e.window.Some? then
           [if keep(n) then e.window.value else GivenBy(script, before, keep, e.window.value)]
         else [])
  }

  lemma SnocAll(script: Script, keep: nat -> bool, log: seq<Event>, e: Event)
    ensures Firsts(log + [e]) == Firsts(log) + (if IsFirst(e) then 1 else 0)
    ensures Stripped(log + [e], keep) == Stripped(log, keep) + (if IsFirst(e) && !keep(|log|) then 1 else 0)
    ensures forall w: nat :: GivenBy(script, log + [e], keep, w)
                             == if script.Phase3Report? && IsFirst(e) && e.id == w then
                                  if keep(|log|) then w else Stripped(log, keep)
                                else GivenBy(script, log, keep, w)
    ensures Reported(script, log + [e], keep)
            == Reported(script, log, keep)
               + (if e.AckReceived? && e.window.Some? then
                    [if keep(|log|) then e.window.value else GivenBy(script, log, keep, e.window.value)]
                  else [])
  {
    assert (log + [e])[..|log + [e]| - 1] == log;
  }

  // ---------------------------------------------------------------------
  // The replayed table follows the live one
  // ---------------------------------------------------------------------

  /** Along a run in which no SEQ has been reused in flight. */
  ghost predicate Agrees(script: Script, keep: nat -> bool, s: Sys) {
    var r := Live(script, keep, s.log);
    && TableAgrees(script, keep, s.log, r.table, s.payloads)
    && Firsts(s.log) == s.sent
    && r.next == (if script.Phase3Report? then Stripped(s.log, keep) else s.sent)
    && r.acked == Reported(script, s.log, keep)
    && r.unjoined == 0
    && r.inferred == (if script.ValidateRun? then Stripped(s.log, keep) else 0)
  }

  /** `phase3_report` also forgets failed windows, so its table has exactly the live keys. */
  ghost predicate TableAgrees(
    script: Script, keep: nat -> bool, log: seq<Event>, table: map<int, int>, payloads: map<byte, PendingWindow>)
  {
    && (forall k <- payloads :: k in table && table[k] == GivenBy(script, log, keep, payloads[k].id))
    && (script.Phase3Report? ==> forall k <- table :: k in payloads.Keys)
  }

  lemma AgreesFirst(script: Script, keep: nat -> bool, s: Sys, t: Sys, e: Event, w: PendingWindow)
    requires Agrees(script, keep, s) && forall k <- s.payloads :: s.payloads[k].id < s.sent
    requires t.log == s.log + [e] && IsFirst(e) && e.id == w.id == s.sent
    requires t.payloads == s.payloads[e.sn := w] && t.sent == s.sent + 1
    ensures Agrees(script, keep, t)
  {
    hide Live, Reported, Firsts, Stripped, GivenBy;
    LiveSnoc(script, keep, s.log, e);
    SnocAll(script, keep, s.log, e);
    OwnNumber(s.log + [e], keep, w.id);
  }

  lemma OwnNumber(log: seq<Event>, keep: nat -> bool, w: nat)
    ensures GivenBy(ValidateRun, log, keep, w) == w
  {
  }

  lemma AgreesAgain(script: Script, keep: nat -> bool, s: Sys, t: Sys, e: Event)
    requires Agrees(script, keep, s)
    requires t.log == s.log + [e] && e.TxSent? && e.attempt > 1 && e.sn in s.payloads
    requires t.payloads == s.payloads && t.sent == s.sent
    ensures Agrees(script, keep, t)
  {
    hide Live, Reported, Firsts, Stripped, GivenBy;
    LiveSnoc(script, keep, s.log, e);
    SnocAll(script, keep, s.log, e);
  }

  lemma AgreesAck(script: Script, keep: nat -> bool, s: Sys, t: Sys, e: Event)
    requires Agrees(script, keep, s)
    requires t.log == s.log + [e] && e.AckReceived? && e.sn in s.payloads && e.window == Some(s.payloads[e.sn].id)
    requires t.payloads == s.payloads - {e.sn} && t.sent == s.sent
    ensures Agrees(script, keep, t)
  {
    hide Live, Reported, Firsts, Stripped, GivenBy;
    LiveSnoc(script, keep, s.log, e);
    SnocAll(script, keep, s.log, e);
  }

  lemma AgreesFailed(script: Script, keep: nat -> bool, s: Sys, t: Sys, e: Event)
    requires Agrees(script, keep, s)
    requires t.log == s.log + [e] && e.TxFailed? && t.payloads == s.payloads - {e.sn} && t.sent == s.sent
    ensures Agrees(script, keep, t)
  {
    hide Live, Reported, Firsts, Stripped, GivenBy;
    LiveSnoc(script, keep, s.log, e);
    SnocAll(script, keep, s.log, e);
  }

  /** Events that concern no window. */
  predicate NoWindow(e: Event) {
    e.TxParseFail? || e.RxOk? || e.AckSent? || e.RxParseFail?
  }

  lemma AgreesIdle(script: Script, keep: nat -> bool, s: Sys, t: Sys, e: Event)
    requires Agrees(script, keep, s) && t.payloads == s.payloads && t.sent == s.sent
    requires NoWindow(e) && t.log == s.log + [e]
    ensures Agrees(script, keep, t)
  {
    hide Live, Reported, Firsts, Stripped, GivenBy;
    LiveSnoc(script, keep, s.log, e);
    SnocAll(script, keep, s.log, e);
  }

  lemma AgreesSame(script: Script, keep: nat -> bool, s: Sys, t: Sys)
    requires Agrees(script, keep, s) && t.payloads == s.payloads && t.sent == s.sent && t.log == s.log
    ensures Agrees(script, keep, t)
  {
  }

  ghost predicate ReplayInv(script: Script, keep: nat -> bool, s: Sys) {
    s.lost == {} ==> Agrees(script, keep, s)
  }

  lemma HeldAreSent(cfg: Config, s: Sys)
    requires DataInv(cfg, s)
    ensures forall k <- s.payloads :: s.payloads[k].id < s.sent
    ensures s.pending != [] ==> s.pending[0].id == s.sent
  {
    forall k <- s.payloads ensures s.payloads[k].id < s.sent {
      assert HeldInv(cfg, s, k, s.payloads[k]);
    }
  }

  lemma ReplaySending(script: Script, keep: nat -> bool, cfg: Config, env: Env, s: Sys)
    requires TableInv(cfg, s) && DataInv(cfg, s) && ReplayInv(script, keep, s) && s.pending != []
    ensures ReplayInv(script, keep, SendNext(cfg, env, s))
  {
    hide Agrees, RecordSend, SendFromA, EntryInv, DataInv;
    var t := SendNext(cfg, env, s);
    if t.lost == {} {
      NotHeld(s, t);
      HeldAreSent(cfg, s);
      AgreesFirst(script, keep, s, t, t.log[|s.log|], s.pending[0]);
    }
  }

  lemma ReplayRetrying(script: Script, keep: nat -> bool, cfg: Config, env: Env, s: Sys, sn: byte)
    requires TableInv(cfg, s) && ReplayInv(script, keep, s) && sn in s.payloads
    ensures ReplayInv(script, keep, Retry(cfg, env, s, sn))
  {
    hide Agrees, RecordSend, SendFromA;
    var t := Retry(cfg, env, s, sn);
    assert EntryInv(s.gate.inflight[sn], sn, s.now);
    if t.lost == {} {
      AgreesAgain(script, keep, s, t, t.log[|s.log|]);
    }
  }

  lemma ReplayReceiving(script: Script, keep: nat -> bool, cfg: Config, s: Sys)
    requires TableInv(cfg, s) && ReplayInv(script, keep, s) && Deliverable(s.link.toA, s.now)
    ensures ReplayInv(script, keep, HandleFrame(cfg, s))
  {
    hide Agrees, ParseReply, Drop, EntryInv;
    var t := HandleFrame(cfg, s);
    if t.lost == {} {
      match ParseReply(cfg, s.link.toA[0].frame) {
        case AckFor(sn) =>
          if sn in s.gate.inflight {
            AgreesAck(script, keep, s, t, AckEvent(s, sn));
          } else {
            AgreesSame(script, keep, s, t);
          }
        case BadFrame => AgreesIdle(script, keep, s, t, TxParseFail(s.now));
        case OtherFrame => AgreesSame(script, keep, s, t);
      }
    }
  }

  lemma ReplayFailing(script: Script, keep: nat -> bool, s: Sys, sn: byte)
    requires ReplayInv(script, keep, s) && sn in s.gate.inflight
    ensures ReplayInv(script, keep, Fail(s, sn))
  {
    hide Agrees, Drop;
    if s.lost == {} {
      AgreesFailed(script, keep, s, Fail(s, sn), Fail(s, sn).log[|s.log|]);
    }
  }

  lemma ReplayRelaying(script: Script, keep: nat -> bool, cfg: Config, env: Env, s: Sys)
    requires ReplayInv(script, keep, s) && Deliverable(s.link.toB, s.now)
    ensures ReplayInv(script, keep, Relay(cfg, env, s))
  {
    hide Agrees, ParseData, SendFromB;
    var t := Relay(cfg, env, s);
    if t.lost == {} {
      match ParseData(cfg, s.link.toB[0].frame) {
        case DataFor(sn, payload) =>
          var e, f := RxOk(s.now, sn, payload), AckSent(s.now, sn);
          var u := s.(log := s.log + [e]);
          AgreesIdle(script, keep, s, u, e);
          assert t.log == u.log + [f];
          AgreesIdle(script, keep, u, t, f);
        case Malformed => AgreesIdle(script, keep, s, t, RxParseFail(s.now));
      }
    }
  }

  lemma ReplayInvStep(script: Script, keep: nat -> bool, cfg: Config, env: Env, s: Sys, step: Step)
    requires cfg.Valid()
    requires TableInv(cfg, s) && DataInv(cfg, s) && ReplayInv(script, keep, s) && Enabled(cfg, s, step)
    ensures ReplayInv(script, keep, Apply(cfg, env, s, step))
  {
    hide Agrees, TableInv, DataInv, HandleFrame, Retry, Fail, SendNext, Relay, CanSend, Windows.Feed;
    match step {
      case Receiving => ReplayReceiving(script, keep, cfg, s);
      case Retrying(sn) => ReplayRetrying(script, keep, cfg, env, s, sn);
      case Failing(sn) => ReplayFailing(script, keep, s, sn);
      case Sending => ReplaySending(script, keep, cfg, env, s);
      case Relaying => ReplayRelaying(script, keep, cfg, env, s);
      case Sampling =>
        if s.lost == {} {
          AgreesSame(script, keep, s, QueueWindow(cfg, env, s));
        }
      case Ticking(ms) =>
        if s.lost == {} {
          AgreesSame(script, keep, s, Tick(s, ms));
        }
    }
  }

  lemma {:induction false} ReplayAlong(
    script: Script, keep: nat -> bool, cfg: Config, env: Env, s: Sys, steps: seq<Step>, t: Sys)
    requires cfg.Valid() && CoreInv(cfg, env, s) && Leads(cfg, env, s, steps, t) && ReplayInv(script, keep, s)
    ensures ReplayInv(script, keep, t)
    decreases |steps|
  {
    hide Apply, Enabled, ReplayInv;
    hide TableInv, DataInv, SampleInv, FateInv, CountInv, ArqLink.OriginInv, ArqLink.FrameInv;
    if steps != [] {
      CoreInvStep(cfg, env, s, steps[0]);
      ReplayInvStep(script, keep, cfg, env, s, steps[0]);
      ReplayAlong(script, keep, cfg, env, Apply(cfg, env, s, steps[0]), steps[1..], t);
    }
  }

  lemma NothingLogged(script: Script, keep: nat -> bool, start: nat)
    ensures ReplayInv(script, keep, Init(start))
  {
  }

  lemma ReplayInvariant(script: Script, keep: nat -> bool, cfg: Config, env: Env, s: Sys)
    requires cfg.Valid() && Reachable(cfg, env, s) && s.lost == {}
    ensures Agrees(script, keep, s)
  {
    hide Leads, CoreInv, Agrees;
    var start: nat, steps :| Leads(cfg, env, Init(start), steps, s);
    CoreInvInit(cfg, env, start);
    NothingLogged(script, keep, start);
    ReplayAlong(script, keep, cfg, env, Init(start), steps, s);
  }

  // ---------------------------------------------------------------------
  // First attempts are numbered without gaps
  // ---------------------------------------------------------------------

  ghost predicate FirstIdsBelow(log: seq<Event>, bound: nat) {
    forall b :: 0 <= b < |log| && IsFirst(log[b]) ==> log[b].id < bound
  }

  lemma FirstsOfPrefix(log: seq<Event>, n: nat)
    requires n <= |log| && FirstsIncrease(log)
    ensures FirstsIncrease(log[..n])
    ensures n < |log| && IsFirst(log[n]) ==> FirstIdsBelow(log[..n], log[n].id)
  {
  }

  lemma {:induction false} FirstsAtMost(log: seq<Event>, bound: nat)
    requires FirstsIncrease(log) && FirstIdsBelow(log, bound)
    ensures Firsts(log) <= bound
  {
    if log != [] {
      var n := |log| - 1;
      FirstsOfPrefix(log, n);
      FirstsAtMost(log[..n], if IsFirst(log[n]) then log[n].id else bound);
    }
  }

  lemma {:induction false} FirstsNumbered(log: seq<Event>, bound: nat, b: nat)
    requires FirstsIncrease(log) && FirstIdsBelow(log, bound) && Firsts(log) == bound
    requires b < |log| && IsFirst(log[b])
    ensures log[b].id == Firsts(log[..b])
  {
    var n := |log| - 1;
    FirstsOfPrefix(log, n);
    if IsFirst(log[n]) {
      FirstsAtMost(log[..n], log[n].id);
    }
    if b < n {
      assert log[..n][..b] == log[..b];
      FirstsNumbered(log[..n], if IsFirst(log[n]) then log[n].id else bound, b);
    }
  }

  /** All of n first attempts have lost their id if and only if as many are counted. */
  lemma {:induction false} AllStripped(log: seq<Event>, keep: nat -> bool)
    ensures Stripped(log, keep) <= Firsts(log)
    ensures Stripped(log, keep) == Firsts(log) <==> forall a :: 0 <= a < |log| && IsFirst(log[a]) ==> !keep(a)
  {
    if log != [] {
      var n := |log| - 1;
      AllStripped(log[..n], keep);
      assert forall a :: 0 <= a < n ==> log[..n][a] == log[a];
    }
  }

  lemma {:induction false} SomeFirst(log: seq<Event>) returns (a: nat)
    requires Firsts(log) >= 1
    ensures a < |log| && IsFirst(log[a])
  {
    var n := |log| - 1;
    if IsFirst(log[n]) {
      a := n;
    } else {
      a := SomeFirst(log[..n]);
    }
  }

  lemma {:induction false} GivenIs(log: seq<Event>, keep: nat -> bool, b: nat, w: nat)
    requires FirstsIncrease(log) && b < |log| && IsFirst(log[b]) && log[b].id == w
    ensures Given(log, keep, w) == if keep(b) then w else Stripped(log[..b], keep)
  {
    var n := |log| - 1;
    if b < n {
      FirstsOfPrefix(log, n);
      assert log[..n][..b] == log[..b];
      GivenIs(log[..n], keep, b, w);
    }
  }

  // ---------------------------------------------------------------------
  // When the reported ids are right
  // ---------------------------------------------------------------------

  /** The replayed ids are the acknowledged windows of the log, in order. */
  ghost predicate Joins(acked: seq<int>, ids: seq<Option<nat>>) {
    |acked| == |ids| && forall j :: 0 <= j < |acked| ==> ids[j].Some? && acked[j] == ids[j].value
  }

  lemma JoinsSnoc(acked: seq<int>, ids: seq<Option<nat>>, x: int, id: nat)
    requires |acked| == |ids|
    ensures Joins(acked + [x], ids + [Some(id)]) <==> Joins(acked, ids) && x == id
  {
    if Joins(acked + [x], ids + [Some(id)]) {
      forall j | 0 <= j < |acked| ensures ids[j].Some? && acked[j] == ids[j].value {
        assert (acked + [x])[j] == acked[j] && (ids + [Some(id)])[j] == ids[j];
      }
      assert (acked + [x])[|acked|] == x && (ids + [Some(id)])[|ids|] == Some(id);
    }
  }

  /** Acknowledgement i is joined to its own window. */
  ghost predicate RightAt(script: Script, log: seq<Event>, keep: nat -> bool, i: nat)
    requires i < |log| && log[i].AckReceived? && log[i].window.Some?
  {
    keep(i) || GivenBy(script, log[..i], keep, log[i].window.value) == log[i].window.value
  }

  ghost predicate AllRight(script: Script, log: seq<Event>, keep: nat -> bool) {
    forall i: nat :: i < |log| && log[i].AckReceived? && log[i].window.Some? ==> RightAt(script, log, keep, i)
  }

  lemma AllRightSnoc(script: Script, log: seq<Event>, keep: nat -> bool, e: Event)
    ensures AllRight(script, log + [e], keep)
            <==> AllRight(script, log, keep)
                 && (e.AckReceived? && e.window.Some? ==>
                       keep(|log|) || GivenBy(script, log, keep, e.window.value) == e.window.value)
  {
    hide GivenBy;
    var all := log + [e];
    forall i: nat | i < |log| ensures all[i] == log[i] && all[..i] == log[..i] {
    }
    assert all[|log|] == e && all[..|log|] == log;
    if AllRight(script, all, keep) {
      forall i: nat | i < |log| && log[i].AckReceived? && log[i].window.Some? ensures RightAt(script, log, keep, i) {
        assert RightAt(script, all, keep, i);
      }
      assert e.AckReceived? && e.window.Some? ==> RightAt(script, all, keep, |log|);
    }
  }

  lemma {:induction false} JoinsIffRight(script: Script, log: seq<Event>, keep: nat -> bool)
    requires AcksNamed(log)
    ensures |Reported(script, log, keep)| == |AckIds(log)|
    ensures Joins(Reported(script, log, keep), AckIds(log)) <==> AllRight(script, log, keep)
  {
    if log != [] {
      var n := |log| - 1;
      var before, e := log[..n], log[n];
      JoinsIffRight(script, before, keep);
      assert log == before + [e];
      hide Reported, AckIds, Joins, AllRight, GivenBy;
      AllRightSnoc(script, before, keep, e);
      SnocAll(script, keep, before, e);
      AckIdsSnoc(before, e);
      if e.AckReceived? {
        JoinsSnoc(Reported(script, before, keep), AckIds(before),
                  if keep(n) then e.window.value else GivenBy(script, before, keep, e.window.value), e.window.value);
      }
    }
  }

  /** A log that is in order of time is left alone by the sort. */
  lemma {:induction false} FileSorted(log: seq<Event>, keep: nat -> bool, now: int)
    requires InTime(log, now)
    ensures Sorted(TxFile(log, keep)) && forall i :: 0 <= i < |TxFile(log, keep)| ==> Key(TxFile(log, keep)[i]) <= now
  {
    if log != [] {
      var n := |log| - 1;
      FileSorted(log[..n], keep, log[n].ts);
      assert IsTx(log[n]) ==> Key(RecordOf(log[n], keep(n))) == log[n].ts;
    }
  }

  /** What either script returns for a file is the list of windows acknowledged in the run. */
  ghost predicate Recovers(script: Script, events: seq<Record>, log: seq<Event>) {
    var r := ReplayAll(script, StableSort(TxOnly(events)));
    && |r.acked| == |AckIds(log)| == Num(Acked, log)
    && (forall j :: 0 <= j < |r.acked| ==> AckIds(log)[j] == Some(r.acked[j]))
    && r.unjoined == 0
  }

  lemma {:induction false} AckIdsCount(log: seq<Event>)
    ensures |AckIds(log)| == Num(Acked, log)
  {
    if log != [] {
      AckIdsCount(log[..|log| - 1]);
    }
  }

  lemma RecoversIffRight(
    script: Script, keep: nat -> bool, cfg: Config, env: Env, s: Sys, events: seq<Record>)
    requires cfg.Valid() && Reachable(cfg, env, s) && s.lost == {} && TxOnly(events) == TxFile(s.log, keep)
    ensures Recovers(script, events, s.log) <==> AllRight(script, s.log, keep)
  {
    hide Reachable, TxFile, TxOnly, ReplayAll, AckIds, Num, StableSort, AllRight, Reported, Firsts, TableAgrees;
    ReplayInvariant(script, keep, cfg, env, s);
    LogInvariant(cfg, env, s);
    FileSorted(s.log, keep, s.now);
    SortedStays(TxFile(s.log, keep));
    AckIdsCount(s.log);
    JoinsIffRight(script, s.log, keep);
  }

  /** What `phase3_report` needs to join acknowledgement i: its line, or the line of the first attempt of its
      window, has kept the id, or else no first attempt before that one has. */
  ghost predicate Joinable(log: seq<Event>, keep: nat -> bool, i: nat)
    requires i < |log| && log[i].AckReceived?
  {
    keep(i)
    || forall b :: 0 <= b < i && IsFirst(log[b]) && log[i].window == Some(log[b].id) ==>
         keep(b) || forall a :: 0 <= a < b && IsFirst(log[a]) ==> !keep(a)
  }

  /** The first attempt of an acknowledged window, and its number. */
  lemma FirstOfAcked(cfg: Config, env: Env, s: Sys, i: nat) returns (b: nat)
    requires cfg.Valid() && Reachable(cfg, env, s) && s.lost == {} && i < |s.log| && s.log[i].AckReceived?
    ensures b < i && IsFirst(s.log[b]) && s.log[i].window == Some(s.log[b].id) && s.log[b].id == Firsts(s.log[..b])
    ensures FirstsIncrease(s.log)
  {
    hide Reachable, Firsts, FirstsIncrease, Live, TableAgrees, Reported, Stripped;
    b := ArqAttempts.LatencyAccounts(cfg, env, s, i);
    FirstsInvariant(cfg, env, s);
    ReplayInvariant(ValidateRun, (n: nat) => true, cfg, env, s);
    FirstIdsAreSent(cfg, env, s);
    FirstsNumbered(s.log, s.sent, b);
  }

  lemma FirstIdsAreSent(cfg: Config, env: Env, s: Sys)
    requires cfg.Valid() && Reachable(cfg, env, s)
    ensures FirstIdsBelow(s.log, s.sent)
  {
    hide Reachable, TableInv, SampleInv, FateInv, CountInv, ArqLink.OriginInv, ArqLink.FrameInv;
    CoreInvariant(cfg, env, s);
    forall b | 0 <= b < |s.log| && IsFirst(s.log[b]) ensures s.log[b].id < s.sent {
      assert SentInv(cfg, s, s.log[b]);
    }
  }

  lemma RightIffJoinable(keep: nat -> bool, cfg: Config, env: Env, s: Sys, i: nat)
    requires cfg.Valid() && Reachable(cfg, env, s) && s.lost == {} && i < |s.log| && s.log[i].AckReceived?
    ensures s.log[i].window.Some? && (RightAt(Phase3Report, s.log, keep, i) <==> Joinable(s.log, keep, i))
  {
    hide Reachable, Firsts, Stripped, Given;
    var b := FirstOfAcked(cfg, env, s, i);
    var w := s.log[b].id;
    FirstsOfPrefix(s.log, i);
    assert s.log[..i][..b] == s.log[..b];
    GivenIs(s.log[..i], keep, b, w);
    AllStripped(s.log[..b], keep);
    assert forall a :: 0 <= a < b ==> s.log[..b][a] == s.log[a];
    forall c | 0 <= c < i && IsFirst(s.log[c]) && s.log[c].id == w ensures c == b {
    }
  }

  // ---------------------------------------------------------------------
  // The theorems
  // ---------------------------------------------------------------------

  /** Take the log of any run in which no SEQ was reused in flight, interleaved in any way with the lines of
      the receiver, and strip any selection of `window_id` fields. `phase3_report` returns exactly the
      acknowledged windows, in the order of the acknowledgements, if and only if every acknowledgement
      is joinable. */
  lemma Phase3ExactIff(keep: nat -> bool, cfg: Config, env: Env, s: Sys, events: seq<Record>)
    requires cfg.Valid() && Reachable(cfg, env, s) && s.lost == {} && TxOnly(events) == TxFile(s.log, keep)
    ensures Recovers(Phase3Report, events, s.log)
            <==> forall i: nat :: i < |s.log| && s.log[i].AckReceived? ==> Joinable(s.log, keep, i)
  {
    hide Reachable, Recovers, Joinable, RightAt, TxFile, TxOnly;
    RecoversIffRight(Phase3Report, keep, cfg, env, s, events);
    forall i: nat | i < |s.log| && s.log[i].AckReceived?
      ensures s.log[i].window.Some? && (RightAt(Phase3Report, s.log, keep, i) <==> Joinable(s.log, keep, i))
    {
      RightIffJoinable(keep, cfg, env, s, i);
    }
  }

  /** The lines of first attempts that have lost their id. */
  function StrippedFirsts(log: seq<Event>, keep: nat -> bool): set<nat> {
    set i: nat | i < |log| && IsFirst(log[i]) && !keep(i)
  }

  lemma {:induction false} StrippedIs(log: seq<Event>, keep: nat -> bool)
    ensures Stripped(log, keep) == |StrippedFirsts(log, keep)|
  {
    if log == [] {
      assert StrippedFirsts(log, keep) == {};
    } else {
      var n := |log| - 1;
      StrippedIs(log[..n], keep);
      var before := StrippedFirsts(log[..n], keep);
      assert StrippedFirsts(log, keep) == if IsFirst(log[n]) && !keep(n) then before + {n} else before;
    }
  }

  /** `validate_run` returns exactly the acknowledged windows whatever has been stripped. It warns of no
      acknowledgement, and of exactly as many inferred ids as first attempts have lost theirs. */
  lemma ValidateRunExact(keep: nat -> bool, cfg: Config, env: Env, s: Sys, events: seq<Record>)
    requires cfg.Valid() && Reachable(cfg, env, s) && s.lost == {} && TxOnly(events) == TxFile(s.log, keep)
    ensures Recovers(ValidateRun, events, s.log)
    ensures var r := ReplayAll(ValidateRun, StableSort(TxOnly(events)));
            r.unjoined == 0 && r.inferred == |StrippedFirsts(s.log, keep)|
  {
    hide Reachable, Recovers, TxFile, TxOnly, StrippedFirsts;
    RecoversIffRight(ValidateRun, keep, cfg, env, s, events);
    ValidateRunWarns(keep, cfg, env, s, events);
  }

  lemma ValidateRunWarns(keep: nat -> bool, cfg: Config, env: Env, s: Sys, events: seq<Record>)
    requires cfg.Valid() && Reachable(cfg, env, s) && s.lost == {} && TxOnly(events) == TxFile(s.log, keep)
    ensures var r := ReplayAll(ValidateRun, StableSort(TxOnly(events)));
            r.unjoined == 0 && r.inferred == |StrippedFirsts(s.log, keep)|
  {
    hide Reachable, TxFile, TxOnly, ReplayAll, StableSort, Reported, Firsts, TableAgrees, StrippedFirsts, Stripped;
    ReplayInvariant(ValidateRun, keep, cfg, env, s);
    LogInvariant(cfg, env, s);
    FileSorted(s.log, keep, s.now);
    SortedStays(TxFile(s.log, keep));
    StrippedIs(s.log, keep);
  }

  /** In particular both scripts are exact when no id has been stripped and when all have. */
  lemma ReplayExact(script: Script, keep: nat -> bool, cfg: Config, env: Env, s: Sys, events: seq<Record>)
    requires cfg.Valid() && Reachable(cfg, env, s) && s.lost == {} && TxOnly(events) == TxFile(s.log, keep)
    requires AllKept(keep) || forall i :: !keep(i)
    ensures Recovers(script, events, s.log)
  {
    hide Reachable, Recovers, TxFile, TxOnly;
    match script {
      case Phase3Report => Phase3ExactIff(keep, cfg, env, s, events);
      case ValidateRun => ValidateRunExact(keep, cfg, env, s, events);
    }
  }

  /** A line that names what it can name adds its window to the acknowledged ones and nothing to the warnings. */
  lemma NamedLine(script: Script, r: Replay, e: Event)
    requires e.AckReceived? ==> e.window.Some?
    ensures IsTx(e) ==>
              var t := ReplayOne(script, r, RecordOf(e, true));
              && t.acked == (if e.AckReceived? then r.acked + [e.window.value] else r.acked)
              && t.unjoined == r.unjoined && t.inferred == r.inferred
  {
    LogJoin.OneAnswer(script, r, RecordOf(e, true));
    hide ReplayOne;
  }

  /** When no id is missing the acknowledgements name their windows themselves. */
  lemma {:induction false} NamedAcksSuffice(script: Script, keep: nat -> bool, log: seq<Event>)
    requires AllKept(keep) && AcksNamed(log)
    ensures Joins(Live(script, keep, log).acked, AckIds(log)) && Live(script, keep, log).unjoined == 0
    ensures Live(script, keep, log).inferred == 0
  {
    if log != [] {
      var n := |log| - 1;
      var before, e := log[..n], log[n];
      assert e.AckReceived? ==> e.window.Some?;
      NamedAcksSuffice(script, keep, before);
      assert log == before + [e] && keep(n);
      hide Live, AckIds, Joins, ReplayOne, RecordOf, AcksNamed, AllKept;
      LiveSnoc(script, keep, before, e);
      AckIdsSnoc(before, e);
      NamedLine(script, Live(script, keep, before), e);
      if e.AckReceived? {
        assert Joins(Live(script, keep, before).acked, AckIds(before));
        JoinsLength(Live(script, keep, before).acked, AckIds(before));
        JoinsSnoc(Live(script, keep, before).acked, AckIds(before), e.window.value, e.window.value);
      }
    }
  }

  lemma JoinsLength(acked: seq<int>, ids: seq<Option<nat>>)
    requires Joins(acked, ids)
    ensures |acked| == |ids|
  {
  }

  /** With all ids in place this needs no assumption about SEQ reuse, and `validate_run` has nothing
      to warn about. */
  lemma ReplayExactWithIds(
    script: Script, keep: nat -> bool, cfg: Config, env: Env, s: Sys, events: seq<Record>)
    requires cfg.Valid() && Reachable(cfg, env, s) && AllKept(keep)
    requires TxOnly(events) == TxFile(s.log, keep)
    ensures Recovers(script, events, s.log)
    ensures ReplayAll(script, StableSort(TxOnly(events))).inferred == 0
  {
    hide Reachable, TxFile, TxOnly, ReplayAll, AckIds, Num, StableSort;
    LogInvariant(cfg, env, s);
    FileSorted(s.log, keep, s.now);
    SortedStays(TxFile(s.log, keep));
    AckIdsCount(s.log);
    NamedAcksSuffice(script, keep, s.log);
  }

  /** The replayed table of `phase3_report` has exactly the SEQs in flight as keys; with no id stripped, or
      all of them, it is the live join between SEQs and windows. */
  lemma ReplayedTable(keep: nat -> bool, cfg: Config, env: Env, s: Sys)
    requires cfg.Valid() && Reachable(cfg, env, s) && s.lost == {}
    ensures var table := Live(Phase3Report, keep, s.log).table;
            && (forall k <- table :: k in s.payloads.Keys) && (forall k <- s.payloads :: k in table)
            && (AllKept(keep) || (forall i :: !keep(i)) ==> forall k <- s.payloads :: table[k] == s.payloads[k].id)
  {
    hide Reachable, Live, Firsts, Stripped, Given, Reported;
    ReplayInvariant(Phase3Report, keep, cfg, env, s);
    if AllKept(keep) || forall i :: !keep(i) {
      FirstsInvariant(cfg, env, s);
      FirstIdsAreSent(cfg, env, s);
      forall k <- s.payloads ensures Given(s.log, keep, s.payloads[k].id) == s.payloads[k].id {
        var b := ArqAttempts.FirstOfHeld(cfg, env, s, k);
        FirstsNumbered(s.log, s.sent, b);
        GivenIs(s.log, keep, b, s.payloads[k].id);
        AllStripped(s.log[..b], keep);
      }
    }
  }

  lemma {:induction false} TxFileIsTx(log: seq<Event>, keep: nat -> bool)
    ensures TxOnly(TxFile(log, keep)) == TxFile(log, keep)
  {
    if log != [] {
      var n := |log| - 1;
      TxFileIsTx(log[..n], keep);
      if IsTx(log[n]) {
        var file, r := TxFile(log[..n], keep), RecordOf(log[n], keep(n));
        assert (file + [r])[..|file + [r]| - 1] == file;
      } else {
        assert TxFile(log[..n], keep) + [] == TxFile(log[..n], keep);
      }
    }
  }

  /** The lines of the transmit node in the merged log are its own file. */
  lemma {:induction false} TxOfBoth(log: seq<Event>, keep: nat -> bool)
    ensures TxOnly(BothFiles(log, keep)) == TxFile(log, keep)
  {
    if log != [] {
      var n := |log| - 1;
      TxOfBoth(log[..n], keep);
      var file, r := BothFiles(log[..n], keep), RecordOf(log[n], keep(n));
      assert (file + [r])[..|file + [r]| - 1] == file;
      assert TxFile(log[..n], keep) + [] == TxFile(log[..n], keep);
    }
  }

  /** So from the merged log of both nodes, too, `validate_run` recovers the acknowledged windows, whatever ids
      have been stripped. */
  lemma MergedReplay(keep: nat -> bool, cfg: Config, env: Env, s: Sys)
    requires cfg.Valid() && Reachable(cfg, env, s) && s.lost == {}
    ensures Recovers(ValidateRun, BothFiles(s.log, keep), s.log)
  {
    hide Reachable, Recovers, TxFile, TxOnly, BothFiles;
    TxOfBoth(s.log, keep);
    ValidateRunExact(keep, cfg, env, s, BothFiles(s.log, keep));
  }

  /** In every run in which a window other than the first is acknowledged, leaving a single id in the log is
      enough to mislead `phase3_report`, but not `validate_run`. */
  lemma MixedIdsMislead(cfg: Config, env: Env, s: Sys, i: nat, w: nat) returns (keep: nat -> bool)
    requires cfg.Valid() && Reachable(cfg, env, s) && s.lost == {} && ArqSoundness.AcksWindow(s.log, i, w) && w >= 1
    ensures exists a: nat :: a < |s.log| && IsFirst(s.log[a]) && forall j :: keep(j) <==> j == a
    ensures !Recovers(Phase3Report, TxFile(s.log, keep), s.log)
    ensures Recovers(ValidateRun, TxFile(s.log, keep), s.log)
  {
    hide Reachable, Recovers, TxFile, TxOnly, Firsts;
    var b := FirstOfAcked(cfg, env, s, i);
    var a := SomeFirst(s.log[..b]);
    keep := j => j == a;
    TxFileIsTx(s.log, keep);
    Phase3ExactIff(keep, cfg, env, s, TxFile(s.log, keep));
    ValidateRunExact(keep, cfg, env, s, TxFile(s.log, keep));
    assert IsFirst(s.log[a]) && keep(a);
    assert !Joinable(s.log, keep, i);
  }
}
