/** How often windows are transmitted, and what the latency fields of the log mean, as long as no SEQ
    has been reused in flight. */
module ArqAttempts {
  import opened Basics
  import opened ArqModel
  import opened ArqInvariants
  import opened ArqCore
  import ArqLink
  import Windows

  /** How many transmissions of window w a log reports. */
  function Tries(log: seq<Event>, w: nat): nat {
    if log == [] then 0
    else
      var e := log[|log| - 1];
      Tries(log[..|log| - 1], w) + (if e.TxSent? && e.id == w then 1 else 0)
  }

  lemma TriesSnoc(log: seq<Event>, e: Event, w: nat)
    ensures Tries(log + [e], w) == Tries(log, w) + (if e.TxSent? && e.id == w then 1 else 0)
  {
    assert (log + [e])[..|log + [e]| - 1] == log;
  }

  /** Entry b is the first transmission of window w, at time ts and when the window was `age` old. */
  predicate FirstSend(log: seq<Event>, b: int, w: nat, ts: int, age: int) {
    0 <= b < |log| && log[b].TxSent? && log[b].id == w && log[b].attempt == 1 && log[b].ts == ts && log[b].ageMs == age
  }

  ghost predicate FirstSent(log: seq<Event>, n: int, w: nat, ts: int, age: int) {
    exists b :: 0 <= b < n && FirstSend(log, b, w, ts, age)
  }

  lemma FirstSentGrows(log: seq<Event>, e: Event, n: int, w: nat, ts: int, age: int)
    requires FirstSent(log, n, w, ts, age)
    ensures FirstSent(log + [e], n, w, ts, age)
  {
    var b :| 0 <= b < n && FirstSend(log, b, w, ts, age);
    assert FirstSend(log + [e], b, w, ts, age);
  }

  /** What entry i of a log says about attempts and times. */
  ghost predicate EventFacts(cfg: Config, log: seq<Event>, i: nat)
    requires i < |log|
  {
    match log[i]
    case TxSent(_, id, _, _, _, _, _, attempt, ageMs) =>
      1 <= attempt <= cfg.maxRetries + 1 && attempt == Tries(log[..i], id) + 1 && ageMs >= 0
    case TxFailed(_, _, window, attempts) =>
      window.Some? && attempts == cfg.maxRetries + 1 == Tries(log[..i], window.value)
    case AckReceived(ts, _, window, rttMs, queueMs, e2eMs) =>
      && window.Some? && rttMs >= 0 && queueMs >= 0 && e2eMs == queueMs + rttMs
      && FirstSent(log, i, window.value, ts - rttMs, queueMs)
    case _ => true
  }

  ghost predicate EntryFacts(cfg: Config, log: seq<Event>, e: Inflight, w: PendingWindow) {
    && 1 <= e.attempts <= cfg.maxRetries + 1
    && Tries(log, w.id) == e.attempts
    && e.firstTxMs >= w.builtMs
    && FirstSent(log, |log|, w.id, e.firstTxMs, e.firstTxMs - w.builtMs)
  }

  ghost predicate Facts(cfg: Config, s: Sys) {
    && (forall i :: 0 <= i < |s.log| ==> EventFacts(cfg, s.log, i))
    && (forall k <- s.payloads :: k in s.gate.inflight && EntryFacts(cfg, s.log, s.gate.inflight[k], s.payloads[k]))
    && (forall j :: 0 <= j < |s.pending| ==> s.pending[j].builtMs <= s.now)
    && (forall w: nat :: Tries(s.log, w) <= cfg.maxRetries + 1)
    && (forall w: nat :: w >= s.sent ==> Tries(s.log, w) == 0)
  }

  ghost predicate AttemptInv(cfg: Config, s: Sys) {
    s.lost == {} ==> Facts(cfg, s)
  }

  // ---------------------------------------------------------------------
  // Longer logs
  // ---------------------------------------------------------------------

  lemma EventsGrow(cfg: Config, log: seq<Event>, e: Event)
    requires forall i :: 0 <= i < |log| ==> EventFacts(cfg, log, i)
    requires EventFacts(cfg, log + [e], |log|)
    ensures forall i :: 0 <= i < |log| + 1 ==> EventFacts(cfg, log + [e], i)
  {
    hide FirstSent, Tries;
    var all := log + [e];
    forall i | 0 <= i < |log| ensures EventFacts(cfg, all, i) {
      assert EventFacts(cfg, log, i) && all[i] == log[i] && all[..i] == log[..i];
      if log[i].AckReceived? {
        FirstSentGrows(log, e, i, log[i].window.value, log[i].ts - log[i].rttMs, log[i].queueMs);
      }
    }
  }

  lemma EntryGrows(cfg: Config, log: seq<Event>, ev: Event, e: Inflight, w: PendingWindow)
    requires EntryFacts(cfg, log, e, w) && (ev.TxSent? ==> ev.id != w.id)
    ensures EntryFacts(cfg, log + [ev], e, w)
  {
    hide FirstSent, Tries;
    TriesSnoc(log, ev, w.id);
    FirstSentGrows(log, ev, |log|, w.id, e.firstTxMs, e.firstTxMs - w.builtMs);
    LaterToo(log + [ev], |log|, w.id, e.firstTxMs, e.firstTxMs - w.builtMs);
  }

  lemma LaterToo(log: seq<Event>, n: int, w: nat, ts: int, age: int)
    requires FirstSent(log, n, w, ts, age)
    ensures FirstSent(log, n + 1, w, ts, age)
  {
  }

  /** An event that is not a transmission. */
  lemma FactsLogging(cfg: Config, s: Sys, t: Sys, e: Event)
    requires Facts(cfg, s) && t.log == s.log + [e] && !e.TxSent? && t.sent == s.sent && t.pending == s.pending
    requires t.now == s.now
    requires forall k <- t.payloads :: k in s.payloads && t.payloads[k] == s.payloads[k]
    requires forall k <- t.payloads :: k in t.gate.inflight && t.gate.inflight[k] == s.gate.inflight[k]
    requires EventFacts(cfg, t.log, |s.log|)
    ensures Facts(cfg, t)
  {
    hide EventFacts, EntryFacts, Tries;
    EventsGrow(cfg, s.log, e);
    forall k <- t.payloads ensures EntryFacts(cfg, t.log, t.gate.inflight[k], t.payloads[k]) {
      EntryGrows(cfg, s.log, e, s.gate.inflight[k], s.payloads[k]);
    }
    forall w: nat ensures Tries(t.log, w) == Tries(s.log, w) {
      TriesSnoc(s.log, e, w);
    }
  }

  lemma FactsQuiet(cfg: Config, s: Sys, t: Sys)
    requires Facts(cfg, s) && t.log == s.log && t.payloads == s.payloads && t.gate == s.gate && t.sent == s.sent
    requires t.now >= s.now && forall j :: 0 <= j < |t.pending| ==> t.pending[j].builtMs <= t.now
    ensures Facts(cfg, t)
  {
    hide EventFacts, EntryFacts, Tries;
  }

  // ---------------------------------------------------------------------
  // Steps
  // ---------------------------------------------------------------------

  lemma TriesAfter(cfg: Config, log: seq<Event>, e: Event, sent: nat)
    requires e.TxSent? && Tries(log, e.id) <= cfg.maxRetries && e.id < sent
    requires forall w: nat :: Tries(log, w) <= cfg.maxRetries + 1
    requires forall w: nat :: w >= sent ==> Tries(log, w) == 0
    ensures forall w: nat :: Tries(log + [e], w) <= cfg.maxRetries + 1
    ensures forall w: nat :: w >= sent ==> Tries(log + [e], w) == 0
  {
    hide Tries;
    forall w: nat ensures Tries(log + [e], w) == Tries(log, w) + (if e.id == w then 1 else 0) {
      TriesSnoc(log, e, w);
    }
  }

  /** The entry for a window that has just been transmitted. */
  lemma EntrySent(cfg: Config, log: seq<Event>, ev: Event, e: Inflight, w: PendingWindow)
    requires ev.TxSent? && ev.id == w.id && ev.attempt == e.attempts == Tries(log, w.id) + 1 <= cfg.maxRetries + 1
    requires e.firstTxMs >= w.builtMs
    requires if ev.attempt == 1 then ev.ts == e.firstTxMs && ev.ageMs == ev.ts - w.builtMs
             else FirstSent(log, |log|, w.id, e.firstTxMs, e.firstTxMs - w.builtMs)
    ensures EntryFacts(cfg, log + [ev], e, w)
  {
    TriesSnoc(log, ev, w.id);
    hide Tries;
    if ev.attempt == 1 {
      assert FirstSend(log + [ev], |log|, w.id, e.firstTxMs, e.firstTxMs - w.builtMs);
    } else {
      FirstSentGrows(log, ev, |log|, w.id, e.firstTxMs, e.firstTxMs - w.builtMs);
    }
  }

  lemma FactsSending(cfg: Config, env: Env, s: Sys)
    requires TableInv(cfg, s) && DataInv(cfg, s) && Facts(cfg, s) && s.pending != [] && s.seqNo !in s.payloads
    ensures Facts(cfg, SendNext(cfg, env, s))
  {
    hide EventFacts, EntryFacts, Tries, SendFromA, SentInv, SeqOf, EntryInv, Encodes;
    var t, w := SendNext(cfg, env, s), s.pending[0];
    var e := t.log[|s.log|];
    assert w.id == s.sent && e.attempt == 1 && w.builtMs <= s.now;
    SentFacts(cfg, s.log, e);
    EventsGrow(cfg, s.log, e);
    TriesAfter(cfg, s.log, e, t.sent);
    EntrySent(cfg, s.log, e, t.gate.inflight[s.seqNo], w);
    forall k <- t.payloads ensures EntryFacts(cfg, t.log, t.gate.inflight[k], t.payloads[k]) {
      if k != s.seqNo {
        assert HeldInv(cfg, s, k, s.payloads[k]);
        EntryGrows(cfg, s.log, e, s.gate.inflight[k], s.payloads[k]);
      }
    }
  }

  lemma SentFacts(cfg: Config, log: seq<Event>, e: Event)
    requires e.TxSent? && e.attempt == Tries(log, e.id) + 1 <= cfg.maxRetries + 1 && e.ageMs >= 0
    ensures EventFacts(cfg, log + [e], |log|)
  {
    hide Tries;
    assert (log + [e])[..|log|] == log;
  }

  lemma FactsRetrying(cfg: Config, env: Env, s: Sys, sn: byte)
    requires TableInv(cfg, s) && DataInv(cfg, s) && Facts(cfg, s)
    requires sn in s.payloads && RetryDue(cfg, s.gate, s.now, sn)
    ensures Facts(cfg, Retry(cfg, env, s, sn))
  {
    hide EventFacts, Tries, SendFromA, SentInv, SeqOf, Encodes, PendingInv, FirstSent;
    var t, w := Retry(cfg, env, s, sn), s.payloads[sn];
    var e := t.log[|s.log|];
    assert EntryFacts(cfg, s.log, s.gate.inflight[sn], w) && EntryInv(s.gate.inflight[sn], sn, s.now);
    assert HeldInv(cfg, s, sn, w);
    SentFacts(cfg, s.log, e);
    EventsGrow(cfg, s.log, e);
    TriesAfter(cfg, s.log, e, t.sent);
    EntrySent(cfg, s.log, e, t.gate.inflight[sn], w);
    OthersKept(cfg, s, t, sn, e);
  }

  lemma OthersKept(cfg: Config, s: Sys, t: Sys, sn: byte, e: Event)
    requires DataInv(cfg, s) && Facts(cfg, s) && sn in s.payloads && e.TxSent? && e.id == s.payloads[sn].id
    requires t.log == s.log + [e] && t.payloads == s.payloads
    requires forall k <- s.payloads :: k != sn ==> k in t.gate.inflight && t.gate.inflight[k] == s.gate.inflight[k]
    ensures forall k <- t.payloads :: k != sn ==> EntryFacts(cfg, t.log, t.gate.inflight[k], t.payloads[k])
  {
    hide EventFacts, EntryFacts, Tries, SentInv, Encodes;
    forall k <- t.payloads | k != sn ensures EntryFacts(cfg, t.log, t.gate.inflight[k], t.payloads[k]) {
      assert HeldInv(cfg, s, k, s.payloads[k]) && HeldInv(cfg, s, sn, s.payloads[sn]);
      EntryGrows(cfg, s.log, e, s.gate.inflight[k], s.payloads[k]);
    }
  }

  lemma FactsAck(cfg: Config, s: Sys, t: Sys, sn: byte)
    requires TableInv(cfg, s) && Facts(cfg, s) && sn in s.gate.inflight
    requires t == Acknowledge(s, sn)
    ensures Facts(cfg, t)
  {
    hide EventFacts, Tries, Without;
    assert EntryFacts(cfg, s.log, s.gate.inflight[sn], s.payloads[sn]) && EntryInv(s.gate.inflight[sn], sn, s.now);
    AckFacts(cfg, s, AckEvent(s, sn), sn);
    FactsLogging(cfg, s, t, AckEvent(s, sn));
  }

  lemma AckFacts(cfg: Config, s: Sys, e: Event, sn: byte)
    requires sn in s.gate.inflight && sn in s.payloads && e == AckEvent(s, sn)
    requires EntryFacts(cfg, s.log, s.gate.inflight[sn], s.payloads[sn]) && EntryInv(s.gate.inflight[sn], sn, s.now)
    ensures EventFacts(cfg, s.log + [e], |s.log|)
  {
    hide Tries, FirstSent;
    var w, first := s.payloads[sn], s.gate.inflight[sn].firstTxMs;
    FirstSentGrows(s.log, e, |s.log|, w.id, first, first - w.builtMs);
  }

  lemma FactsReceiving(cfg: Config, s: Sys)
    requires TableInv(cfg, s) && Facts(cfg, s) && Deliverable(s.link.toA, s.now)
    ensures Facts(cfg, HandleFrame(cfg, s))
  {
    hide Facts, ParseReply, Without, EntryInv;
    var t, u := HandleFrame(cfg, s), PopA(s);
    PopKeeps(cfg, s, u);
    match ParseReply(cfg, s.link.toA[0].frame) {
      case AckFor(sn) =>
        if sn in s.gate.inflight {
          FactsAck(cfg, u, t, sn);
        }
      case BadFrame =>
        OtherFacts(cfg, s.log, TxParseFail(s.now));
        FactsLogging(cfg, u, t, TxParseFail(s.now));
      case OtherFrame =>
    }
  }

  lemma PopKeeps(cfg: Config, s: Sys, u: Sys)
    requires Facts(cfg, s) && u == s.(link := u.link)
    ensures Facts(cfg, u)
  {
    FactsQuiet(cfg, s, u);
  }

  lemma OtherFacts(cfg: Config, log: seq<Event>, e: Event)
    requires !e.TxSent? && !e.AckReceived? && !e.TxFailed?
    ensures EventFacts(cfg, log + [e], |log|)
  {
  }

  lemma FactsFailing(cfg: Config, s: Sys, sn: byte)
    requires TableInv(cfg, s) && Facts(cfg, s) && FailureDue(cfg, s.gate, s.now, sn)
    ensures Facts(cfg, Fail(s, sn))
  {
    hide EventFacts, Tries, Without, EntryInv;
    var t := Fail(s, sn);
    assert EntryFacts(cfg, s.log, s.gate.inflight[sn], s.payloads[sn]);
    FailedFacts(cfg, s.log, t.log[|s.log|]);
    FactsLogging(cfg, s, t, t.log[|s.log|]);
  }

  lemma FailedFacts(cfg: Config, log: seq<Event>, e: Event)
    requires e.TxFailed? && e.window.Some? && e.attempts == cfg.maxRetries + 1 == Tries(log, e.window.value)
    ensures EventFacts(cfg, log + [e], |log|)
  {
    hide Tries;
    assert (log + [e])[..|log|] == log;
  }

  lemma FactsRelaying(cfg: Config, env: Env, s: Sys)
    requires Facts(cfg, s) && Deliverable(s.link.toB, s.now)
    ensures Facts(cfg, Relay(cfg, env, s))
  {
    hide ParseData, SendFromB, EventFacts, EntryFacts, Tries;
    var t, u := Relay(cfg, env, s), PopB(s);
    PopKeeps(cfg, s, u);
    match ParseData(cfg, s.link.toB[0].frame) {
      case Malformed =>
        OtherFacts(cfg, s.log, RxParseFail(s.now));
        FactsLogging(cfg, u, t, RxParseFail(s.now));
      case DataFor(sn, payload) =>
        var e, f := RxOk(s.now, sn, payload), AckSent(s.now, sn);
        var v := u.(log := s.log + [e]);
        OtherFacts(cfg, s.log, e);
        FactsLogging(cfg, u, v, e);
        OtherFacts(cfg, v.log, f);
        assert t.log == v.log + [f];
        FactsLogging(cfg, v, t, f);
    }
  }

  lemma FactsSampling(cfg: Config, env: Env, s: Sys)
    requires cfg.window.Valid() && Facts(cfg, s)
    ensures Facts(cfg, QueueWindow(cfg, env, s))
  {
    hide Windows.Feed, EventFacts, EntryFacts, Tries;
    FactsQuiet(cfg, s, QueueWindow(cfg, env, s));
  }

  lemma AttemptInvStep(cfg: Config, env: Env, s: Sys, step: Step)
    requires cfg.Valid() && TableInv(cfg, s) && DataInv(cfg, s) && AttemptInv(cfg, s) && Enabled(cfg, s, step)
    ensures AttemptInv(cfg, Apply(cfg, env, s, step))
  {
    hide Facts, TableInv, DataInv, RecordSend, SendFromA, Drop, CanSend, Windows.Feed, ParseReply, ParseData, SendFromB;
    hide RetryDue, FailureDue;
    if Apply(cfg, env, s, step).lost == {} {
      LostGrows(cfg, env, s, step);
      match step {
        case Sampling => FactsSampling(cfg, env, s);
        case Receiving => FactsReceiving(cfg, s);
        case Retrying(sn) => FactsRetrying(cfg, env, s, sn);
        case Failing(sn) => FactsFailing(cfg, s, sn);
        case Sending => FactsSending(cfg, env, s);
        case Relaying => FactsRelaying(cfg, env, s);
        case Ticking(ms) => FactsTicking(cfg, s, ms);
      }
    }
  }

  lemma FactsTicking(cfg: Config, s: Sys, ms: int)
    requires Facts(cfg, s)
    ensures Facts(cfg, Tick(s, ms))
  {
    FactsQuiet(cfg, s, Tick(s, ms));
  }

  lemma LostGrows(cfg: Config, env: Env, s: Sys, step: Step)
    requires cfg.window.Valid() && Enabled(cfg, s, step)
    ensures s.lost <= Apply(cfg, env, s, step).lost
    ensures step.Sending? && Apply(cfg, env, s, step).lost == {} ==> s.seqNo !in s.payloads
  {
    hide RecordSend, SendFromA, Drop, CanSend, Windows.Feed, ParseReply, ParseData, SendFromB, RetryDue, FailureDue;
    if step.Sending? {
      NotHeld(s, SendNext(cfg, env, s));
    }
  }

  lemma {:induction false} AttemptInvAlong(cfg: Config, env: Env, s: Sys, steps: seq<Step>, t: Sys)
    requires cfg.Valid() && CoreInv(cfg, env, s) && AttemptInv(cfg, s) && Leads(cfg, env, s, steps, t)
    ensures AttemptInv(cfg, t)
    decreases |steps|
  {
    hide Apply, Enabled, AttemptInv;
    hide TableInv, DataInv, SampleInv, FateInv, CountInv, ArqLink.OriginInv, ArqLink.FrameInv;
    if steps != [] {
      CoreInvStep(cfg, env, s, steps[0]);
      AttemptInvStep(cfg, env, s, steps[0]);
      AttemptInvAlong(cfg, env, Apply(cfg, env, s, steps[0]), steps[1..], t);
    }
  }

  lemma AttemptInvariant(cfg: Config, env: Env, s: Sys)
    requires cfg.Valid() && Reachable(cfg, env, s)
    ensures AttemptInv(cfg, s)
  {
    hide Leads, CoreInv;
    var start: nat, steps :| Leads(cfg, env, Init(start), steps, s);
    CoreInvInit(cfg, env, start);
    AttemptInvAlong(cfg, env, Init(start), steps, s);
  }

  // ---------------------------------------------------------------------
  // The theorems
  // ---------------------------------------------------------------------

  /** No window is transmitted more than max_retries + 1 times; every transmission is numbered by how
      many came before it; a window is only given up after exactly max_retries + 1 transmissions; and
      the attempts in the table are the transmissions so far. */
  lemma AttemptsBounded(cfg: Config, env: Env, s: Sys)
    requires cfg.Valid() && Reachable(cfg, env, s) && s.lost == {}
    ensures forall w: nat :: Tries(s.log, w) <= cfg.maxRetries + 1
    ensures forall i :: 0 <= i < |s.log| && s.log[i].TxSent? ==>
              1 <= s.log[i].attempt == Tries(s.log[..i], s.log[i].id) + 1 <= cfg.maxRetries + 1
    ensures forall i :: 0 <= i < |s.log| && s.log[i].TxFailed? ==>
              && s.log[i].window.Some?
              && s.log[i].attempts == cfg.maxRetries + 1 == Tries(s.log[..i], s.log[i].window.value)
    ensures forall k <- s.payloads ::
              k in s.gate.inflight && s.gate.inflight[k].attempts == Tries(s.log, s.payloads[k].id)
  {
    hide Reachable, Tries, FirstSent;
    AttemptInvariant(cfg, env, s);
    forall i | 0 <= i < |s.log| && (s.log[i].TxSent? || s.log[i].TxFailed?)
      ensures s.log[i].TxSent? ==> 1 <= s.log[i].attempt == Tries(s.log[..i], s.log[i].id) + 1 <= cfg.maxRetries + 1
      ensures s.log[i].TxFailed? ==>
                && s.log[i].window.Some?
                && s.log[i].attempts == cfg.maxRetries + 1 == Tries(s.log[..i], s.log[i].window.value)
    {
      assert EventFacts(cfg, s.log, i);
    }
  }

  /** Every window in flight has had a first attempt. */
  lemma FirstOfHeld(cfg: Config, env: Env, s: Sys, k: byte) returns (b: nat)
    requires cfg.Valid() && Reachable(cfg, env, s) && s.lost == {} && k in s.payloads
    ensures b < |s.log| && s.log[b].TxSent? && s.log[b].attempt == 1 && s.log[b].id == s.payloads[k].id
  {
    hide Reachable, Tries;
    AttemptInvariant(cfg, env, s);
    var e, w := s.gate.inflight[k], s.payloads[k];
    assert EntryFacts(cfg, s.log, e, w);
    b :| 0 <= b < |s.log| && FirstSend(s.log, b, w.id, e.firstTxMs, e.firstTxMs - w.builtMs);
  }

  /** The latency fields of an acknowledgement add up and start where they should: the queueing time is
      the age the window had when it was first transmitted, the round trip counts from that
      transmission also after retries, and their sum is the end-to-end time. */
  lemma LatencyAccounts(cfg: Config, env: Env, s: Sys, i: nat) returns (b: nat)
    requires cfg.Valid() && Reachable(cfg, env, s) && s.lost == {} && i < |s.log| && s.log[i].AckReceived?
    ensures var e := s.log[i];
            && e.window.Some? && e.rttMs >= 0 && e.queueMs >= 0 && e.e2eMs == e.queueMs + e.rttMs
            && b < i && s.log[b].TxSent? && s.log[b].id == e.window.value && s.log[b].attempt == 1
            && s.log[b].ts == e.ts - e.rttMs && s.log[b].ageMs == e.queueMs
  {
    hide Reachable, Tries;
    AttemptInvariant(cfg, env, s);
    assert EventFacts(cfg, s.log, i);
    var e := s.log[i];
    b :| 0 <= b < i && FirstSend(s.log, b, e.window.value, e.ts - e.rttMs, e.queueMs);
  }
}
