/** How old the transmission behind an acknowledgement can be, in any run. */
module ArqFreshness {
  import opened Basics
  import opened ArqModel
  import opened ArqInvariants
  import opened ArqCore
  import ArqLogOrder
  import ArqSeqWrap
  import ArqSoundness
  import Arith
  import ArqLink
  import Windows

  /** The gate stays closed for at least m milliseconds after every frame. */
  ghost predicate SpacedBy(cfg: Config, m: nat) {
    forall n: nat :: 2 <= n <= 2 + cfg.maxPayload ==> cfg.Spacing(n) >= m
  }

  /** The time that windows `from` to `to` need at the least. */
  function Gap(m: nat, from: int, to: int): int {
    (to - from) * m
  }

  lemma GapStep(m: nat, from: int, to: int)
    ensures Gap(m, from, to + 1) == Gap(m, from, to) + m && Gap(m, to, to) == 0
  {
    assert (to + 1 - from) * m == (to - from) * m + m;
  }

  /** Window w is among the first n events sent. */
  ghost predicate SentBefore(log: seq<Event>, n: int, w: nat) {
    exists b :: 0 <= b < n <= |log| && log[b].TxSent? && log[b].id == w
  }

  /** No transmission under sn among the first n events is of a later window than w. */
  ghost predicate NewestBefore(log: seq<Event>, n: int, sn: byte, w: nat) {
    forall a :: 0 <= a < n <= |log| && log[a].TxSent? && log[a].sn == sn ==> log[a].id <= w
  }

  /** Event a is the first transmission of its window. */
  ghost predicate FirstOf(log: seq<Event>, a: int) {
    0 <= a < |log| && log[a].TxSent? && forall c :: 0 <= c < a && log[c].TxSent? ==> log[c].id != log[a].id
  }

  /** y is of a later window than x, and as much later as the windows in between need. */
  predicate Apart(m: nat, x: Event, y: Event) {
    x.TxSent? && y.TxSent? && x.id < y.id && y.ts - x.ts >= Gap(m, x.id, y.id)
  }

  /** Likewise for x and the last transmission of s. */
  predicate LongAgo(m: nat, s: Sys, x: Event) {
    x.TxSent? && s.gate.lastTxMs.Some? && x.id < s.sent && s.gate.lastTxMs.value - x.ts >= Gap(m, x.id, s.sent - 1)
  }

  /** First transmissions come in window order, at least the spacing apart for each window. */
  ghost predicate Spread(log: seq<Event>, m: nat) {
    forall a, b :: 0 <= a < b < |log| && FirstOf(log, a) && FirstOf(log, b) ==> Apart(m, log[a], log[b])
  }

  ghost predicate SpreadToLast(s: Sys, m: nat) {
    forall a :: 0 <= a < |s.log| && FirstOf(s.log, a) ==> LongAgo(m, s, s.log[a])
  }

  /** Without retries every transmission is the first one of its window. */
  ghost predicate OnceEach(cfg: Config, log: seq<Event>) {
    cfg.maxRetries == 0 ==> forall a :: 0 <= a < |log| && log[a].TxSent? ==> FirstOf(log, a)
  }

  ghost predicate AcksNewest(log: seq<Event>) {
    forall i :: 0 <= i < |log| && log[i].AckReceived? && log[i].window.Some? ==>
      SentBefore(log, i, log[i].window.value) && NewestBefore(log, i, log[i].sn, log[i].window.value)
  }

  ghost predicate FreshInv(cfg: Config, m: nat, s: Sys) {
    && Spread(s.log, m) && SpreadToLast(s, m) && AcksNewest(s.log) && OnceEach(cfg, s.log)
    && (s.gate.lastTxMs.Some? ==> PaceDeadline(cfg, s.gate) >= s.gate.lastTxMs.value + m)
    && (forall k <- s.payloads ::
          SentBefore(s.log, |s.log|, s.payloads[k].id) && NewestBefore(s.log, |s.log|, k, s.payloads[k].id))
  }

  // ---------------------------------------------------------------------
  // Longer logs
  // ---------------------------------------------------------------------

  lemma BeforeGrows(log: seq<Event>, e: Event, n: int)
    requires n <= |log|
    ensures forall w: nat :: SentBefore(log, n, w) ==> SentBefore(log + [e], n, w)
    ensures forall sn: byte, w: nat :: NewestBefore(log, n, sn, w) ==> NewestBefore(log + [e], n, sn, w)
  {
    forall w: nat | SentBefore(log, n, w) ensures SentBefore(log + [e], n, w) {
      var b :| 0 <= b < n <= |log| && log[b].TxSent? && log[b].id == w;
      assert (log + [e])[b] == log[b];
    }
  }

  lemma AllGrows(log: seq<Event>, e: Event)
    ensures forall w: nat :: SentBefore(log, |log|, w) ==> SentBefore(log + [e], |log| + 1, w)
    ensures e.TxSent? ==> SentBefore(log + [e], |log| + 1, e.id)
    ensures forall sn: byte, w: nat :: NewestBefore(log, |log|, sn, w) && (e.TxSent? && e.sn == sn ==> e.id <= w) ==>
              NewestBefore(log + [e], |log| + 1, sn, w)
  {
    var all := log + [e];
    forall w: nat | SentBefore(log, |log|, w) ensures SentBefore(all, |log| + 1, w) {
      var b :| 0 <= b < |log| && log[b].TxSent? && log[b].id == w;
      assert all[b] == log[b];
    }
    assert all[|log|] == e;
  }

  lemma AcksGrow(log: seq<Event>, e: Event)
    requires AcksNewest(log)
    requires e.AckReceived? && e.window.Some? ==>
               SentBefore(log, |log|, e.window.value) && NewestBefore(log, |log|, e.sn, e.window.value)
    ensures AcksNewest(log + [e])
  {
    hide SentBefore, NewestBefore;
    var all := log + [e];
    forall i | 0 <= i < |all| && all[i].AckReceived? && all[i].window.Some?
      ensures SentBefore(all, i, all[i].window.value) && NewestBefore(all, i, all[i].sn, all[i].window.value)
    {
      BeforeGrows(log, e, i);
    }
  }

  lemma FirstsGrow(log: seq<Event>, e: Event)
    ensures forall a :: a != |log| ==> (FirstOf(log + [e], a) <==> FirstOf(log, a))
    ensures !e.TxSent? ==> !FirstOf(log + [e], |log|)
  {
    var all := log + [e];
    forall a | a != |log| ensures FirstOf(all, a) <==> FirstOf(log, a) {
      if 0 <= a < |log| {
        assert forall c :: 0 <= c <= a ==> all[c] == log[c];
      }
    }
  }

  /** An event that is no first transmission. */
  lemma SpreadLater(cfg: Config, log: seq<Event>, m: nat, e: Event)
    requires Spread(log, m) && OnceEach(cfg, log) && !FirstOf(log + [e], |log|) && (e.TxSent? ==> cfg.maxRetries > 0)
    ensures Spread(log + [e], m) && OnceEach(cfg, log + [e])
  {
    hide FirstOf, Apart;
    FirstsGrow(log, e);
    var all := log + [e];
    forall a, b | 0 <= a < b < |all| && FirstOf(all, a) && FirstOf(all, b) ensures Apart(m, all[a], all[b]) {
      assert FirstOf(log, a) && FirstOf(log, b);
    }
    forall a | cfg.maxRetries == 0 && 0 <= a < |all| && all[a].TxSent? ensures FirstOf(all, a) {
      assert all[a] == log[a];
    }
  }

  lemma ToLastLater(s: Sys, t: Sys, m: nat, e: Event)
    requires SpreadToLast(s, m) && t.log == s.log + [e] && !FirstOf(t.log, |s.log|) && t.sent == s.sent
    requires s.gate.lastTxMs.Some? ==> t.gate.lastTxMs.Some? && t.gate.lastTxMs.value >= s.gate.lastTxMs.value
    ensures SpreadToLast(t, m)
  {
    hide FirstOf, Gap;
    FirstsGrow(s.log, e);
    forall a | 0 <= a < |t.log| && FirstOf(t.log, a) ensures LongAgo(m, t, t.log[a]) {
      assert FirstOf(s.log, a) && LongAgo(m, s, s.log[a]);
    }
  }

  lemma FreshLogging(cfg: Config, m: nat, s: Sys, t: Sys, e: Event)
    requires FreshInv(cfg, m, s)
    requires t.log == s.log + [e] && !e.TxSent? && t.sent == s.sent
    requires t.gate.lastTxMs == s.gate.lastTxMs && t.gate.lastToaMs == s.gate.lastToaMs
    requires forall k <- t.payloads :: k in s.payloads && t.payloads[k] == s.payloads[k]
    requires e.AckReceived? && e.window.Some? ==> e.sn in s.payloads && e.window.value == s.payloads[e.sn].id
    ensures FreshInv(cfg, m, t)
  {
    hide SentBefore, NewestBefore, AcksNewest, Spread, SpreadToLast, OnceEach, FirstOf;
    FirstsGrow(s.log, e);
    SpreadLater(cfg, s.log, m, e);
    ToLastLater(s, t, m, e);
    AcksGrow(s.log, e);
    AllGrows(s.log, e);
  }

  lemma FreshQuiet(cfg: Config, m: nat, s: Sys, t: Sys)
    requires FreshInv(cfg, m, s)
    requires t.log == s.log && t.sent == s.sent && t.payloads == s.payloads
    requires t.gate.lastTxMs == s.gate.lastTxMs && t.gate.lastToaMs == s.gate.lastToaMs
    ensures FreshInv(cfg, m, t)
  {
    hide SentBefore, NewestBefore, AcksNewest, Gap, FirstOf;
  }

  // ---------------------------------------------------------------------
  // Steps
  // ---------------------------------------------------------------------

  lemma ApartFromNext(m: nat, s: Sys, t: Sys, x: Event, e: Event)
    requires LongAgo(m, s, x) && e.TxSent? && e.id == s.sent && e.ts >= s.gate.lastTxMs.value + m
    requires t.sent == s.sent + 1 && t.gate.lastTxMs == Some(e.ts)
    ensures Apart(m, x, e) && LongAgo(m, t, x)
  {
    hide Gap;
    GapStep(m, x.id, s.sent - 1);
  }

  lemma JustNow(m: nat, t: Sys, e: Event)
    requires e.TxSent? && e.id == t.sent - 1 && t.gate.lastTxMs == Some(e.ts)
    ensures LongAgo(m, t, e)
  {
    hide Gap;
    GapStep(m, e.id, e.id);
  }

  lemma SpreadSending(cfg: Config, s: Sys, t: Sys, m: nat, e: Event)
    requires Spread(s.log, m) && SpreadToLast(s, m) && OnceEach(cfg, s.log) && e.TxSent? && e.id == s.sent
    requires FirstOf(s.log + [e], |s.log|)
    requires s.gate.lastTxMs.Some? ==> e.ts >= s.gate.lastTxMs.value + m
    requires t.log == s.log + [e] && t.sent == s.sent + 1 && t.gate.lastTxMs == Some(e.ts)
    ensures Spread(t.log, m) && SpreadToLast(t, m) && OnceEach(cfg, t.log)
  {
    FirstsGrow(s.log, e);
    JustNow(m, t, e);
    hide FirstOf, Apart;
    forall a | 0 <= a < |s.log| && FirstOf(s.log, a) ensures Apart(m, s.log[a], e) && LongAgo(m, t, s.log[a]) {
      ApartFromNext(m, s, t, s.log[a], e);
    }
    hide LongAgo;
    forall a, b | 0 <= a < b < |t.log| && FirstOf(t.log, a) && FirstOf(t.log, b) ensures Apart(m, t.log[a], t.log[b]) {
      assert FirstOf(s.log, a);
      assert b < |s.log| ==> FirstOf(s.log, b);
    }
    forall a | 0 <= a < |t.log| && FirstOf(t.log, a) ensures LongAgo(m, t, t.log[a]) {
      assert a < |s.log| ==> FirstOf(s.log, a);
    }
    forall a | cfg.maxRetries == 0 && 0 <= a < |t.log| && t.log[a].TxSent? ensures FirstOf(t.log, a) {
      assert a < |s.log| ==> t.log[a] == s.log[a];
    }
  }

  lemma NewIsFirst(log: seq<Event>, e: Event)
    requires e.TxSent? && forall c :: 0 <= c < |log| && log[c].TxSent? ==> log[c].id < e.id
    ensures FirstOf(log + [e], |log|)
  {
  }

  lemma SentAreOld(cfg: Config, s: Sys)
    requires DataInv(cfg, s)
    ensures forall c :: 0 <= c < |s.log| && s.log[c].TxSent? ==> s.log[c].id < s.sent
  {
    forall c | 0 <= c < |s.log| && s.log[c].TxSent? ensures s.log[c].id < s.sent {
      assert SentInv(cfg, s, s.log[c]);
    }
  }

  /** No window sent so far is later than the next one. */
  lemma NewIsNewest(cfg: Config, s: Sys, sn: byte)
    requires DataInv(cfg, s) && s.pending != []
    ensures s.pending[0].id == s.sent && NewestBefore(s.log, |s.log|, sn, s.sent)
  {
    SentAreOld(cfg, s);
  }

  lemma SpacedAfter(cfg: Config, m: nat, now: int, g: Gate, n: nat)
    requires SpacedBy(cfg, m) && 2 <= n <= 2 + cfg.maxPayload
    requires g.lastTxMs == Some(now) && g.lastToaMs == cfg.toaMs(n)
    ensures PaceDeadline(cfg, g) >= now + m
  {
    ArqSeqWrap.DeadlineAfter(cfg, g, n);
  }

  lemma FreshSending(cfg: Config, env: Env, m: nat, s: Sys)
    requires cfg.Valid() && SpacedBy(cfg, m) && TableInv(cfg, s) && DataInv(cfg, s) && FreshInv(cfg, m, s)
    requires s.pending != [] && CanSend(cfg, s.gate, s.now)
    ensures FreshInv(cfg, m, SendNext(cfg, env, s))
  {
    hide SentBefore, NewestBefore, AcksNewest, Spread, SpreadToLast, OnceEach, SendFromA, DataFrame, EntryInv,
      SpacedBy, PaceDeadline, DataInv, FirstOf;
    var t := SendNext(cfg, env, s);
    var e := t.log[|s.log|];
    PendingFits(cfg, s);
    SentAreOld(cfg, s);
    NewIsNewest(cfg, s, s.seqNo);
    NewIsFirst(s.log, e);
    SpreadSending(cfg, s, t, m, e);
    AcksGrow(s.log, e);
    AllGrows(s.log, e);
    SpacedAfter(cfg, m, s.now, t.gate, 2 + |s.pending[0].payload|);
  }

  lemma PendingFits(cfg: Config, s: Sys)
    requires cfg.Valid() && DataInv(cfg, s) && s.pending != []
    ensures |s.pending[0].payload| <= cfg.maxPayload
  {
    assert Encodes(cfg, s.dataset, s.pending[0].id, s.pending[0].payload);
  }

  lemma HeldFits(cfg: Config, s: Sys, sn: byte)
    requires cfg.Valid() && DataInv(cfg, s) && sn in s.payloads
    ensures |s.payloads[sn].payload| <= cfg.maxPayload
  {
    assert HeldInv(cfg, s, sn, s.payloads[sn]);
  }

  lemma NotFirst(log: seq<Event>, e: Event)
    requires e.TxSent? && SentBefore(log, |log|, e.id)
    ensures !FirstOf(log + [e], |log|)
  {
    var b :| 0 <= b < |log| && log[b].TxSent? && log[b].id == e.id;
    assert (log + [e])[b] == log[b] && (log + [e])[|log|] == e;
  }

  lemma FreshRetrying(cfg: Config, env: Env, m: nat, s: Sys, sn: byte)
    requires cfg.Valid() && SpacedBy(cfg, m) && TableInv(cfg, s) && DataInv(cfg, s) && FreshInv(cfg, m, s)
    requires sn in s.payloads && RetryDue(cfg, s.gate, s.now, sn)
    ensures FreshInv(cfg, m, Retry(cfg, env, s, sn))
  {
    hide SentBefore, NewestBefore, AcksNewest, Gap, Spread, SpreadToLast, OnceEach, SendFromA, DataFrame, SpacedBy,
      PaceDeadline, DataInv, FirstOf;
    var t := Retry(cfg, env, s, sn);
    var e := t.log[|s.log|];
    assert EntryInv(s.gate.inflight[sn], sn, s.now);
    HeldFits(cfg, s, sn);
    NotFirst(s.log, e);
    SpreadLater(cfg, s.log, m, e);
    ToLastLater(s, t, m, e);
    AcksGrow(s.log, e);
    AllGrows(s.log, e);
    SpacedAfter(cfg, m, s.now, t.gate, 2 + |s.payloads[sn].payload|);
    assert t.log == s.log + [e];
    forall k <- t.payloads
      ensures SentBefore(t.log, |t.log|, t.payloads[k].id) && NewestBefore(t.log, |t.log|, k, t.payloads[k].id)
    {
      assert e.sn == k ==> k == sn;
    }
  }

  lemma FreshReceiving(cfg: Config, m: nat, s: Sys)
    requires TableInv(cfg, s) && FreshInv(cfg, m, s) && Deliverable(s.link.toA, s.now)
    ensures FreshInv(cfg, m, HandleFrame(cfg, s))
  {
    hide FreshInv, ParseReply, Without, EntryInv;
    var t := HandleFrame(cfg, s);
    match ParseReply(cfg, s.link.toA[0].frame) {
      case AckFor(sn) =>
        if sn in s.gate.inflight {
          FreshLogging(cfg, m, s, t, AckEvent(s, sn));
        } else {
          FreshQuiet(cfg, m, s, t);
        }
      case BadFrame => FreshLogging(cfg, m, s, t, TxParseFail(s.now));
      case OtherFrame => FreshQuiet(cfg, m, s, t);
    }
  }

  lemma FreshRelaying(cfg: Config, env: Env, m: nat, s: Sys)
    requires FreshInv(cfg, m, s) && Deliverable(s.link.toB, s.now)
    ensures FreshInv(cfg, m, Relay(cfg, env, s))
  {
    hide FreshInv, ParseData, SendFromB;
    var t := Relay(cfg, env, s);
    match ParseData(cfg, s.link.toB[0].frame) {
      case Malformed => FreshLogging(cfg, m, s, t, RxParseFail(s.now));
      case DataFor(sn, payload) =>
        var e, f := RxOk(s.now, sn, payload), AckSent(s.now, sn);
        var u := s.(log := s.log + [e]);
        FreshLogging(cfg, m, s, u, e);
        assert t.log == u.log + [f];
        FreshLogging(cfg, m, u, t, f);
    }
  }

  lemma FreshInvStep(cfg: Config, env: Env, m: nat, s: Sys, step: Step)
    requires cfg.Valid() && SpacedBy(cfg, m)
    requires TableInv(cfg, s) && DataInv(cfg, s) && FreshInv(cfg, m, s) && Enabled(cfg, s, step)
    ensures FreshInv(cfg, m, Apply(cfg, env, s, step))
  {
    hide FreshInv, SpacedBy, TableInv, DataInv, HandleFrame, SendNext, Relay, Retry, CanSend, RetryDue, Windows.Feed;
    match step {
      case Sampling => FreshQuiet(cfg, m, s, QueueWindow(cfg, env, s));
      case Receiving => FreshReceiving(cfg, m, s);
      case Retrying(sn) => FreshRetrying(cfg, env, m, s, sn);
      case Failing(sn) => FreshLogging(cfg, m, s, Fail(s, sn), Fail(s, sn).log[|s.log|]);
      case Sending => FreshSending(cfg, env, m, s);
      case Relaying => FreshRelaying(cfg, env, m, s);
      case Ticking(ms) => FreshQuiet(cfg, m, s, Tick(s, ms));
    }
  }

  lemma {:induction false} FreshInvAlong(cfg: Config, env: Env, m: nat, s: Sys, steps: seq<Step>, t: Sys)
    requires cfg.Valid() && SpacedBy(cfg, m)
    requires CoreInv(cfg, env, s) && FreshInv(cfg, m, s) && Leads(cfg, env, s, steps, t)
    ensures FreshInv(cfg, m, t)
    decreases |steps|
  {
    hide Apply, Enabled, FreshInv, SpacedBy;
    hide TableInv, DataInv, SampleInv, FateInv, CountInv, ArqLink.OriginInv, ArqLink.FrameInv;
    if steps != [] {
      CoreInvStep(cfg, env, s, steps[0]);
      FreshInvStep(cfg, env, m, s, steps[0]);
      FreshInvAlong(cfg, env, m, Apply(cfg, env, s, steps[0]), steps[1..], t);
    }
  }

  lemma FreshInvariant(cfg: Config, env: Env, m: nat, s: Sys)
    requires cfg.Valid() && SpacedBy(cfg, m) && Reachable(cfg, env, s)
    ensures FreshInv(cfg, m, s)
  {
    hide Leads, CoreInv, SpacedBy;
    var start: nat, steps :| Leads(cfg, env, Init(start), steps, s);
    CoreInvInit(cfg, env, start);
    FreshInvAlong(cfg, env, m, Init(start), steps, s);
  }

  // ---------------------------------------------------------------------
  // The theorem
  // ---------------------------------------------------------------------

  /** The first transmission of a window that has been transmitted. */
  lemma {:induction false} Earliest(log: seq<Event>, k: nat) returns (f: nat)
    requires k < |log| && log[k].TxSent?
    ensures f <= k && FirstOf(log, f) && log[f].id == log[k].id
    decreases k
  {
    if FirstOf(log, k) {
      f := k;
    } else {
      var c :| 0 <= c < k && log[c].TxSent? && log[c].id == log[k].id;
      f := Earliest(log, c);
    }
  }

  /** Whatever is lost, however often frames are resent, and however the nodes are scheduled: when window w is
      reported acknowledged, either the receiver had logged exactly the encoding of w, or the answer is for
      a window whose first transmission (which is its only one without retries) is at least 256 spacings
      old. While no window is answered as late as that, acknowledgements are sound, in runs of any
      length. */
  lemma AckSoundUnlessStale(cfg: Config, env: Env, m: nat, s: Sys, i: nat, w: nat) returns (j: nat, k: nat, f: nat)
    requires cfg.Valid() && SpacedBy(cfg, m) && Reachable(cfg, env, s)
    requires ArqSoundness.AcksWindow(s.log, i, w)
    ensures f <= k < j < i && s.log[k].TxSent? && s.log[j].RxOk? && s.log[j].payload == s.log[k].payload
    ensures s.log[f].TxSent? && s.log[f].id == s.log[k].id && (cfg.maxRetries == 0 ==> f == k)
    ensures w < |s.dataset|
    ensures s.log[j].payload == cfg.encode(s.dataset[w]) || s.log[i].ts - s.log[f].ts >= 256 * m
  {
    hide Reachable, SpacedBy, Spread, SpreadToLast, Gap, FirstOf, ArqLogOrder.InTime, ArqLogOrder.AcksNamed;
    j, k := ArqSoundness.AckProvenance(cfg, env, s, i, w);
    f := Earliest(s.log, k);
    FreshInvariant(cfg, env, m, s);
    ArqLogOrder.LogInvariant(cfg, env, s);
    CoreInvariant(cfg, env, s);
    WindowKnown(cfg, env, s, w);
    assert SentBefore(s.log, i, w) && NewestBefore(s.log, i, s.log[i].sn, w);
    var sent :| 0 <= sent < i && s.log[sent].TxSent? && s.log[sent].id == w;
    var b := Earliest(s.log, sent);
    ArqSoundness.AckWindowInvariant(cfg, env, s);
    SameSeq(cfg, s, k);
    if cfg.maxRetries == 0 {
      OnlyOne(s.log, f, k);
    }
    if s.log[k].id != w {
      InOrder(s.log, s.now, b, i);
      Older(m, s.log, f, b, i, s.log[k].id, w);
    }
  }

  lemma InOrder(log: seq<Event>, now: int, b: nat, i: nat)
    requires ArqLogOrder.InTime(log, now) && b < i < |log|
    ensures log[b].ts <= log[i].ts
  {
  }

  lemma OnlyOne(log: seq<Event>, f: nat, k: nat)
    requires f <= k < |log| && FirstOf(log, f) && FirstOf(log, k) && log[f].id == log[k].id
    ensures f == k
  {
  }

  lemma WindowKnown(cfg: Config, env: Env, s: Sys, w: nat)
    requires cfg.window.Valid() && CoreInv(cfg, env, s) && w < s.sent
    ensures w < |s.dataset| && DataInv(cfg, s)
  {
  }

  lemma SameSeq(cfg: Config, s: Sys, k: nat)
    requires DataInv(cfg, s) && k < |s.log| && s.log[k].TxSent?
    ensures s.log[k].sn == s.log[k].id % 256
  {
    assert SentInv(cfg, s, s.log[k]);
  }

  lemma Older(m: nat, log: seq<Event>, f: nat, b: nat, i: nat, id: nat, w: nat)
    requires Spread(log, m) && b < i < |log| && f < |log| && FirstOf(log, f) && FirstOf(log, b)
    requires log[f].TxSent? && log[b].TxSent? && log[f].id == id < w == log[b].id && id % 256 == w % 256
    requires log[b].ts <= log[i].ts
    ensures log[i].ts - log[f].ts >= 256 * m
  {
    hide FirstOf;
    Arith.SameResidue(id, w, 256);
    Arith.MulMonotone(256, w - id, m);
    assert b < f ==> Apart(m, log[b], log[f]);
    assert Apart(m, log[f], log[b]);
  }
}
