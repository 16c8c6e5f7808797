/** When retries cannot be shut out of a full table: when the table cannot fill. */
module ArqRoom {
  import opened Basics
  import opened Windows
  import opened ArqModel
  import opened ArqRuns
  import opened ArqInvariants
  import opened ArqCore
  import opened ArqSampling
  import opened ArqSeqWrap
  import opened ArqPhases
  import ArqLink
  import LogCounts

  /** There are no retries, or more places in the table than SEQs or windows. */
  ghost predicate Ample(cfg: Config, env: Env)
    requires cfg.window.Valid()
  {
    cfg.maxRetries == 0 || cfg.maxInflight > 256 || forall n: nat :: CanBuild(cfg, env, n) ==> n < cfg.maxInflight
  }

  /** A window that can occur in this environment. */
  ghost predicate Made(cfg: Config, env: Env, record: seq<real>) {
    exists rows: seq<Row> :: |rows| == cfg.window.W && FromSampler(env, rows) && record == Flatten(rows)
  }

  /** Sent one after the other without a break, none of these windows expires before the gate opens again after
      the last of them. */
  ghost predicate Lingers(cfg: Config, records: seq<seq<real>>) {
    forall i :: 0 <= i < |records| ==>
      cfg.ackTimeoutMs(FrameLength(cfg, records[i])) > Busy(cfg, records, i, |records|)
  }

  /** Every frame that can occur keeps the channel for at least a millisecond, and no windows that can occur linger
      until they take all places of the table but one. */
  ghost predicate Quick(cfg: Config, env: Env) {
    && (forall record: seq<real> :: Made(cfg, env, record) ==> cfg.Spacing(FrameLength(cfg, record)) >= 1)
    && (forall records: seq<seq<real>> ::
          |records| == cfg.maxInflight - 1 && (forall i :: 0 <= i < |records| ==> Made(cfg, env, records[i])) ==>
            !Lingers(cfg, records))
  }

  ghost predicate Roomy(cfg: Config, env: Env)
    requires cfg.window.Valid()
  {
    Ample(cfg, env) || Quick(cfg, env)
  }

  // ---------------------------------------------------------------------
  // Entries that are apart from each other
  // ---------------------------------------------------------------------

  /** How long the gate stays closed after the transmission of an entry. */
  function Holds(cfg: Config, e: Inflight): int {
    (e.toaMs + cfg.guardMs as real).Floor
  }

  ghost predicate Apart(cfg: Config, m: map<byte, Inflight>) {
    forall k, l :: k in m && l in m && k != l ==>
      m[k].lastTxMs + Holds(cfg, m[k]) <= m[l].lastTxMs || m[l].lastTxMs + Holds(cfg, m[l]) <= m[k].lastTxMs
  }

  /** The entry is that of this payload, and the channel was free again at `now`. */
  predicate EntryOf(cfg: Config, e: Inflight, payload: bytes, now: int) {
    var n := 2 + |payload|;
    e.toaMs == cfg.toaMs(n) && e.ackTimeoutMs == cfg.ackTimeoutMs(n) && e.lastTxMs + Holds(cfg, e) <= now
  }

  lemma {:induction false} Latest(m: map<byte, Inflight>) returns (k: byte)
    requires m != map[]
    ensures k in m && forall l <- m :: m[l].lastTxMs <= m[k].lastTxMs
    decreases |m|
  {
    k :| k in m;
    var rest := m - {k};
    if rest != map[] {
      RemoveSize(m, k);
      var l := Latest(rest);
      if m[l].lastTxMs > m[k].lastTxMs {
        k := l;
      }
      forall x <- m ensures m[x].lastTxMs <= m[k].lastTxMs {
        assert x in rest || x !in rest;
      }
    } else {
      forall x <- m ensures x == k {
        assert x !in rest;
      }
    }
  }

  /** The table has room, its entries are apart, and the gate has opened after each of them. */
  ghost predicate Sparse(cfg: Config, s: Sys) {
    && |s.gate.inflight| < cfg.maxInflight
    && s.payloads.Keys == s.gate.inflight.Keys
    && Apart(cfg, s.gate.inflight)
    && (forall k <- s.gate.inflight ::
          s.gate.lastTxMs.Some?
          && EntryOf(cfg, s.gate.inflight[k], s.payloads[k].payload, PaceDeadline(cfg, s.gate)))
  }

  lemma SparseSub(cfg: Config, s: Sys, t: Sys)
    requires Sparse(cfg, s) && Shrinks(s, t) && t.payloads.Keys == t.gate.inflight.Keys
    ensures Sparse(cfg, t)
  {
    hide PaceDeadline, EntryOf, Holds;
    SubTable(s.gate.inflight, t.gate.inflight);
    if s.gate.lastTxMs.Some? {
      SameDeadline(cfg, s.gate, t.gate);
    }
  }

  lemma ApartAdds(cfg: Config, table: map<byte, Inflight>, sn: byte, e: Inflight)
    requires Apart(cfg, table)
    requires forall k <- table :: k != sn ==> table[k].lastTxMs + Holds(cfg, table[k]) <= e.lastTxMs
    ensures Apart(cfg, table[sn := e])
  {
    hide Holds;
  }

  /** All entries are those of the payloads held, and the channel was free again after each of them. */
  ghost predicate Entries(cfg: Config, s: Sys, free: int) {
    && s.payloads.Keys == s.gate.inflight.Keys
    && forall k <- s.gate.inflight :: EntryOf(cfg, s.gate.inflight[k], s.payloads[k].payload, free)
  }

  lemma EntriesLater(cfg: Config, s: Sys, free: int, later: int)
    requires Entries(cfg, s, free) && free <= later
    ensures Entries(cfg, s, later)
    ensures forall k <- s.gate.inflight :: s.gate.inflight[k].lastTxMs + Holds(cfg, s.gate.inflight[k]) <= later
  {
    hide Holds;
  }

  /** One entry more, or another one in its place. */
  lemma EntriesAdd(cfg: Config, s: Sys, t: Sys, sn: byte, e: Inflight, w: PendingWindow, free: int)
    requires Entries(cfg, s, free) && EntryOf(cfg, e, w.payload, free)
    requires t.gate.inflight == s.gate.inflight[sn := e] && t.payloads == s.payloads[sn := w]
    ensures Entries(cfg, t, free)
  {
    hide EntryOf;
    assert t.payloads.Keys == s.payloads.Keys + {sn};
    assert t.gate.inflight.Keys == s.gate.inflight.Keys + {sn};
  }

  lemma SparseEntries(cfg: Config, s: Sys)
    requires Sparse(cfg, s)
    ensures s.gate.inflight == map[] || (s.gate.lastTxMs.Some? && Entries(cfg, s, PaceDeadline(cfg, s.gate)))
    ensures s.payloads.Keys == s.gate.inflight.Keys && Apart(cfg, s.gate.inflight)
    ensures |s.gate.inflight| < cfg.maxInflight
  {
    hide EntryOf, PaceDeadline, Apart;
  }

  lemma EntriesSparse(cfg: Config, s: Sys)
    requires s.gate.lastTxMs.Some? && Entries(cfg, s, PaceDeadline(cfg, s.gate))
    requires Apart(cfg, s.gate.inflight) && |s.gate.inflight| < cfg.maxInflight
    ensures Sparse(cfg, s)
  {
    hide EntryOf, PaceDeadline, Apart;
  }

  lemma NewEntry(cfg: Config, g: Gate, now: int, sn: byte, n: nat)
    requires cfg.Spacing(n) >= 0
    ensures var h := RecordSend(g, now, sn, cfg.toaMs(n), cfg.ackTimeoutMs(n));
            && h.lastTxMs == Some(now) && PaceDeadline(cfg, h) == now + cfg.Spacing(n)
            && sn in h.inflight && h.inflight == g.inflight[sn := h.inflight[sn]] && h.inflight[sn].lastTxMs == now
            && h.inflight[sn].toaMs == cfg.toaMs(n) && h.inflight[sn].ackTimeoutMs == cfg.ackTimeoutMs(n)
            && Holds(cfg, h.inflight[sn]) == cfg.Spacing(n)
  {
    DeadlineAfter(cfg, RecordSend(g, now, sn, cfg.toaMs(n), cfg.ackTimeoutMs(n)), n);
  }

  /** Transmitting a window keeps the table sparse as long as there is room. */
  lemma SparseTransmitted(cfg: Config, s: Sys, t: Sys, sn: byte, w: PendingWindow)
    requires Sparse(cfg, s) && (s.gate.lastTxMs.Some? ==> s.now >= PaceDeadline(cfg, s.gate))
    requires sn in s.gate.inflight || |s.gate.inflight| + 1 < cfg.maxInflight
    requires var n := 2 + |w.payload|;
             && t.gate == RecordSend(s.gate, s.now, sn, cfg.toaMs(n), cfg.ackTimeoutMs(n))
             && t.payloads == s.payloads[sn := w] && cfg.Spacing(n) >= 0
    ensures Sparse(cfg, t)
  {
    hide PaceDeadline, Apart, Config.Spacing, Sparse, Entries, Holds, RecordSend;
    var n := 2 + |w.payload|;
    NewEntry(cfg, s.gate, s.now, sn, n);
    var e := t.gate.inflight[sn];
    UpdateSize(s.gate.inflight, sn, e);
    SparseEntries(cfg, s);
    if s.gate.inflight == map[] {
      NoEntries(cfg, s, s.now);
    } else {
      EntriesLater(cfg, s, PaceDeadline(cfg, s.gate), s.now);
    }
    EntriesLater(cfg, s, s.now, PaceDeadline(cfg, t.gate));
    EntriesLater(cfg, s, s.now, s.now);
    ApartAdds(cfg, s.gate.inflight, sn, e);
    EntriesAdd(cfg, s, t, sn, e, w, PaceDeadline(cfg, t.gate));
    EntriesSparse(cfg, t);
  }

  lemma NoEntries(cfg: Config, s: Sys, free: int)
    requires s.gate.inflight == map[] && s.payloads.Keys == s.gate.inflight.Keys
    ensures Entries(cfg, s, free)
  {
  }

  lemma StillFree(cfg: Config, e: Inflight, payload: bytes, now: int, later: int)
    requires EntryOf(cfg, e, payload, now) && now <= later
    ensures e.lastTxMs + Holds(cfg, e) <= later && EntryOf(cfg, e, payload, later)
  {
  }

  lemma HoldsSpacing(cfg: Config, e: Inflight, n: nat)
    requires e.toaMs == cfg.toaMs(n)
    ensures Holds(cfg, e) == cfg.Spacing(n)
  {
  }

  // ---------------------------------------------------------------------
  // The retry loop sends at most once
  // ---------------------------------------------------------------------

  lemma {:induction false} RetryAllShut(cfg: Config, env: Env, s: Sys, sns: seq<byte>)
    requires !CanSend(cfg, s.gate, s.now)
    ensures RetryAll(cfg, env, s, sns) == s
    decreases |sns|
  {
    hide CanSend, Transmit;
    if sns != [] {
      RetryAllShut(cfg, env, s, sns[1..]);
    }
  }

  /** Everything the node holds keeps the channel for at least a millisecond. */
  lemma HeldSpacing(cfg: Config, env: Env, s: Sys)
    requires cfg.window.Valid() && Quick(cfg, env)
    requires DataInv(cfg, s) && SampleInv(cfg, s) && FromSampler(env, s.fed)
    ensures forall k <- s.payloads :: cfg.Spacing(2 + |s.payloads[k].payload|) >= 1
    ensures s.pending != [] ==> cfg.Spacing(2 + |s.pending[0].payload|) >= 1
  {
    hide SampleInv, FromSampler, Made, Lingers, Config.Spacing;
    forall k <- s.payloads ensures cfg.Spacing(2 + |s.payloads[k].payload|) >= 1 {
      assert HeldInv(cfg, s, k, s.payloads[k]);
      RecordIsMade(cfg, env, s, s.payloads[k].id);
    }
    if s.pending != [] {
      assert Encodes(cfg, s.dataset, s.pending[0].id, s.pending[0].payload);
      RecordIsMade(cfg, env, s, s.pending[0].id);
    }
  }

  lemma RecordIsMade(cfg: Config, env: Env, s: Sys, id: nat)
    requires cfg.window.Valid() && SampleInv(cfg, s) && FromSampler(env, s.fed) && id < |s.dataset|
    ensures Made(cfg, env, s.dataset[id])
  {
    hide SampleInv, FromSampler, Flatten;
    var rows := RecordRows(cfg, env, s, id);
  }

  lemma SparseRetried(cfg: Config, env: Env, s: Sys, sn: byte)
    requires Sparse(cfg, s) && CanSend(cfg, s.gate, s.now) && sn in s.payloads && sn in s.gate.inflight
    requires cfg.Spacing(2 + |s.payloads[sn].payload|) >= 1
    ensures var t := Retry(cfg, env, s, sn); Sparse(cfg, t) && !CanSend(cfg, t.gate, t.now)
  {
    hide Sparse, RecordSend, SendFromA, Attempt, DataFrame, PaceDeadline, Config.Spacing;
    var n := 2 + |s.payloads[sn].payload|;
    var t := Retry(cfg, env, s, sn);
    SparseTransmitted(cfg, s, t, sn, s.payloads[sn]);
    ShutAfter(cfg, n, s.gate, s.now, sn);
  }

  lemma ShutAfter(cfg: Config, n: nat, g: Gate, now: int, sn: byte)
    requires cfg.Spacing(n) >= 1
    ensures !CanSend(cfg, RecordSend(g, now, sn, cfg.toaMs(n), cfg.ackTimeoutMs(n)), now)
  {
    hide PaceDeadline;
    DeadlineAfter(cfg, RecordSend(g, now, sn, cfg.toaMs(n), cfg.ackTimeoutMs(n)), n);
  }

  /** If the gate is open after the retry loop, there was nothing to retry. */
  lemma RetryPhase(cfg: Config, env: Env, s: Sys)
    requires cfg.window.Valid() && Quick(cfg, env) && Sparse(cfg, s) && OrderInv(s.gate)
    requires TableInv(cfg, s) && DataInv(cfg, s) && SampleInv(cfg, s) && FromSampler(env, s.fed)
    ensures var r := RetryAll(cfg, env, s, ExpiredSequences(cfg, s.gate, s.now, s.gate.order));
            && Sparse(cfg, r)
            && (CanSend(cfg, r.gate, r.now) ==>
                  r == s && forall sn: byte :: !RetryDue(cfg, s.gate, s.now, sn))
  {
    hide Quick, Sparse, CanSend, EntryInv, DataInv, SampleInv, FromSampler, Transmit, ExpiredSequences, Expired;
    var due := ExpiredSequences(cfg, s.gate, s.now, s.gate.order);
    ExpiredSequencesDue(cfg, s.gate, s.now, s.gate.order);
    if !CanSend(cfg, s.gate, s.now) {
      RetryAllShut(cfg, env, s, due);
    } else if due == [] {
      forall sn: byte ensures !RetryDue(cfg, s.gate, s.now, sn) {
        assert sn !in due;
      }
    } else {
      assert due[0] in due && RetryDue(cfg, s.gate, s.now, due[0]);
      HeldSpacing(cfg, env, s);
      SparseRetried(cfg, env, s, due[0]);
      RetryAllShut(cfg, env, Retry(cfg, env, s, due[0]), due[1..]);
    }
  }

  // ---------------------------------------------------------------------
  // Sending leaves room
  // ---------------------------------------------------------------------

  /** The windows of some entries, in the order in which these were last transmitted at `lasts`: all are still
      waited for at `now`, and they kept the channel one after the other until `until`. */
  ghost predicate InOrder(cfg: Config, records: seq<seq<real>>, lasts: seq<int>, until: int, now: int) {
    && |lasts| == |records|
    && (forall i :: 0 <= i < |records| ==>
          && now - lasts[i] < cfg.ackTimeoutMs(FrameLength(cfg, records[i]))
          && lasts[i] + Busy(cfg, records, i, |records|) <= until)
  }

  lemma InOrderSnoc(
    cfg: Config, records: seq<seq<real>>, lasts: seq<int>, until: int, now: int, record: seq<real>, last: int, end: int)
    requires InOrder(cfg, records, lasts, until, now) && until <= last
    requires now - last < cfg.ackTimeoutMs(FrameLength(cfg, record))
    requires last + cfg.Spacing(FrameLength(cfg, record)) <= end
    ensures InOrder(cfg, records + [record], lasts + [last], end, now)
  {
    hide FrameLength, Config.Spacing, Busy;
    var all, times := records + [record], lasts + [last];
    forall i | 0 <= i < |all|
      ensures now - times[i] < cfg.ackTimeoutMs(FrameLength(cfg, all[i]))
      ensures times[i] + Busy(cfg, all, i, |all|) <= end
    {
      BusySnoc(cfg, records, record, i);
      BusyNone(cfg, records);
      assert i < |records| ==> all[i] == records[i] && times[i] == lasts[i];
    }
  }

  lemma BusyNone(cfg: Config, records: seq<seq<real>>)
    ensures Busy(cfg, records, |records|, |records|) == 0
  {
  }

  lemma BusySnoc(cfg: Config, records: seq<seq<real>>, record: seq<real>, i: nat)
    requires i <= |records|
    ensures var all := records + [record];
            Busy(cfg, all, i, |all|) == Busy(cfg, records, i, |records|) + cfg.Spacing(FrameLength(cfg, record))
  {
    hide FrameLength, Config.Spacing, Busy;
    var all := records + [record];
    BusySame(cfg, all, records, 0, i, |records|);
    BusyNext(cfg, all, i, |all|);
  }

  /** Part of the table, all of it unexpired, with payloads that can occur. */
  ghost predicate Waiting(cfg: Config, env: Env, s: Sys, m: map<byte, Inflight>, until: int) {
    && Apart(cfg, m)
    && (forall k <- m ::
          && k in s.payloads && !Expired(m[k], s.now) && EntryOf(cfg, m[k], s.payloads[k].payload, until)
          && cfg.Spacing(2 + |s.payloads[k].payload|) >= 1
          && s.payloads[k].id < |s.dataset| && s.payloads[k].payload == cfg.encode(s.dataset[s.payloads[k].id])
          && Made(cfg, env, s.dataset[s.payloads[k].id]))
  }

  lemma WaitingRest(cfg: Config, env: Env, s: Sys, m: map<byte, Inflight>, until: int, k: byte)
    requires Waiting(cfg, env, s, m, until) && k in m && forall l <- m :: m[l].lastTxMs <= m[k].lastTxMs
    ensures Waiting(cfg, env, s, m - {k}, m[k].lastTxMs)
  {
    hide Made, Expired;
    var rest := m - {k};
    forall l <- rest ensures EntryOf(cfg, rest[l], s.payloads[l].payload, m[k].lastTxMs) {
      assert m[l] == rest[l] && l != k;
      HoldsSpacing(cfg, m[k], 2 + |s.payloads[k].payload|);
    }
  }

  /** Such entries, one for each. */
  lemma {:induction false} Ordered(cfg: Config, env: Env, s: Sys, m: map<byte, Inflight>, until: int)
    returns (records: seq<seq<real>>, lasts: seq<int>)
    requires Waiting(cfg, env, s, m, until)
    ensures |records| == |m| && InOrder(cfg, records, lasts, until, s.now)
    ensures forall i :: 0 <= i < |records| ==> Made(cfg, env, records[i])
    decreases |m|
  {
    hide Waiting, InOrder, Made;
    if m == map[] {
      records, lasts := [], [];
      NoneInOrder(cfg, until, s.now);
    } else {
      var k := Latest(m);
      RemoveSize(m, k);
      WaitingRest(cfg, env, s, m, until, k);
      var before, times := Ordered(cfg, env, s, m - {k}, m[k].lastTxMs);
      EntryParts(cfg, env, s, m, until, k);
      var record := s.dataset[s.payloads[k].id];
      InOrderSnoc(cfg, before, times, m[k].lastTxMs, s.now, record, m[k].lastTxMs, until);
      records, lasts := before + [record], times + [m[k].lastTxMs];
    }
  }

  lemma NoneInOrder(cfg: Config, until: int, now: int)
    ensures InOrder(cfg, [], [], until, now)
  {
  }

  lemma EntryParts(cfg: Config, env: Env, s: Sys, m: map<byte, Inflight>, until: int, k: byte)
    requires Waiting(cfg, env, s, m, until) && k in m
    ensures k in s.payloads && s.payloads[k].id < |s.dataset|
    ensures var record := s.dataset[s.payloads[k].id];
            && Made(cfg, env, record) && s.now - m[k].lastTxMs < cfg.ackTimeoutMs(FrameLength(cfg, record))
            && m[k].lastTxMs + cfg.Spacing(FrameLength(cfg, record)) <= until
  {
    hide Made;
  }

  lemma AllWait(cfg: Config, env: Env, s: Sys)
    requires cfg.window.Valid() && Quick(cfg, env) && Sparse(cfg, s) && CanSend(cfg, s.gate, s.now)
    requires DataInv(cfg, s) && SampleInv(cfg, s) && FromSampler(env, s.fed)
    requires forall k <- s.gate.inflight :: !Expired(s.gate.inflight[k], s.now)
    ensures Waiting(cfg, env, s, s.gate.inflight, s.now)
  {
    hide Quick, SampleInv, DataInv, FromSampler, Made, Expired, PaceDeadline, Apart, Config.Spacing, EntryOf;
    HeldSpacing(cfg, env, s);
    forall k <- s.gate.inflight
      ensures s.payloads[k].id < |s.dataset| && s.payloads[k].payload == cfg.encode(s.dataset[s.payloads[k].id])
      ensures Made(cfg, env, s.dataset[s.payloads[k].id])
      ensures EntryOf(cfg, s.gate.inflight[k], s.payloads[k].payload, s.now)
    {
      HeldRecord(cfg, s, k);
      RecordIsMade(cfg, env, s, s.payloads[k].id);
      StillFree(cfg, s.gate.inflight[k], s.payloads[k].payload, PaceDeadline(cfg, s.gate), s.now);
    }
  }

  lemma HeldRecord(cfg: Config, s: Sys, k: byte)
    requires DataInv(cfg, s) && k in s.payloads
    ensures s.payloads[k].id < |s.dataset| && s.payloads[k].payload == cfg.encode(s.dataset[s.payloads[k].id])
  {
    assert HeldInv(cfg, s, k, s.payloads[k]);
  }

  lemma OrderLingers(cfg: Config, records: seq<seq<real>>, lasts: seq<int>, now: int)
    requires InOrder(cfg, records, lasts, now, now)
    ensures Lingers(cfg, records)
  {
    hide Busy, FrameLength;
  }

  /** When the gate is open and nothing has expired, at least two places are free. */
  lemma TwoFree(cfg: Config, env: Env, s: Sys)
    requires cfg.window.Valid() && Quick(cfg, env) && Sparse(cfg, s) && CanSend(cfg, s.gate, s.now)
    requires DataInv(cfg, s) && SampleInv(cfg, s) && FromSampler(env, s.fed)
    requires forall k <- s.gate.inflight :: !Expired(s.gate.inflight[k], s.now)
    ensures |s.gate.inflight| + 1 < cfg.maxInflight
  {
    hide Sparse, SampleInv, DataInv, FromSampler, Made, Expired, CanSend, Lingers, Waiting, InOrder, Config.Spacing;
    AllWait(cfg, env, s);
    var records, lasts := Ordered(cfg, env, s, s.gate.inflight, s.now);
    OrderLingers(cfg, records, lasts, s.now);
    assert |records| != cfg.maxInflight - 1;
    assert |s.gate.inflight| < cfg.maxInflight by { SparseHasRoom(cfg, s); }
  }

  lemma SparseHasRoom(cfg: Config, s: Sys)
    requires Sparse(cfg, s)
    ensures |s.gate.inflight| < cfg.maxInflight
  {
    hide Apart, EntryOf;
  }

  lemma NothingExpired(cfg: Config, s: Sys, c: Sys)
    requires (forall sn: byte :: !RetryDue(cfg, s.gate, s.now, sn)) && Shrinks(s, c) && Purged(cfg, c)
    ensures forall k <- c.gate.inflight :: !Expired(c.gate.inflight[k], c.now)
  {
    forall k <- c.gate.inflight ensures !Expired(c.gate.inflight[k], c.now) {
      assert !RetryDue(cfg, s.gate, s.now, k) && !FailureDue(cfg, c.gate, c.now, k);
    }
  }

  lemma SparseSent(cfg: Config, env: Env, s: Sys)
    requires Sparse(cfg, s) && CanSend(cfg, s.gate, s.now) && s.pending != []
    requires cfg.Spacing(2 + |s.pending[0].payload|) >= 1 && |s.gate.inflight| + 1 < cfg.maxInflight
    ensures Sparse(cfg, SendNext(cfg, env, s))
  {
    hide Sparse, RecordSend, SendFromA, Attempt, DataFrame, PaceDeadline, Config.Spacing;
    SparseTransmitted(cfg, s, SendNext(cfg, env, s), s.seqNo, s.pending[0]);
  }

  lemma OpenStill(cfg: Config, r: Sys, c: Sys)
    requires Sparse(cfg, r) && Shrinks(r, c) && CanSend(cfg, c.gate, c.now)
    ensures CanSend(cfg, r.gate, r.now)
  {
    hide Apart, EntryOf, PaceDeadline;
    if r.gate.lastTxMs.Some? {
      SameDeadline(cfg, r.gate, c.gate);
    }
  }

  /** Incoming frames keep room. */
  lemma SparseIncoming(cfg: Config, env: Env, s: Sys)
    requires cfg.Valid() && Reachable(cfg, env, s) && Sparse(cfg, s)
    ensures Sparse(cfg, HandleIncoming(cfg, s))
  {
    hide Reachable, Sparse, HandleIncoming, Shrinks, TableInv, DataInv, SampleInv, FromSampler, OrderInv;
    HandleIncomingShrinks(cfg, s);
    HandleIncomingReachable(cfg, env, s);
    PayloadKeys(cfg, env, HandleIncoming(cfg, s));
    SparseSub(cfg, s, HandleIncoming(cfg, s));
  }

  lemma PayloadKeys(cfg: Config, env: Env, s: Sys)
    requires cfg.Valid() && Reachable(cfg, env, s)
    ensures s.payloads.Keys == s.gate.inflight.Keys && TableInv(cfg, s)
  {
    hide Reachable, DataInv, SampleInv, FromSampler, OrderInv;
    StateParts(cfg, env, s);
  }

  lemma SparseSame(cfg: Config, s: Sys, t: Sys)
    requires Sparse(cfg, s) && t.gate == s.gate && t.payloads == s.payloads
    ensures Sparse(cfg, t)
  {
    hide Apart, EntryOf, PaceDeadline;
  }

  /** A call of process_once keeps room. */
  lemma SparseKept(cfg: Config, env: Env, s: Sys)
    requires cfg.Valid() && Quick(cfg, env) && Reachable(cfg, env, s) && Sparse(cfg, s)
    ensures Sparse(cfg, TxProcessOnce(cfg, env, s))
  {
    hide Reachable, Quick, Sparse, QueueWindow, HandleIncoming, RetryAll, FailAll, ExpiredSequences, ExpiredFailures;
    hide SendNext, CanSend, Shrinks, TableInv, DataInv, SampleInv, FromSampler, OrderInv, Purged, Expired;
    hide WantsSample;
    var a := QueueWindow(cfg, env, s);
    StepReachable(cfg, env, s, Sampling);
    QueueWindowKeeps(cfg, env, s);
    SparseSame(cfg, s, a);
    HandleIncomingReachable(cfg, env, a);
    SparseIncoming(cfg, env, a);
    var b := HandleIncoming(cfg, a);
    StateParts(cfg, env, b);
    RetryPhase(cfg, env, b);
    var r := RetryAll(cfg, env, b, ExpiredSequences(cfg, b.gate, b.now, b.gate.order));
    RetryExpiredReachable(cfg, env, b);
    var c := RetryExpired(cfg, env, b);
    FailAllShrinks(r, ExpiredFailures(cfg, r.gate, r.now, r.gate.order));
    PayloadKeys(cfg, env, c);
    SparseSub(cfg, r, c);
    if c.pending != [] && CanSend(cfg, c.gate, c.now) {
      OpenStill(cfg, r, c);
      NothingExpired(cfg, b, c);
      StateParts(cfg, env, c);
      TwoFree(cfg, env, c);
      HeldSpacing(cfg, env, c);
      SparseSent(cfg, env, c);
    }
  }

  lemma StateParts(cfg: Config, env: Env, s: Sys)
    requires cfg.Valid() && Reachable(cfg, env, s)
    ensures TableInv(cfg, s) && DataInv(cfg, s) && OrderInv(s.gate)
    ensures SampleInv(cfg, s) && FromSampler(env, s.fed)
  {
    hide Reachable, TableInv, DataInv, SampleInv, FateInv, CountInv, ArqLink.OriginInv, ArqLink.FrameInv, FromSampler;
    CoreInvariant(cfg, env, s);
    FedGiven(cfg, env, s);
    OrderInvariant(cfg, env, s);
  }

  // ---------------------------------------------------------------------
  // Room along a run
  // ---------------------------------------------------------------------

  /** From here on there will always be room for a retry. */
  ghost predicate StaysRoomy(cfg: Config, env: Env, s: Sys)
    requires cfg.window.Valid()
  {
    Ample(cfg, env) || (Quick(cfg, env) && Sparse(cfg, s))
  }

  lemma StartsRoomy(cfg: Config, env: Env, start: nat)
    requires cfg.Valid() && Roomy(cfg, env)
    ensures StaysRoomy(cfg, env, Init(start))
  {
    hide Ample, Quick;
  }

  lemma RoomKept(cfg: Config, env: Env, s: Sys)
    requires cfg.Valid() && Reachable(cfg, env, s) && StaysRoomy(cfg, env, s)
    ensures StaysRoomy(cfg, env, HandleIncoming(cfg, s)) && StaysRoomy(cfg, env, TxProcessOnce(cfg, env, s))
  {
    hide Reachable, Ample, Quick, Sparse, HandleIncoming, TxProcessOnce;
    if !Ample(cfg, env) {
      SparseIncoming(cfg, env, s);
      SparseKept(cfg, env, s);
    }
  }

  lemma RoomSame(cfg: Config, env: Env, s: Sys, t: Sys)
    requires cfg.window.Valid() && StaysRoomy(cfg, env, s) && t.gate == s.gate && t.payloads == s.payloads
    ensures StaysRoomy(cfg, env, t)
  {
    hide Ample, Quick, Apart, EntryOf, PaceDeadline;
  }

  lemma {:induction false} BytesBelow(keys: set<byte>, n: nat)
    requires forall k <- keys :: k < n
    ensures |keys| <= n
    decreases n
  {
    if n > 0 {
      if n - 1 < 256 {
        var k: byte := n - 1;
        BytesBelow(keys - {k}, n - 1);
      } else {
        BytesBelow(keys, n - 1);
      }
    }
  }

  /** A table that cannot be full. */
  lemma HasRoom(cfg: Config, env: Env, s: Sys)
    requires cfg.Valid() && StaysRoomy(cfg, env, s) && Reachable(cfg, env, s)
    ensures cfg.maxRetries == 0 || |s.gate.inflight| < cfg.maxInflight
  {
    hide Reachable, CanBuild, TableInv, DataInv, SampleInv, FateInv, ArqLink.OriginInv, ArqLink.FrameInv;
    hide LogCounts.Num, LogCounts.ToaSum, Quick, Apart, EntryOf;
    CoreInvariant(cfg, env, s);
    BuiltFromRows(cfg, env, s);
    BytesBelow(s.gate.inflight.Keys, 256);
    assert |s.gate.inflight| == |s.gate.inflight.Keys|;
  }
}
