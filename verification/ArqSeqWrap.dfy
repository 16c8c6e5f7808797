/** The 8-bit SEQ wraps. When can it be reused while its previous window is still in flight? */
module ArqSeqWrap {
  import opened Basics
  import opened Windows
  import opened ArqModel
  import opened LogCounts
  import opened ArqInvariants
  import opened ArqLink
  import opened ArqCore
  import opened ArqSampling
  import Arith

  // ---------------------------------------------------------------------
  // Bounds on the number of windows or on the table
  // ---------------------------------------------------------------------

  /** Some window at least 256 later went out under the SEQ of window w, logged as a repetition because the
      table entry of w was still there. */
  ghost predicate TakenOver(log: seq<Event>, w: nat) {
    exists j :: 0 <= j < |log| && Takes(log[j], w)
  }

  predicate Takes(e: Event, w: nat) {
    e.TxSent? && e.id >= w + 256 && e.sn == SeqOf(w) && e.id % 256 == w % 256 && e.attempt >= 2
  }

  /** A window is only ever lost to a window sent at least 256 later under the same SEQ, and only with a table
      of two or more entries. */
  ghost predicate LostInv(cfg: Config, s: Sys) {
    && (forall w <- s.lost :: w + 256 < s.sent && TakenOver(s.log, w))
    && (cfg.maxInflight == 1 ==> s.lost == {})
  }

  lemma TakenOverGrows(log: seq<Event>, more: seq<Event>)
    ensures forall w: nat :: TakenOver(log, w) ==> TakenOver(log + more, w)
  {
    forall w: nat | TakenOver(log, w) ensures TakenOver(log + more, w) {
      var j :| 0 <= j < |log| && Takes(log[j], w);
      assert (log + more)[j] == log[j];
    }
  }

  lemma LostSending(cfg: Config, env: Env, s: Sys)
    requires TableInv(cfg, s) && DataInv(cfg, s) && LostInv(cfg, s)
    requires s.pending != [] && CanSend(cfg, s.gate, s.now)
    ensures LostInv(cfg, SendNext(cfg, env, s))
  {
    hide RecordSend, SendFromA, SentInv, Encodes, PaceDeadline, TakenOver;
    var t := SendNext(cfg, env, s);
    var e := t.log[|s.log|];
    TakenOverGrows(s.log, [e]);
    if s.seqNo in s.payloads {
      SameSeqIsOld(cfg, s, s.seqNo);
      HasEntry(s.gate.inflight, s.seqNo);
      assert EntryInv(s.gate.inflight[s.seqNo], s.seqNo, s.now);
      assert HeldInv(cfg, s, s.seqNo, s.payloads[s.seqNo]);
      NextId(cfg, s);
      TakesOver(t.log, |s.log|, s.payloads[s.seqNo].id);
    }
  }

  lemma TakesOver(log: seq<Event>, j: nat, w: nat)
    requires j < |log| && Takes(log[j], w)
    ensures TakenOver(log, w)
  {
  }

  /** A window that holds the next SEQ was sent at least 256 windows ago. */
  lemma SameSeqIsOld(cfg: Config, s: Sys, k: byte)
    requires DataInv(cfg, s) && k in s.payloads && k == s.seqNo
    ensures s.sent - s.payloads[k].id >= 256
  {
    hide Encodes, SentInv;
    assert HeldInv(cfg, s, k, s.payloads[k]);
    Arith.SameResidue(s.payloads[k].id, s.sent, 256);
  }

  lemma LostQuiet(cfg: Config, s: Sys, t: Sys)
    requires LostInv(cfg, s) && t.lost == s.lost && t.sent == s.sent && |t.log| >= |s.log| && t.log[..|s.log|] == s.log
    ensures LostInv(cfg, t)
  {
    hide TakenOver;
    TakenOverGrows(s.log, t.log[|s.log|..]);
    assert s.log + t.log[|s.log|..] == t.log;
  }

  lemma LostInvStep(cfg: Config, env: Env, s: Sys, step: Step)
    requires cfg.Valid() && TableInv(cfg, s) && DataInv(cfg, s) && LostInv(cfg, s) && Enabled(cfg, s, step)
    ensures LostInv(cfg, Apply(cfg, env, s, step))
  {
    hide TableInv, DataInv, LostInv, ParseReply, ParseData, RecordSend, SendFromA, SendFromB, Feed, CanSend, SendNext,
      Without, Attempt;
    match step {
      case Sending => LostSending(cfg, env, s);
      case _ => LostQuiet(cfg, s, Apply(cfg, env, s, step));
    }
  }

  lemma {:induction false} LostInvAlong(cfg: Config, env: Env, s: Sys, steps: seq<Step>, t: Sys)
    requires cfg.Valid() && CoreInv(cfg, env, s) && LostInv(cfg, s) && Leads(cfg, env, s, steps, t)
    ensures LostInv(cfg, t)
    decreases |steps|
  {
    hide Apply, Enabled, LostInv, TableInv, DataInv, SampleInv, FateInv, CountInv, OriginInv, FrameInv;
    if steps != [] {
      CoreInvStep(cfg, env, s, steps[0]);
      LostInvStep(cfg, env, s, steps[0]);
      LostInvAlong(cfg, env, Apply(cfg, env, s, steps[0]), steps[1..], t);
    }
  }

  lemma LostInvariant(cfg: Config, env: Env, s: Sys)
    requires cfg.Valid() && Reachable(cfg, env, s)
    ensures LostInv(cfg, s)
  {
    hide Leads, CoreInv;
    var start: nat, steps :| Leads(cfg, env, Init(start), steps, s);
    CoreInvInit(cfg, env, start);
    LostInvAlong(cfg, env, Init(start), steps, s);
  }

  /** No SEQ is reused in flight while at most 256 windows have been sent, nor ever when the table
      holds one entry: no window is lost, and every window had a first attempt. */
  lemma NoReuseByCount(cfg: Config, env: Env, s: Sys)
    requires cfg.Valid() && Reachable(cfg, env, s)
    requires s.sent <= 256 || cfg.maxInflight == 1
    ensures s.lost == {}
    ensures Num(AnySent, s.log) - Num(Resent, s.log) == s.sent
  {
    hide Reachable, Num;
    LostInvariant(cfg, env, s);
    WindowConservation(cfg, env, s);
  }

  // ---------------------------------------------------------------------
  // A bound from timing, for runs of any length
  // ---------------------------------------------------------------------

  /** Every frame that can occur in this environment keeps the channel for at least m milliseconds, and expires
      within k such periods. */
  ghost predicate TimeoutsWithin(cfg: Config, env: Env, m: nat, k: int)
    requires cfg.window.Valid()
  {
    forall rows: seq<Row> ::
      |rows| == cfg.window.W && FromSampler(env, rows) ==> FrameWithin(cfg, m, k, 2 + |cfg.encode(Flatten(rows))|)
  }

  predicate FrameWithin(cfg: Config, m: nat, k: int, n: nat) {
    cfg.Spacing(n) >= m && cfg.ackTimeoutMs(n) <= k * m
  }

  lemma DeadlineAfter(cfg: Config, g: Gate, n: nat)
    requires g.lastTxMs.Some? && g.lastToaMs == cfg.toaMs(n)
    ensures PaceDeadline(cfg, g) == g.lastTxMs.value + cfg.Spacing(n)
  {
    assert g.lastTxMs.value as real + g.lastToaMs + cfg.guardMs as real
        == g.lastTxMs.value as real + (cfg.toaMs(n) + cfg.guardMs as real);
  }

  // ---------------------------------------------------------------------
  // How long records keep the channel
  // ---------------------------------------------------------------------

  function FrameLength(cfg: Config, record: seq<real>): nat {
    2 + |cfg.encode(record)|
  }

  /** How long records a to b - 1 keep the channel, one after the other. */
  function Busy(cfg: Config, records: seq<seq<real>>, a: nat, b: nat): int
    requires a <= b <= |records|
    decreases b
  {
    if a == b then 0 else Busy(cfg, records, a, b - 1) + cfg.Spacing(FrameLength(cfg, records[b - 1]))
  }

  lemma {:induction false} BusySame(
    cfg: Config, records: seq<seq<real>>, others: seq<seq<real>>, shift: nat, a: nat, b: nat)
    requires a <= b <= |others| && b + shift <= |records|
    requires forall i :: a <= i < b ==> records[i + shift] == others[i]
    ensures Busy(cfg, records, a + shift, b + shift) == Busy(cfg, others, a, b)
    decreases b
  {
    if a < b {
      BusySame(cfg, records, others, shift, a, b - 1);
      assert records[b - 1 + shift] == others[b - 1];
    }
  }

  lemma {:induction false} BusyGrows(cfg: Config, records: seq<seq<real>>, a: nat, b: nat, c: nat)
    requires cfg.Valid() && a <= b <= c <= |records|
    ensures Busy(cfg, records, a, b) <= Busy(cfg, records, a, c)
    decreases c
  {
    if b < c {
      BusyGrows(cfg, records, a, b, c - 1);
      SpacingNotNegative(cfg, records[c - 1]);
    }
  }

  lemma SpacingNotNegative(cfg: Config, record: seq<real>)
    requires cfg.Valid()
    ensures cfg.Spacing(FrameLength(cfg, record)) >= 0
  {
    assert |cfg.encode(record)| <= cfg.maxPayload;
  }

  lemma {:induction false} EqualBusy(cfg: Config, records: seq<seq<real>>, n: nat, a: nat, b: nat)
    requires a <= b <= |records| && forall i :: a <= i < b ==> FrameLength(cfg, records[i]) == n
    ensures Busy(cfg, records, a, b) == (b - a) * cfg.Spacing(n)
    decreases b
  {
    hide FrameLength, Config.Spacing;
    if a < b {
      EqualBusy(cfg, records, n, a, b - 1);
      assert (b - a) * cfg.Spacing(n) == (b - 1 - a) * cfg.Spacing(n) + cfg.Spacing(n);
    }
  }

  /** The frame of the first record expires by the time the channel is free again after 256 records, the first
      one included. */
  ghost predicate InTime(cfg: Config, records: seq<seq<real>>) {
    |records| >= 256 && cfg.ackTimeoutMs(FrameLength(cfg, records[0])) <= Busy(cfg, records, 0, 256)
  }

  /** The rows of n windows. */
  function RowsOf(w: WindowSpec, n: nat): int {
    w.W + (n - 1) * w.stride
  }

  /** This holds of any 256 consecutive windows that can occur in this environment. */
  ghost predicate ExpiresInTime(cfg: Config, env: Env)
    requires cfg.window.Valid()
  {
    forall rows: seq<Row> ::
      |rows| == RowsOf(cfg.window, 256) && FromSampler(env, rows) ==> InTime(cfg, Emitted(cfg.window, rows))
  }

  /** It is so if every frame keeps the channel for m milliseconds and expires within 256 such periods. */
  lemma PeriodsInTime(cfg: Config, env: Env, m: nat)
    requires cfg.window.Valid() && TimeoutsWithin(cfg, env, m, 256)
    ensures ExpiresInTime(cfg, env)
  {
    hide FromSampler, TimeoutsWithin, Emitted, Count, FrameLength, Config.Spacing;
    forall rows: seq<Row> | |rows| == RowsOf(cfg.window, 256) && FromSampler(env, rows)
      ensures InTime(cfg, Emitted(cfg.window, rows))
    {
      var records := Emitted(cfg.window, rows);
      RecordsOfRows(cfg.window, rows, 256);
      forall i | 0 <= i < 256 ensures FrameWithin(cfg, m, 256, FrameLength(cfg, records[i])) {
        RowsOfRecord(cfg, env, m, rows, i);
      }
      BusyAtLeast(cfg, records, m, 256);
    }
  }

  lemma RecordsOfRows(w: WindowSpec, rows: seq<Row>, n: nat)
    requires w.Valid() && n >= 1 && |rows| == RowsOf(w, n)
    ensures |Emitted(w, rows)| == n
  {
    hide Emitted, Count, IsWindowAt;
    WindowJoin(w, rows);
    RowsNeeded(w, |rows|, n);
    RowsNeeded(w, |rows|, n + 1);
  }

  lemma RowsOfRecord(cfg: Config, env: Env, m: nat, rows: seq<Row>, i: nat)
    requires cfg.window.Valid() && TimeoutsWithin(cfg, env, m, 256) && FromSampler(env, rows)
    requires i < |Emitted(cfg.window, rows)|
    ensures FrameWithin(cfg, m, 256, FrameLength(cfg, Emitted(cfg.window, rows)[i]))
  {
    hide Emitted, Count, Flatten, Gives, FrameWithin;
    WindowJoin(cfg.window, rows);
    var start := i * cfg.window.stride;
    assert IsWindowAt(cfg.window, rows, start, Emitted(cfg.window, rows)[i]);
    assert FromSampler(env, rows[start..start + cfg.window.W]);
  }

  lemma {:induction false} BusyAtLeast(cfg: Config, records: seq<seq<real>>, m: nat, b: nat)
    requires b <= |records| && forall i :: 0 <= i < b ==> cfg.Spacing(FrameLength(cfg, records[i])) >= m
    ensures Busy(cfg, records, 0, b) >= b * m
    decreases b
  {
    hide FrameLength, Config.Spacing;
    if b > 0 {
      BusyAtLeast(cfg, records, m, b - 1);
      assert b * m == (b - 1) * m + m;
    }
  }

  // ---------------------------------------------------------------------
  // The age of an entry
  // ---------------------------------------------------------------------

  /** How long ago entry k was sent, measured in windows sent since. */
  ghost predicate AgeInv(cfg: Config, s: Sys, k: byte)
    requires k in s.gate.inflight && k in s.payloads
  {
    var id := s.payloads[k].id;
    && id < s.sent <= |s.dataset| && s.gate.lastTxMs.Some?
    && s.gate.inflight[k].attempts == 1
    && s.gate.inflight[k].ackTimeoutMs == cfg.ackTimeoutMs(FrameLength(cfg, s.dataset[id]))
    && s.gate.lastTxMs.value - s.gate.inflight[k].lastTxMs >= Busy(cfg, s.dataset, id, s.sent - 1)
  }

  /** The last frame is that of the last window sent. */
  ghost predicate LastInv(cfg: Config, s: Sys) {
    s.gate.lastTxMs.Some? ==>
      && 1 <= s.sent <= |s.dataset|
      && PaceDeadline(cfg, s.gate)
         == s.gate.lastTxMs.value + cfg.Spacing(FrameLength(cfg, s.dataset[s.sent - 1]))
  }

  ghost predicate WrapInv(cfg: Config, s: Sys) {
    && s.lost == {}
    && s.payloads.Keys == s.gate.inflight.Keys
    && LastInv(cfg, s)
    && (forall k <- s.payloads :: AgeInv(cfg, s, k))
  }

  /** 256 consecutive records of a run come from rows of their own. */
  lemma RecordsInTime(cfg: Config, env: Env, s: Sys, id: nat)
    requires cfg.Valid() && ExpiresInTime(cfg, env) && SampleInv(cfg, s) && FromSampler(env, s.fed)
    requires id + 256 <= |s.dataset|
    ensures cfg.ackTimeoutMs(FrameLength(cfg, s.dataset[id])) <= Busy(cfg, s.dataset, id, id + 256)
  {
    hide Emitted, Gives, FrameLength, Config.Spacing, Flatten, RowsOf, Busy, InTime;
    var w, from := cfg.window, id * cfg.window.stride;
    RoomFor(w, s.fed, id);
    var rows := s.fed[from..from + RowsOf(w, 256)];
    RecordsOfRows(w, rows, 256);
    assert PartAt(s.fed, from, rows);
    var records := Emitted(w, rows);
    forall i | 0 <= i < 256 ensures s.dataset[i + id] == records[i] {
      SameRecord(w, s.fed, from, rows, id, i);
    }
    InTimeThere(cfg, s.dataset, records, id);
  }

  lemma InTimeThere(cfg: Config, records: seq<seq<real>>, others: seq<seq<real>>, id: nat)
    requires InTime(cfg, others) && id + 256 <= |records|
    requires forall i :: 0 <= i < 256 ==> records[i + id] == others[i]
    ensures cfg.ackTimeoutMs(FrameLength(cfg, records[id])) <= Busy(cfg, records, id, id + 256)
  {
    hide Busy, FrameLength;
    BusySame(cfg, records, others, id, 0, 256);
    assert records[0 + id] == others[0];
  }

  lemma RoomFor(w: WindowSpec, fed: seq<Row>, id: nat)
    requires w.Valid() && id + 256 <= |Emitted(w, fed)|
    ensures 0 <= id * w.stride && id * w.stride + RowsOf(w, 256) <= |fed| && RowsOf(w, 256) >= 1
  {
    hide Emitted, Flatten;
    RecordAt(w, fed, id + 255, (id + 255) * w.stride);
    Arith.Distribute(id, 255, w.stride);
    Arith.MulNonNegative(id, w.stride);
  }

  lemma RecordAt(w: WindowSpec, rows: seq<Row>, i: nat, at: int)
    requires w.Valid() && i < |Emitted(w, rows)| && at == i * w.stride
    ensures IsWindowAt(w, rows, at, Emitted(w, rows)[i])
  {
    hide Emitted, Count, IsWindowAt;
    WindowJoin(w, rows);
  }

  /** `rows` is the part of `fed` that begins at `from`. */
  ghost predicate PartAt(fed: seq<Row>, from: nat, rows: seq<Row>) {
    from + |rows| <= |fed| && forall i :: 0 <= i < |rows| ==> rows[i] == fed[from + i]
  }

  lemma SameRecord(w: WindowSpec, fed: seq<Row>, from: nat, rows: seq<Row>, id: nat, i: nat)
    requires w.Valid() && i < |Emitted(w, rows)| && id + i < |Emitted(w, fed)| && from == id * w.stride
    requires PartAt(fed, from, rows)
    ensures Emitted(w, fed)[i + id] == Emitted(w, rows)[i]
  {
    hide Emitted, IsWindowAt, PartAt;
    Arith.MulNonNegative(i, w.stride);
    Arith.Distribute(i, id, w.stride);
    RecordAt(w, rows, i, i * w.stride);
    RecordAt(w, fed, i + id, i * w.stride + from);
    SameWindow(w, fed, from, rows, i * w.stride, Emitted(w, fed)[i + id], Emitted(w, rows)[i]);
  }

  lemma SameWindow(w: WindowSpec, fed: seq<Row>, from: nat, rows: seq<Row>, at: nat, x: seq<real>, y: seq<real>)
    requires w.Valid() && PartAt(fed, from, rows)
    requires IsWindowAt(w, fed, at + from, x) && IsWindowAt(w, rows, at, y)
    ensures x == y
  {
    hide Flatten;
    assert rows[at..at + w.W] == fed[at + from..at + from + w.W];
  }

  /** When the gate opens for a window with the same SEQ, the entry is to be given up. */
  lemma OldEntryIsDue(cfg: Config, env: Env, s: Sys, k: byte)
    requires cfg.Valid() && cfg.maxRetries == 0 && ExpiresInTime(cfg, env) && DataInv(cfg, s) && WrapInv(cfg, s)
    requires SampleInv(cfg, s) && FromSampler(env, s.fed)
    requires k in s.payloads && k == s.seqNo && CanSend(cfg, s.gate, s.now)
    ensures FailureDue(cfg, s.gate, s.now, k)
  {
    hide DataInv, SampleInv, ExpiresInTime, FromSampler, Busy, FrameLength, Config.Spacing, PaceDeadline;
    SameSeqIsOld(cfg, s, k);
    assert AgeInv(cfg, s, k);
    var id := s.payloads[k].id;
    RecordsInTime(cfg, env, s, id);
    BusyGrows(cfg, s.dataset, id, id + 256, s.sent);
    BusyNext(cfg, s.dataset, id, s.sent);
  }

  lemma BusyNext(cfg: Config, records: seq<seq<real>>, a: nat, b: nat)
    requires a < b <= |records|
    ensures Busy(cfg, records, a, b)
         == Busy(cfg, records, a, b - 1) + cfg.Spacing(FrameLength(cfg, records[b - 1]))
    ensures Busy(cfg, records, a, a) == 0
  {
  }

  /** The SEQ the node is about to use is not in flight. */
  lemma NextSeqIsFree(cfg: Config, env: Env, s: Sys)
    requires cfg.Valid() && cfg.maxRetries == 0 && ExpiresInTime(cfg, env) && DataInv(cfg, s) && WrapInv(cfg, s)
    requires SampleInv(cfg, s) && FromSampler(env, s.fed) && Enabled(cfg, s, Sending)
    ensures s.seqNo !in s.gate.inflight
  {
    hide CanSend, DataInv, SampleInv, FailureDue, AgeInv, LastInv, ExpiresInTime, FromSampler;
    if s.seqNo in s.gate.inflight {
      OldEntryIsDue(cfg, env, s, s.seqNo);
    }
  }

  lemma NextId(cfg: Config, s: Sys)
    requires DataInv(cfg, s) && s.pending != []
    ensures s.pending[0].id == s.sent < |s.dataset| && s.pending[0].payload == cfg.encode(s.dataset[s.sent])
  {
    assert Encodes(cfg, s.dataset, s.pending[0].id, s.pending[0].payload);
  }

  lemma WrapSending(cfg: Config, env: Env, s: Sys)
    requires cfg.Valid() && cfg.maxRetries == 0 && ExpiresInTime(cfg, env) && DataInv(cfg, s) && WrapInv(cfg, s)
    requires SampleInv(cfg, s) && FromSampler(env, s.fed) && Enabled(cfg, s, Sending)
    ensures WrapInv(cfg, SendNext(cfg, env, s))
  {
    hide SendFromA, DataFrame, DataInv, CanSend, PaceDeadline, FailureDue, ExpiresInTime, AgeInv, SampleInv;
    hide FromSampler, Config.Spacing;
    NextSeqIsFree(cfg, env, s);
    NextId(cfg, s);
    var t := SendNext(cfg, env, s);
    DeadlineAfter(cfg, t.gate, 2 + |s.pending[0].payload|);
    assert t.payloads.Keys == s.payloads.Keys + {s.seqNo};
    forall k <- t.payloads ensures AgeInv(cfg, t, k) {
      if k == s.seqNo {
        JustSent(cfg, t, k);
      } else {
        assert AgeInv(cfg, s, k);
        OneMoreSend(cfg, s, t, k);
      }
    }
  }

  lemma JustSent(cfg: Config, t: Sys, k: byte)
    requires k in t.gate.inflight && k in t.payloads && t.payloads[k].id == t.sent - 1 < |t.dataset|
    requires t.gate.lastTxMs == Some(t.now) && t.gate.inflight[k].lastTxMs == t.now && t.gate.inflight[k].attempts == 1
    requires t.gate.inflight[k].ackTimeoutMs == cfg.ackTimeoutMs(FrameLength(cfg, t.dataset[t.sent - 1]))
    ensures AgeInv(cfg, t, k)
  {
  }

  lemma OneMoreSend(cfg: Config, s: Sys, t: Sys, k: byte)
    requires k in s.payloads && k in s.gate.inflight && AgeInv(cfg, s, k) && LastInv(cfg, s)
    requires CanSend(cfg, s.gate, s.now) && t.dataset == s.dataset && s.sent < |s.dataset|
    requires k in t.payloads && t.payloads[k] == s.payloads[k]
    requires k in t.gate.inflight && t.gate.inflight[k] == s.gate.inflight[k]
    requires t.gate.lastTxMs == Some(s.now) && t.sent == s.sent + 1
    ensures AgeInv(cfg, t, k)
  {
    hide PaceDeadline, Busy, FrameLength, Config.Spacing;
    BusyNext(cfg, s.dataset, s.payloads[k].id, s.sent);
  }

  lemma WrapQuiet(cfg: Config, s: Sys, t: Sys)
    requires WrapInv(cfg, s)
    requires t.lost == s.lost && t.sent == s.sent && s.dataset <= t.dataset
    requires t.gate.lastTxMs == s.gate.lastTxMs && t.gate.lastToaMs == s.gate.lastToaMs
    requires t.payloads.Keys == t.gate.inflight.Keys
    requires forall k <- t.payloads :: k in s.payloads && t.payloads[k] == s.payloads[k]
    requires forall k <- t.gate.inflight :: k in s.gate.inflight && t.gate.inflight[k] == s.gate.inflight[k]
    ensures WrapInv(cfg, t)
  {
    hide AgeInv, FrameLength, Config.Spacing, PaceDeadline;
    if s.gate.lastTxMs.Some? {
      SameDeadline(cfg, s.gate, t.gate);
    }
    forall k <- t.payloads ensures AgeInv(cfg, t, k) {
      AgeKept(cfg, s, t, k);
    }
  }

  lemma SameDeadline(cfg: Config, g: Gate, h: Gate)
    requires g.lastTxMs.Some? && h.lastTxMs == g.lastTxMs && h.lastToaMs == g.lastToaMs
    ensures PaceDeadline(cfg, g) == PaceDeadline(cfg, h)
  {
  }

  lemma AgeKept(cfg: Config, s: Sys, t: Sys, k: byte)
    requires k in s.payloads && k in s.gate.inflight && AgeInv(cfg, s, k) && s.dataset <= t.dataset
    requires t.sent == s.sent && t.gate.lastTxMs == s.gate.lastTxMs
    requires k in t.payloads && t.payloads[k] == s.payloads[k]
    requires k in t.gate.inflight && t.gate.inflight[k] == s.gate.inflight[k]
    ensures AgeInv(cfg, t, k)
  {
    hide Busy, FrameLength, Config.Spacing;
    BusySame(cfg, t.dataset, s.dataset, 0, s.payloads[k].id, s.sent - 1);
  }

  lemma WrapKeys(cfg: Config, s: Sys)
    requires WrapInv(cfg, s)
    ensures s.payloads.Keys == s.gate.inflight.Keys
  {
  }

  lemma WrapReceiving(cfg: Config, s: Sys)
    requires WrapInv(cfg, s) && Deliverable(s.link.toA, s.now)
    ensures WrapInv(cfg, HandleFrame(cfg, s))
  {
    hide ParseReply, Without, WrapInv, AckEvent;
    WrapKeys(cfg, s);
    WrapQuiet(cfg, s, HandleFrame(cfg, s));
  }

  lemma WrapFailing(cfg: Config, s: Sys, sn: byte)
    requires WrapInv(cfg, s) && sn in s.gate.inflight
    ensures WrapInv(cfg, Fail(s, sn))
  {
    hide Without, WrapInv;
    WrapKeys(cfg, s);
    WrapQuiet(cfg, s, Fail(s, sn));
  }

  lemma WrapRelaying(cfg: Config, env: Env, s: Sys)
    requires WrapInv(cfg, s) && Deliverable(s.link.toB, s.now)
    ensures WrapInv(cfg, Relay(cfg, env, s))
  {
    hide ParseData, SendFromB, WrapInv;
    WrapKeys(cfg, s);
    WrapQuiet(cfg, s, Relay(cfg, env, s));
  }

  lemma WrapSampling(cfg: Config, env: Env, s: Sys)
    requires cfg.window.Valid() && WrapInv(cfg, s)
    ensures WrapInv(cfg, QueueWindow(cfg, env, s))
  {
    hide Feed, WrapInv;
    WrapKeys(cfg, s);
    WrapQuiet(cfg, s, QueueWindow(cfg, env, s));
  }

  /** With a retry limit of zero nothing is ever resent. */
  lemma NoRetries(cfg: Config, s: Sys, sn: byte)
    requires cfg.maxRetries == 0 && TableInv(cfg, s)
    ensures !RetryDue(cfg, s.gate, s.now, sn)
  {
    if sn in s.gate.inflight {
      assert EntryInv(s.gate.inflight[sn], sn, s.now);
    }
  }

  lemma {:induction false} NothingToRetry(cfg: Config, s: Sys, order: seq<byte>)
    requires cfg.maxRetries == 0 && TableInv(cfg, s)
    ensures ExpiredSequences(cfg, s.gate, s.now, order) == []
    decreases |order|
  {
    hide TableInv, RetryDue;
    if order != [] {
      NoRetries(cfg, s, order[0]);
      NothingToRetry(cfg, s, order[1..]);
    }
  }

  lemma WrapInvStep(cfg: Config, env: Env, s: Sys, step: Step)
    requires cfg.Valid() && cfg.maxRetries == 0 && ExpiresInTime(cfg, env)
    requires TableInv(cfg, s) && DataInv(cfg, s) && SampleInv(cfg, s) && FromSampler(env, s.fed)
    requires WrapInv(cfg, s) && Enabled(cfg, s, step)
    ensures WrapInv(cfg, Apply(cfg, env, s, step))
  {
    hide DataInv, QueueWindow, HandleFrame, Fail, SendNext, Relay, Transmit, ExpiresInTime, CanSend, RetryDue, TableInv;
    hide SampleInv, FromSampler, AgeInv, LastInv;
    match step {
      case Sampling => WrapSampling(cfg, env, s);
      case Receiving => WrapReceiving(cfg, s);
      case Retrying(sn) => NoRetries(cfg, s, sn);
      case Failing(sn) => WrapFailing(cfg, s, sn);
      case Sending => WrapSending(cfg, env, s);
      case Relaying => WrapRelaying(cfg, env, s);
      case Ticking(ms) => WrapQuiet(cfg, s, Tick(s, ms));
    }
  }

  lemma {:induction false} WrapInvAlong(cfg: Config, env: Env, s: Sys, steps: seq<Step>, t: Sys)
    requires cfg.Valid() && cfg.maxRetries == 0 && ExpiresInTime(cfg, env)
    requires CoreInv(cfg, env, s) && FromSampler(env, s.fed) && WrapInv(cfg, s) && Leads(cfg, env, s, steps, t)
    ensures WrapInv(cfg, t)
    decreases |steps|
  {
    hide Apply, Enabled, WrapInv, TableInv, DataInv, SampleInv, FateInv, CountInv, OriginInv, FrameInv, ExpiresInTime;
    hide FromSampler;
    if steps != [] {
      FedGivenStep(cfg, env, s, steps[0]);
      CoreInvStep(cfg, env, s, steps[0]);
      WrapInvStep(cfg, env, s, steps[0]);
      WrapInvAlong(cfg, env, Apply(cfg, env, s, steps[0]), steps[1..], t);
    }
  }

  lemma WrapInvariant(cfg: Config, env: Env, s: Sys)
    requires cfg.Valid() && cfg.maxRetries == 0 && ExpiresInTime(cfg, env) && Reachable(cfg, env, s)
    ensures WrapInv(cfg, s)
  {
    hide Leads, CoreInv, ExpiresInTime;
    var start: nat, steps :| Leads(cfg, env, Init(start), steps, s);
    CoreInvInit(cfg, env, start);
    WrapInvAlong(cfg, env, Init(start), steps, s);
  }

  /** Without retries, and if every frame that can occur expires by the time its successors have kept the channel
      up to the window with the same SEQ, a run of any length and under any loss never sends on a SEQ that
      is still in flight: when `_send_pending` picks it, it is free, and no window is ever lost. */
  lemma SeqWrapIsSafe(cfg: Config, env: Env, s: Sys)
    requires cfg.Valid() && cfg.maxRetries == 0 && ExpiresInTime(cfg, env) && Reachable(cfg, env, s)
    ensures s.lost == {}
    ensures Enabled(cfg, s, Sending) ==> s.seqNo !in s.gate.inflight
  {
    hide Reachable, ExpiresInTime, TableInv, DataInv, SampleInv, FateInv, CountInv, OriginInv, FrameInv, FromSampler;
    hide AgeInv, LastInv, CanSend, FailureDue;
    WrapInvariant(cfg, env, s);
    CoreInvariant(cfg, env, s);
    FedGiven(cfg, env, s);
    if Enabled(cfg, s, Sending) {
      NextSeqIsFree(cfg, env, s);
    }
  }
}
