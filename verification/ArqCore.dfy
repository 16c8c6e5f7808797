/** The properties of every reachable state, stated for readers: conservation of windows and frames,
    exactly one fate per window, and the join between samples, windows and transmitted payloads. */
module ArqCore {
  import opened Windows
  import Arith
  import opened ArqModel
  import opened LogCounts
  import opened ArqInvariants
  import opened ArqLink

  ghost predicate CoreInv(cfg: Config, env: Env, s: Sys)
    requires cfg.window.Valid()
  {
    && TableInv(cfg, s) && DataInv(cfg, s) && SampleInv(cfg, s) && FateInv(s) && CountInv(s)
    && OriginInv(cfg, s) && FrameInv(env, s)
  }

  lemma CoreInvInit(cfg: Config, env: Env, start: nat)
    requires cfg.Valid()
    ensures CoreInv(cfg, env, Init(start))
  {
  }

  lemma CoreInvStep(cfg: Config, env: Env, s: Sys, step: Step)
    requires cfg.Valid() && CoreInv(cfg, env, s) && Enabled(cfg, s, step)
    ensures CoreInv(cfg, env, Apply(cfg, env, s, step))
  {
    hide Apply, Enabled, TableInv, DataInv, SampleInv, FateInv, CountInv, OriginInv, FrameInv;
    TableInvStep(cfg, env, s, step);
    DataInvStep(cfg, env, s, step);
    SampleInvStep(cfg, env, s, step);
    FateInvStep(cfg, env, s, step);
    CountInvStep(cfg, env, s, step);
    OriginInvStep(cfg, env, s, step);
    FrameInvStep(cfg, env, s, step);
  }

  lemma {:induction false} CoreInvAlong(cfg: Config, env: Env, s: Sys, steps: seq<Step>, t: Sys)
    requires cfg.Valid() && CoreInv(cfg, env, s) && Leads(cfg, env, s, steps, t)
    ensures CoreInv(cfg, env, t)
    decreases |steps|
  {
    hide Apply, Enabled, CoreInv;
    if steps != [] {
      CoreInvStep(cfg, env, s, steps[0]);
      CoreInvAlong(cfg, env, Apply(cfg, env, s, steps[0]), steps[1..], t);
    }
  }

  lemma CoreInvariant(cfg: Config, env: Env, s: Sys)
    requires cfg.Valid() && Reachable(cfg, env, s)
    ensures CoreInv(cfg, env, s)
  {
    hide CoreInv, Leads, Init;
    var start: nat, steps :| Leads(cfg, env, Init(start), steps, s);
    CoreInvInit(cfg, env, start);
    CoreInvAlong(cfg, env, Init(start), steps, s);
  }

  // ---------------------------------------------------------------------
  // Conservation
  // ---------------------------------------------------------------------

  /** Every generated window is pending, in flight, acknowledged, failed, or lost to a reuse of its
      SEQ. Nothing is lost if and only if the first four add up; and nothing is lost if and only if
      every window had a first attempt, that is, no SEQ was ever reused in flight. */
  lemma WindowConservation(cfg: Config, env: Env, s: Sys)
    requires cfg.Valid() && Reachable(cfg, env, s)
    ensures s.generated
            == |s.pending| + |s.gate.inflight| + Num(Acked, s.log) + Num(Failed, s.log) + |s.lost|
    ensures s.lost == {}
            <==> s.generated == |s.pending| + |s.gate.inflight| + Num(Acked, s.log) + Num(Failed, s.log)
    ensures s.lost == {} <==> Num(AnySent, s.log) - Num(Resent, s.log) == s.sent
    ensures s.payloads.Keys == s.gate.inflight.Keys && |s.gate.inflight| <= cfg.maxInflight
  {
    hide Reachable, DataInv, SampleInv, FateInv, OriginInv, FrameInv, Num, ToaSum;
    CoreInvariant(cfg, env, s);
  }

  /** At every moment each window that was sent has exactly one fate: in flight, reported
      acknowledged or failed exactly once, or lost to a reuse; no other window is ever reported. */
  lemma ExactlyOneFate(cfg: Config, env: Env, s: Sys, w: nat)
    requires cfg.Valid() && Reachable(cfg, env, s)
    ensures Resolutions(s.log, w) + One(IsInFlight(s, w)) + One(w in s.lost) == One(w < s.sent)
  {
    hide Reachable, DataInv, SampleInv, TableInv, CountInv, OriginInv, FrameInv, Resolutions;
    CoreInvariant(cfg, env, s);
    FateAt(s, w);
  }

  /** Frames are conserved on the link whatever is dropped: data sent is data dropped, queued or
      received, every received frame is acknowledged once, no frame is ever malformed, and
      acknowledged <= acknowledgements sent = received <= sent. */
  lemma FrameConservation(cfg: Config, env: Env, s: Sys)
    requires cfg.Valid() && Reachable(cfg, env, s)
    ensures Num(AnySent, s.log)
            == Dropped(env.dropAb, Num(AnySent, s.log)) + |s.link.toB| + Num(Received, s.log)
    ensures Num(Acked, s.log) <= Num(Echoed, s.log) == Num(Received, s.log) <= Num(AnySent, s.log)
    ensures Num(Acked, s.log) + Dropped(env.dropBa, Num(Echoed, s.log)) + |s.link.toA| <= Num(Echoed, s.log)
  {
    hide Reachable, DataInv, SampleInv, FateInv, TableInv, OriginInv, Num, ToaSum, Dropped;
    CoreInvariant(cfg, env, s);
  }

  // ---------------------------------------------------------------------
  // Join
  // ---------------------------------------------------------------------

  /** Every transmission of window k, first or repeated, carries the encoding of the k-th dataset
      record, which is exactly samples k*stride up to k*stride + W; its SEQ is k modulo 256, and the line
      reports time on air and timeout of its frame. */
  lemma TransmittedPayload(cfg: Config, env: Env, s: Sys, i: nat)
    requires cfg.Valid() && Reachable(cfg, env, s) && i < |s.log| && s.log[i].TxSent?
    ensures var e := s.log[i];
            && e.id < |s.dataset| && e.id < s.sent
            && e.sn == SeqOf(e.id)
            && e.payload == cfg.encode(s.dataset[e.id])
            && IsWindowAt(cfg.window, s.fed, e.id * cfg.window.stride, s.dataset[e.id])
            && |s.dataset| == Count(cfg.window, |s.fed|)
            && e.toaMs == cfg.toaMs(2 + |e.payload|) && e.ackTimeoutMs == cfg.ackTimeoutMs(2 + |e.payload|)
            && e.guardMs == cfg.guardMs
  {
    hide Reachable, FateInv, CountInv, TableInv, OriginInv, FrameInv, IsWindowAt, Emitted, After, Count;
    CoreInvariant(cfg, env, s);
    assert SentInv(cfg, s, s.log[i]);
    WindowJoin(cfg.window, s.fed);
  }

  /** Sample by sample: entry r * dims + d of the window that a transmission carries encoded is coordinate d of sample
      k * stride + r. */
  lemma TransmittedSamples(cfg: Config, env: Env, s: Sys, i: nat, dims: nat, r: nat, d: nat)
    requires cfg.Valid() && Reachable(cfg, env, s) && i < |s.log| && s.log[i].TxSent?
    requires (forall row <- s.fed :: |row| == dims) && r < cfg.window.W && d < dims
    ensures var e := s.log[i];
            && e.id < |s.dataset| && e.payload == cfg.encode(s.dataset[e.id])
            && var window, at := s.dataset[e.id], e.id * cfg.window.stride + r;
               && |window| == cfg.window.W * dims && 0 <= r * dims + d < |window| && 0 <= at < |s.fed|
               && window[r * dims + d] == s.fed[at][d]
  {
    hide Reachable, IsWindowAt, Count;
    TransmittedPayload(cfg, env, s, i);
    var e := s.log[i];
    var start, window := e.id * cfg.window.stride, s.dataset[e.id];
    Inside(cfg.window, s.fed, start, window);
    EntryOfWindow(cfg.window, s.fed, dims, start, window, r, d);
    PlaceInRow(cfg.window.W, dims, r, d);
    Arith.MulNonNegative(r, dims);
  }
}
