/** Channel pacing: the gate keeps consecutive transmissions apart, first attempts and retries alike. */
module ArqPacing {
  import opened Basics
  import opened Windows
  import opened ArqModel
  import opened LogCounts
  import opened ArqInvariants
  import opened ArqCore

  /** The transmissions of a log, oldest first. */
  function Sends(log: seq<Event>): seq<Event> {
    if log == [] then []
    else Sends(log[..|log| - 1]) + (if log[|log| - 1].TxSent? then [log[|log| - 1]] else [])
  }

  lemma SendsSnoc(log: seq<Event>, e: Event)
    ensures Sends(log + [e]) == if e.TxSent? then Sends(log) + [e] else Sends(log)
  {
    assert (log + [e])[..|log + [e]| - 1] == log;
  }

  lemma SendsSnoc2(log: seq<Event>, e: Event, f: Event)
    requires !e.TxSent? && !f.TxSent?
    ensures Sends(log + [e, f]) == Sends(log)
  {
    SendsSnoc(log, e);
    SendsSnoc(log + [e], f);
    assert log + [e, f] == log + [e] + [f];
  }

  lemma {:induction false} SendsAreSends(log: seq<Event>)
    ensures forall e <- Sends(log) :: e.TxSent? && e in log
    ensures |Sends(log)| == Num(AnySent, log)
    decreases |log|
  {
    if log != [] {
      SendsAreSends(log[..|log| - 1]);
    }
  }

  /** Each transmission starts no earlier than its predecessor plus time on air and guard. */
  ghost predicate Paced(cfg: Config, xs: seq<Event>) {
    && (forall e <- xs :: e.TxSent?)
    && forall k :: 0 <= k < |xs| - 1 ==>
         xs[k + 1].ts >= xs[k].ts + (xs[k].toaMs + cfg.guardMs as real).Floor
  }

  /** The gate remembers exactly the last transmission of the log. */
  ghost predicate PaceInv(cfg: Config, s: Sys) {
    var xs := Sends(s.log);
    && Paced(cfg, xs)
    && (s.gate.lastTxMs.Some? <==> xs != [])
    && (xs != [] ==> s.gate.lastTxMs.value == xs[|xs| - 1].ts && s.gate.lastToaMs == xs[|xs| - 1].toaMs)
  }

  lemma FloorShift(n: int, x: real)
    ensures (n as real + x).Floor == n + x.Floor
  {
  }

  lemma PaceTransmitting(cfg: Config, env: Env, s: Sys, w: PendingWindow, sn: byte)
    requires PaceInv(cfg, s) && CanSend(cfg, s.gate, s.now)
    ensures PaceInv(cfg, Transmit(cfg, env, s, w, sn))
  {
    hide SendFromA, Attempt, Sends;
    var t := Transmit(cfg, env, s, w, sn);
    SendsSnoc(s.log, t.log[|s.log|]);
    var xs := Sends(s.log);
    if xs != [] {
      FloorShift(s.gate.lastTxMs.value, s.gate.lastToaMs + cfg.guardMs as real);
      assert s.gate.lastTxMs.value as real + s.gate.lastToaMs + cfg.guardMs as real
          == s.gate.lastTxMs.value as real + (s.gate.lastToaMs + cfg.guardMs as real);
    }
  }

  lemma PaceReceiving(cfg: Config, s: Sys)
    requires PaceInv(cfg, s) && Deliverable(s.link.toA, s.now)
    ensures PaceInv(cfg, HandleFrame(cfg, s))
  {
    hide ParseReply, Paced, Sends, AckEvent;
    match ParseReply(cfg, s.link.toA[0].frame) {
      case AckFor(sn) =>
        if sn in s.gate.inflight {
          AckEventIsAck(s, sn);
          assert AckEvent(PopA(s), sn) == AckEvent(s, sn) by { AckEventIgnoresLink(s, sn); }
          SendsSnoc(s.log, AckEvent(s, sn));
        }
      case BadFrame => SendsSnoc(s.log, TxParseFail(s.now));
      case OtherFrame =>
    }
  }

  lemma AckEventIsAck(s: Sys, sn: byte)
    requires sn in s.gate.inflight
    ensures AckEvent(s, sn).AckReceived?
  {
  }

  lemma AckEventIgnoresLink(s: Sys, sn: byte)
    requires sn in s.gate.inflight && s.link.toA != []
    ensures AckEvent(PopA(s), sn) == AckEvent(s, sn)
  {
  }

  lemma PaceRelaying(cfg: Config, env: Env, s: Sys)
    requires PaceInv(cfg, s) && Deliverable(s.link.toB, s.now)
    ensures PaceInv(cfg, Relay(cfg, env, s))
  {
    hide ParseData, Paced, Sends, SendFromB;
    match ParseData(cfg, s.link.toB[0].frame) {
      case DataFor(sn, payload) => SendsSnoc2(s.log, RxOk(s.now, sn, payload), AckSent(s.now, sn));
      case Malformed => SendsSnoc(s.log, RxParseFail(s.now));
    }
  }

  lemma PaceInvStep(cfg: Config, env: Env, s: Sys, step: Step)
    requires cfg.window.Valid() && PaceInv(cfg, s) && Enabled(cfg, s, step)
    ensures PaceInv(cfg, Apply(cfg, env, s, step))
  {
    hide Paced, Sends, HandleFrame, Transmit, Relay, Feed, CanSend;
    match step {
      case Receiving => PaceReceiving(cfg, s);
      case Retrying(sn) => PaceTransmitting(cfg, env, s, s.payloads[sn], sn);
      case Sending => PaceTransmitting(cfg, env, s, s.pending[0], s.seqNo);
      case Relaying => PaceRelaying(cfg, env, s);
      case Failing(sn) => SendsSnoc(s.log, Fail(s, sn).log[|s.log|]);
      case _ =>
    }
  }

  lemma {:induction false} PaceInvAlong(cfg: Config, env: Env, s: Sys, steps: seq<Step>, t: Sys)
    requires cfg.window.Valid() && PaceInv(cfg, s) && Leads(cfg, env, s, steps, t)
    ensures PaceInv(cfg, t)
    decreases |steps|
  {
    hide Apply, Enabled, PaceInv;
    if steps != [] {
      PaceInvStep(cfg, env, s, steps[0]);
      PaceInvAlong(cfg, env, Apply(cfg, env, s, steps[0]), steps[1..], t);
    }
  }

  lemma PaceInvariant(cfg: Config, env: Env, s: Sys)
    requires cfg.window.Valid() && Reachable(cfg, env, s)
    ensures PaceInv(cfg, s)
  {
    hide Leads;
    var start: nat, steps :| Leads(cfg, env, Init(start), steps, s);
    PaceInvAlong(cfg, env, Init(start), steps, s);
  }

  // ---------------------------------------------------------------------
  // Results
  // ---------------------------------------------------------------------

  /** Over a whole run, consecutive transmissions are at least floor(toa + guard) apart, so with a
      guard of one millisecond or more their estimated on-air intervals never overlap. */
  lemma ChannelPacing(cfg: Config, env: Env, s: Sys, k: nat)
    requires cfg.window.Valid() && Reachable(cfg, env, s) && k + 1 < |Sends(s.log)|
    ensures var x, y := Sends(s.log)[k], Sends(s.log)[k + 1];
            && x.TxSent? && y.TxSent?
            && y.ts >= x.ts + (x.toaMs + cfg.guardMs as real).Floor
            && (cfg.guardMs >= 1 ==> y.ts as real >= x.ts as real + x.toaMs)
  {
    hide Reachable;
    PaceInvariant(cfg, env, s);
  }

  /** The gate can open while the previous frame is still on the air exactly when there is no guard
      time and the time on air is not a whole number of milliseconds. */
  lemma OverlapIffNoGuard(cfg: Config, g: Gate)
    requires g.lastTxMs.Some?
    ensures PaceDeadline(cfg, g) as real < g.lastTxMs.value as real + g.lastToaMs
            <==> cfg.guardMs == 0 && g.lastToaMs.Floor as real != g.lastToaMs
  {
    FloorShift(g.lastTxMs.value + cfg.guardMs, g.lastToaMs);
    assert g.lastTxMs.value as real + g.lastToaMs + cfg.guardMs as real
        == (g.lastTxMs.value + cfg.guardMs) as real + g.lastToaMs;
  }

  lemma {:induction false} SumOfSends(log: seq<Event>)
    ensures ToaSum(Sends(log)) == ToaSum(log)
    decreases |log|
  {
    if log != [] {
      var before, e := log[..|log| - 1], log[|log| - 1];
      SumOfSends(before);
      assert log == before + [e];
      SendsSnoc(before, e);
      if e.TxSent? {
        assert Sends(log)[..|Sends(log)| - 1] == Sends(before);
      }
    }
  }

  lemma {:induction false} AirtimeOfPaced(cfg: Config, xs: seq<Event>)
    requires Paced(cfg, xs) && xs != []
    ensures ToaSum(xs) - xs[|xs| - 1].toaMs
            <= (xs[|xs| - 1].ts - xs[0].ts) as real - ((|xs| - 1) * (cfg.guardMs - 1)) as real
    decreases |xs|
  {
    if |xs| == 1 {
      assert xs[..0] == [];
    } else {
      var n := |xs|;
      var before := xs[..n - 1];
      AirtimeOfPaced(cfg, before);
      assert before[|before| - 1] == xs[n - 2];
      assert xs[n - 1].ts >= xs[n - 2].ts + (xs[n - 2].toaMs + cfg.guardMs as real).Floor;
      assert (n - 1) * (cfg.guardMs - 1) == (n - 2) * (cfg.guardMs - 1) + (cfg.guardMs - 1);
    }
  }

  /** The air time the gate has accounted for, without the last frame, fits into the time between the
      first and the last start, less the guard times. */
  lemma AirtimeBudget(cfg: Config, env: Env, s: Sys)
    requires cfg.Valid() && Reachable(cfg, env, s) && Sends(s.log) != []
    ensures var xs := Sends(s.log);
            && xs[0].TxSent? && xs[|xs| - 1].TxSent?
            && |xs| == s.gate.sentCount
            && s.gate.totalToaMs - s.gate.lastToaMs
               <= (xs[|xs| - 1].ts - xs[0].ts) as real - ((|xs| - 1) * (cfg.guardMs - 1)) as real
  {
    hide Reachable, TableInv, DataInv, SampleInv, FateInv, Num, ToaSum, Sends;
    PaceInvariant(cfg, env, s);
    CoreInvariant(cfg, env, s);
    SumOfSends(s.log);
    SendsAreSends(s.log);
    AirtimeOfPaced(cfg, Sends(s.log));
  }
}
