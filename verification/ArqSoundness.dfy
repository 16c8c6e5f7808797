/** What an acknowledgement proves about delivery. */
module ArqSoundness {
  import opened Basics
  import opened Windows
  import opened ArqModel
  import opened ArqInvariants
  import opened ArqLink
  import opened ArqCore

  /** Every acknowledgement names a window that was sent under the acknowledged SEQ. */
  ghost predicate AckWindowInv(s: Sys) {
    forall i :: 0 <= i < |s.log| && s.log[i].AckReceived? ==>
      && s.log[i].window.Some?
      && s.log[i].window.value < s.sent
      && s.log[i].window.value % 256 == s.log[i].sn
  }

  lemma AckWindowReceiving(cfg: Config, s: Sys)
    requires TableInv(cfg, s) && DataInv(cfg, s) && AckWindowInv(s) && Deliverable(s.link.toA, s.now)
    ensures AckWindowInv(HandleFrame(cfg, s))
  {
    hide ParseReply, Drop;
    match ParseReply(cfg, s.link.toA[0].frame) {
      case AckFor(sn) =>
        if sn in s.gate.inflight {
          assert HeldInv(cfg, s, sn, s.payloads[sn]);
        }
      case _ =>
    }
  }

  lemma AckWindowQuiet(s: Sys, t: Sys)
    requires AckWindowInv(s) && t.sent >= s.sent
    requires |t.log| >= |s.log| && t.log[..|s.log|] == s.log
    requires forall i :: |s.log| <= i < |t.log| ==> !t.log[i].AckReceived?
    ensures AckWindowInv(t)
  {
    forall i | 0 <= i < |t.log| && t.log[i].AckReceived?
      ensures t.log[i].window.Some? && t.log[i].window.value < t.sent && t.log[i].window.value % 256 == t.log[i].sn
    {
      assert t.log[i] == t.log[..|s.log|][i] == s.log[i];
    }
  }

  lemma AckWindowRelaying(cfg: Config, env: Env, s: Sys)
    requires AckWindowInv(s) && Deliverable(s.link.toB, s.now)
    ensures AckWindowInv(Relay(cfg, env, s))
  {
    hide ParseData, SendFromB, AckWindowInv;
    AckWindowQuiet(s, Relay(cfg, env, s));
  }

  lemma AckWindowStep(cfg: Config, env: Env, s: Sys, step: Step)
    requires cfg.Valid() && TableInv(cfg, s) && DataInv(cfg, s) && AckWindowInv(s) && Enabled(cfg, s, step)
    ensures AckWindowInv(Apply(cfg, env, s, step))
  {
    hide TableInv, DataInv, AckWindowInv, HandleFrame, Relay, RecordSend, SendFromA, Feed, CanSend, Drop;
    match step {
      case Receiving => AckWindowReceiving(cfg, s);
      case Relaying => AckWindowRelaying(cfg, env, s);
      case _ => AckWindowQuiet(s, Apply(cfg, env, s, step));
    }
  }

  lemma {:induction false} AckWindowAlong(cfg: Config, env: Env, s: Sys, steps: seq<Step>, t: Sys)
    requires cfg.Valid() && CoreInv(cfg, env, s) && AckWindowInv(s) && Leads(cfg, env, s, steps, t)
    ensures AckWindowInv(t)
    decreases |steps|
  {
    hide Apply, Enabled, AckWindowInv, TableInv, DataInv, SampleInv, FateInv, CountInv, OriginInv, FrameInv;
    if steps != [] {
      CoreInvStep(cfg, env, s, steps[0]);
      AckWindowStep(cfg, env, s, steps[0]);
      AckWindowAlong(cfg, env, Apply(cfg, env, s, steps[0]), steps[1..], t);
    }
  }

  lemma AckWindowInvariant(cfg: Config, env: Env, s: Sys)
    requires cfg.Valid() && Reachable(cfg, env, s)
    ensures AckWindowInv(s)
  {
    hide Leads, CoreInv;
    var start: nat, steps :| Leads(cfg, env, Init(start), steps, s);
    CoreInvInit(cfg, env, start);
    AckWindowAlong(cfg, env, Init(start), steps, s);
  }

  /** Log entry i acknowledges window w. */
  predicate AcksWindow(log: seq<Event>, i: nat, w: nat) {
    i < |log| && log[i].AckReceived? && log[i].window == Some(w)
  }

  /** Under every loss pattern and with any number of retries: whenever a window is reported
      acknowledged, the receiver had logged, earlier, a frame of some window with the same SEQ, which
      the transmitter had sent, earlier still, with exactly that payload. */
  lemma AckProvenance(cfg: Config, env: Env, s: Sys, i: nat, w: nat) returns (j: nat, k: nat)
    requires cfg.Valid() && Reachable(cfg, env, s) && AcksWindow(s.log, i, w)
    ensures k < j < i && w < s.sent
    ensures s.log[k].TxSent? && s.log[j].RxOk? && s.log[k].payload == s.log[j].payload
    ensures s.log[k].id < |s.dataset| && s.log[k].payload == cfg.encode(s.dataset[s.log[k].id])
    ensures s.log[k].id < s.sent && s.log[k].id % 256 == w % 256 == s.log[j].sn
    ensures s.log[k].ts + cfg.latencyMs <= s.log[j].ts && s.log[j].ts + cfg.latencyMs <= s.log[i].ts
  {
    hide Reachable, TableInv, SampleInv, FateInv, CountInv, FrameInv;
    CoreInvariant(cfg, env, s);
    AckWindowInvariant(cfg, env, s);
    j :| 0 <= j < i && Confirms(cfg, s.log[j], s.log[i]);
    k :| 0 <= k < j && Arrives(cfg, s.log[k], s.log[j]);
    assert SentInv(cfg, s, s.log[k]);
  }

  /** While at most 256 windows have been sent, an acknowledgement of window w proves that the
      receiver had already received a frame carrying exactly the encoding of window w. */
  lemma AckSoundUpTo256(cfg: Config, env: Env, s: Sys, i: nat, w: nat)
    requires cfg.Valid() && Reachable(cfg, env, s) && AcksWindow(s.log, i, w) && s.sent <= 256
    ensures w < |s.dataset|
    ensures exists j :: 0 <= j < i && s.log[j].RxOk? && s.log[j].payload == cfg.encode(s.dataset[w])
  {
    hide Reachable;
    var j, k := AckProvenance(cfg, env, s, i, w);
    assert s.log[k].id == w;
  }
}
