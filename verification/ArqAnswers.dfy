/** The answers of the receiver: which frames they are, and that each of them is read once, still on its way, or
    dropped. */
module ArqAnswers {
  import opened Basics
  import opened ArqModel
  import Windows

  /** The k-th line that reports an answer stands for the frame [1, k mod 256, sn], due one latency later. */
  function Answers(cfg: Config, log: seq<Event>): seq<Delivery> {
    if log == [] then []
    else
      var before, e := Answers(cfg, log[..|log| - 1]), log[|log| - 1];
      if e.AckSent? then before + [Delivery(e.ts + cfg.latencyMs, [1, |before| % 256, e.sn])] else before
  }

  /** Those of them that the link did not drop. */
  function Kept(env: Env, answers: seq<Delivery>): seq<Delivery> {
    if answers == [] then []
    else
      var n := |answers| - 1;
      Kept(env, answers[..n]) + (if env.dropBa(n) then [] else [answers[n]])
  }

  /** The steps lead from s to t, and these deliveries are what the transmit node reads on the way. */
  ghost predicate Reads(cfg: Config, env: Env, s: Sys, steps: seq<Step>, t: Sys, read: seq<Delivery>)
    requires cfg.window.Valid()
    decreases |steps|
  {
    if steps == [] then s == t && read == []
    else
      && Enabled(cfg, s, steps[0])
      && var u := Apply(cfg, env, s, steps[0]);
         if steps[0].Receiving? then
           read != [] && read[0] == s.link.toA[0] && Reads(cfg, env, u, steps[1..], t, read[1..])
         else Reads(cfg, env, u, steps[1..], t, read)
  }

  /** Every run reads something. */
  lemma {:induction false} SomeRead(cfg: Config, env: Env, s: Sys, steps: seq<Step>, t: Sys)
    returns (read: seq<Delivery>)
    requires cfg.window.Valid() && Leads(cfg, env, s, steps, t)
    ensures Reads(cfg, env, s, steps, t, read)
    decreases |steps|
  {
    hide Apply, Enabled;
    read := [];
    if steps != [] {
      var rest := SomeRead(cfg, env, Apply(cfg, env, s, steps[0]), steps[1..], t);
      if steps[0].Receiving? {
        HasFrame(cfg, s, steps[0]);
        read := [s.link.toA[0]] + rest;
      } else {
        read := rest;
      }
    }
  }

  lemma HasFrame(cfg: Config, s: Sys, step: Step)
    requires Enabled(cfg, s, step) && step.Receiving?
    ensures s.link.toA != []
  {
  }

  /** What has been read and what is on its way together are the answers given and not dropped. */
  ghost predicate AnswerInv(cfg: Config, env: Env, s: Sys, read: seq<Delivery>) {
    && multiset(read) + multiset(s.link.toA) == multiset(Kept(env, Answers(cfg, s.log)))
    && |Answers(cfg, s.log)| == s.rxOkCount == s.link.usedBa
    && s.ackSeq == s.rxOkCount % 256
  }

  lemma AnswersSnoc(cfg: Config, log: seq<Event>, e: Event)
    ensures var before := Answers(cfg, log);
            Answers(cfg, log + [e])
            == if e.AckSent? then before + [Delivery(e.ts + cfg.latencyMs, [1, |before| % 256, e.sn])] else before
  {
    assert (log + [e])[..|log + [e]| - 1] == log;
  }

  lemma {:induction false} AnswersSame(cfg: Config, log: seq<Event>, more: seq<Event>)
    requires forall e <- more :: !e.AckSent?
    ensures Answers(cfg, log + more) == Answers(cfg, log)
    decreases |more|
  {
    if more == [] {
      assert log + more == log;
    } else {
      var n := |more| - 1;
      AnswersSame(cfg, log, more[..n]);
      AnswersSnoc(cfg, log + more[..n], more[n]);
      assert log + more == log + more[..n] + [more[n]];
    }
  }

  lemma KeptSnoc(env: Env, answers: seq<Delivery>, d: Delivery)
    ensures Kept(env, answers + [d]) == Kept(env, answers) + (if env.dropBa(|answers|) then [] else [d])
  {
    assert (answers + [d])[..|answers + [d]| - 1] == answers;
  }

  lemma {:induction false} InsertAdds(q: seq<Delivery>, d: Delivery)
    ensures multiset(Insert(q, d)) == multiset(q) + multiset{d}
    decreases |q|
  {
    hide Before;
    if q != [] && !Before(d, q[0]) {
      InsertAdds(q[1..], d);
      assert q == [q[0]] + q[1..];
    }
  }

  /** Steps that neither read nor answer. */
  lemma AnswerQuiet(cfg: Config, env: Env, s: Sys, t: Sys, read: seq<Delivery>)
    requires AnswerInv(cfg, env, s, read)
    requires t.link.toA == s.link.toA && t.link.usedBa == s.link.usedBa
    requires t.ackSeq == s.ackSeq && t.rxOkCount == s.rxOkCount
    requires |s.log| <= |t.log| && t.log[..|s.log|] == s.log
    requires forall i :: |s.log| <= i < |t.log| ==> !t.log[i].AckSent?
    ensures AnswerInv(cfg, env, t, read)
  {
    hide Answers, Kept;
    var more := t.log[|s.log|..];
    assert t.log == s.log + more;
    AnswersSame(cfg, s.log, more);
  }

  /** Reading takes one delivery off the queue. */
  lemma AnswerReading(cfg: Config, env: Env, s: Sys, read: seq<Delivery>)
    requires AnswerInv(cfg, env, s, read) && Deliverable(s.link.toA, s.now)
    ensures AnswerInv(cfg, env, HandleFrame(cfg, s), read + [s.link.toA[0]])
  {
    hide ParseReply, Answers, Kept, Drop;
    var t := HandleFrame(cfg, s);
    assert s.link.toA == [s.link.toA[0]] + s.link.toA[1..];
    var more := t.log[|s.log|..];
    assert t.log == s.log + more;
    AnswersSame(cfg, s.log, more);
  }

  /** What answering does to log and link. */
  lemma EchoParts(cfg: Config, env: Env, s: Sys, sn: byte, payload: bytes)
    requires s.ackSeq == s.rxOkCount % 256
    ensures var t, d := Echo(cfg, env, s, sn, payload), Delivery(s.now + cfg.latencyMs, [1, s.rxOkCount % 256, sn]);
            && t.log == s.log + [RxOk(s.now, sn, payload), AckSent(s.now, sn)]
            && t.rxOkCount == s.rxOkCount + 1 && t.ackSeq == t.rxOkCount % 256
            && t.link.usedBa == s.link.usedBa + 1
            && t.link.toA == if env.dropBa(s.link.usedBa) then s.link.toA else Insert(s.link.toA, d)
  {
    hide Insert;
  }

  lemma AnswersEcho(cfg: Config, log: seq<Event>, ts: int, sn: byte, payload: bytes)
    ensures Answers(cfg, log + [RxOk(ts, sn, payload), AckSent(ts, sn)])
         == Answers(cfg, log) + [Delivery(ts + cfg.latencyMs, [1, |Answers(cfg, log)| % 256, sn])]
  {
    hide Answers;
    var e, f := RxOk(ts, sn, payload), AckSent(ts, sn);
    AnswersSnoc(cfg, log, e);
    AnswersSnoc(cfg, log + [e], f);
    TwoMore(log, e, f);
  }

  lemma TwoMore(log: seq<Event>, e: Event, f: Event)
    ensures log + [e, f] == log + [e] + [f]
  {
  }

  /** Answering adds one more answer to the list, and unless it is dropped to the queue. */
  lemma AnswerEcho(cfg: Config, env: Env, s: Sys, sn: byte, payload: bytes, read: seq<Delivery>)
    requires AnswerInv(cfg, env, s, read)
    ensures AnswerInv(cfg, env, Echo(cfg, env, s, sn, payload), read)
  {
    hide Answers, Kept, Insert, Echo;
    EchoParts(cfg, env, s, sn, payload);
    AnswersEcho(cfg, s.log, s.now, sn, payload);
    var d := Delivery(s.now + cfg.latencyMs, [1, s.rxOkCount % 256, sn]);
    KeptSnoc(env, Answers(cfg, s.log), d);
    InsertAdds(s.link.toA, d);
  }

  lemma AnswerRelaying(cfg: Config, env: Env, s: Sys, read: seq<Delivery>)
    requires AnswerInv(cfg, env, s, read) && Deliverable(s.link.toB, s.now)
    ensures AnswerInv(cfg, env, Relay(cfg, env, s), read)
  {
    hide ParseData, Echo, AnswerInv;
    AnswerQuiet(cfg, env, s, PopB(s), read);
    match ParseData(cfg, s.link.toB[0].frame) {
      case DataFor(sn, payload) => AnswerEcho(cfg, env, PopB(s), sn, payload, read);
      case Malformed => AnswerQuiet(cfg, env, s, Relay(cfg, env, s), read);
    }
  }

  lemma AnswerStep(cfg: Config, env: Env, s: Sys, step: Step, read: seq<Delivery>)
    requires cfg.window.Valid() && AnswerInv(cfg, env, s, read) && Enabled(cfg, s, step)
    ensures var t := Apply(cfg, env, s, step);
            if step.Receiving? then s.link.toA != [] && AnswerInv(cfg, env, t, read + [s.link.toA[0]])
            else AnswerInv(cfg, env, t, read)
  {
    hide AnswerInv, HandleFrame, Relay, RecordSend, Insert, DataFrame, Windows.Feed, CanSend, Drop, Attempt;
    match step {
      case Receiving => AnswerReading(cfg, env, s, read);
      case Relaying => AnswerRelaying(cfg, env, s, read);
      case _ => AnswerQuiet(cfg, env, s, Apply(cfg, env, s, step), read);
    }
  }

  lemma {:induction false} AnswerAlong(
    cfg: Config, env: Env, s: Sys, steps: seq<Step>, t: Sys, before: seq<Delivery>, read: seq<Delivery>)
    requires cfg.window.Valid() && AnswerInv(cfg, env, s, before) && Reads(cfg, env, s, steps, t, read)
    ensures AnswerInv(cfg, env, t, before + read)
    decreases |steps|
  {
    hide Apply, Enabled, AnswerInv;
    if steps == [] {
      assert before + read == before;
    } else {
      AnswerStep(cfg, env, s, steps[0], before);
      var u := Apply(cfg, env, s, steps[0]);
      if steps[0].Receiving? {
        AnswerAlong(cfg, env, u, steps[1..], t, before + [s.link.toA[0]], read[1..]);
        assert before + [s.link.toA[0]] + read[1..] == before + read;
      } else {
        AnswerAlong(cfg, env, u, steps[1..], t, before, read);
      }
    }
  }

  /** In every run: what the transmit node has read and what is on its way to it are, together and each once, the
      answers that the link did not drop, and the k-th answer is the frame [1, k mod 256, sn] of the k-th
      line that reports one. */
  lemma AnswersConserved(cfg: Config, env: Env, start: nat, steps: seq<Step>, t: Sys, read: seq<Delivery>)
    requires cfg.window.Valid() && Reads(cfg, env, Init(start), steps, t, read)
    ensures multiset(read) + multiset(t.link.toA) == multiset(Kept(env, Answers(cfg, t.log)))
    ensures |Answers(cfg, t.log)| == t.rxOkCount && t.ackSeq == t.rxOkCount % 256
  {
    AnswerAlong(cfg, env, Init(start), steps, t, [], read);
    assert [] + read == read;
  }

  lemma {:induction false} NothingDropped(env: Env, answers: seq<Delivery>)
    requires forall n: nat :: !env.dropBa(n)
    ensures Kept(env, answers) == answers
  {
    if answers != [] {
      NothingDropped(env, answers[..|answers| - 1]);
    }
  }

  /** Over a link that drops no answer, those are all answers. */
  lemma AllAnswersArrive(cfg: Config, env: Env, start: nat, steps: seq<Step>, t: Sys, read: seq<Delivery>)
    requires cfg.window.Valid() && Reads(cfg, env, Init(start), steps, t, read)
    requires forall n: nat :: !env.dropBa(n)
    ensures multiset(read) + multiset(t.link.toA) == multiset(Answers(cfg, t.log))
  {
    AnswersConserved(cfg, env, start, steps, t, read);
    NothingDropped(env, Answers(cfg, t.log));
  }

  // ---------------------------------------------------------------------
  // Single answers
  // ---------------------------------------------------------------------

  lemma {:induction false} KeptAreAnswers(env: Env, answers: seq<Delivery>)
    ensures forall d <- Kept(env, answers) :: d in answers
  {
    if answers != [] {
      KeptAreAnswers(env, answers[..|answers| - 1]);
    }
  }

  /** The k-th answer belongs to a line with k such lines before it. */
  lemma {:induction false} AnswerLine(cfg: Config, log: seq<Event>, k: nat) returns (i: nat)
    requires k < |Answers(cfg, log)|
    ensures i < |log| && log[i].AckSent? && |Answers(cfg, log[..i])| == k
    ensures Answers(cfg, log)[k] == Delivery(log[i].ts + cfg.latencyMs, [1, k % 256, log[i].sn])
  {
    var n := |log| - 1;
    assert log == log[..n] + [log[n]];
    AnswersSnoc(cfg, log[..n], log[n]);
    if k < |Answers(cfg, log[..n])| {
      i := AnswerLine(cfg, log[..n], k);
      assert log[..n][..i] == log[..i];
    } else {
      i := n;
    }
  }

  /** In every reachable state, whatever is on its way to the transmit node is the answer reported by some line of
      the log: with k answers before it, the frame [1, k mod 256, sn]. */
  lemma QueuedAnswer(cfg: Config, env: Env, s: Sys, d: Delivery) returns (i: nat, k: nat)
    requires cfg.window.Valid() && Reachable(cfg, env, s) && d in s.link.toA
    ensures i < |s.log| && s.log[i].AckSent? && k == |Answers(cfg, s.log[..i])| < s.rxOkCount
    ensures d == Delivery(s.log[i].ts + cfg.latencyMs, [1, k % 256, s.log[i].sn])
    ensures s.ackSeq == s.rxOkCount % 256
  {
    hide Leads, Answers, Kept, Reads;
    var start: nat, steps :| Leads(cfg, env, Init(start), steps, s);
    var read := SomeRead(cfg, env, Init(start), steps, s);
    AnswersConserved(cfg, env, start, steps, s, read);
    var answers := Answers(cfg, s.log);
    KeptAreAnswers(env, answers);
    assert d in multiset(s.link.toA) && d in multiset(Kept(env, answers));
    assert d in Kept(env, answers) && d in answers;
    var j :| 0 <= j < |answers| && answers[j] == d;
    k := j;
    i := AnswerLine(cfg, s.log, k);
  }
}
