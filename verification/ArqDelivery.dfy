/** The order in which frames are handed over: by time, and at the same time in the order of a dictionary. */
module ArqDelivery {
  import opened Basics
  import opened ArqModel
  import Windows

  /** a comes before b in a dictionary: where they first differ, a has ended or has the smaller byte. */
  ghost predicate Precedes(a: bytes, b: bytes) {
    exists n: nat :: DiffersAt(a, b, n)
  }

  predicate DiffersAt(a: bytes, b: bytes, n: nat) {
    n <= |a| && n < |b| && a[..n] == b[..n] && (n == |a| || a[n] < b[n])
  }

  lemma {:induction false} FrameLessIff(a: bytes, b: bytes)
    ensures FrameLess(a, b) <==> Precedes(a, b)
    decreases |a|
  {
    if a == [] && b != [] {
      assert DiffersAt(a, b, 0);
    } else if a != [] && b != [] {
      FrameLessIff(a[1..], b[1..]);
      if FrameLess(a, b) {
        if a[0] < b[0] {
          assert DiffersAt(a, b, 0);
        } else {
          var n: nat :| DiffersAt(a[1..], b[1..], n);
          assert a[..n + 1] == [a[0]] + a[1..][..n] && b[..n + 1] == [b[0]] + b[1..][..n];
          assert DiffersAt(a, b, n + 1);
        }
      }
      if n: nat :| DiffersAt(a, b, n) {
        if n > 0 {
          assert a[0] == a[..n][0] == b[..n][0] == b[0];
          assert a[1..][..n - 1] == a[..n][1..] && b[1..][..n - 1] == b[..n][1..];
          assert DiffersAt(a[1..], b[1..], n - 1);
        }
      }
    }
  }

  lemma {:induction false} FrameLessTotal(a: bytes, b: bytes)
    ensures FrameLess(a, b) || FrameLess(b, a) || a == b
    ensures !(FrameLess(a, b) && FrameLess(b, a))
    decreases |a|
  {
    if a != [] && b != [] {
      FrameLessTotal(a[1..], b[1..]);
      assert a == [a[0]] + a[1..] && b == [b[0]] + b[1..];
    }
  }

  lemma {:induction false} FrameLessTransitive(a: bytes, b: bytes, c: bytes)
    requires FrameLess(a, b) && FrameLess(b, c)
    ensures FrameLess(a, c)
    decreases |a|
  {
    if a != [] && a[0] == b[0] == c[0] {
      FrameLessTransitive(a[1..], b[1..], c[1..]);
    }
  }

  /** d may be handed over before e. */
  ghost predicate NotAfter(d: Delivery, e: Delivery) {
    d.at < e.at || (d.at == e.at && (d.frame == e.frame || Precedes(d.frame, e.frame)))
  }

  lemma NotAfterIff(d: Delivery, e: Delivery)
    ensures NotAfter(d, e) <==> !Before(e, d)
  {
    FrameLessIff(d.frame, e.frame);
    FrameLessTotal(d.frame, e.frame);
    FrameLessTotal(d.frame, d.frame);
  }

  lemma NotAfterTransitive(d: Delivery, e: Delivery, f: Delivery)
    requires NotAfter(d, e) && NotAfter(e, f)
    ensures NotAfter(d, f)
  {
    FrameLessIff(d.frame, e.frame);
    FrameLessIff(e.frame, f.frame);
    FrameLessIff(d.frame, f.frame);
    if d.at == e.at == f.at && d.frame != e.frame && e.frame != f.frame {
      FrameLessTransitive(d.frame, e.frame, f.frame);
    }
  }

  ghost predicate InOrder(q: seq<Delivery>) {
    forall i, j :: 0 <= i < j < |q| ==> NotAfter(q[i], q[j])
  }

  lemma OrderCons(d: Delivery, q: seq<Delivery>)
    requires InOrder(q) && (q != [] ==> NotAfter(d, q[0]))
    ensures InOrder([d] + q)
  {
    hide NotAfter;
    var all := [d] + q;
    forall i, j | 0 <= i < j < |all| ensures NotAfter(all[i], all[j]) {
      if i == 0 && j > 1 {
        NotAfterTransitive(d, q[0], q[j - 1]);
      }
    }
  }

  lemma OrderTail(q: seq<Delivery>)
    requires q != [] && InOrder(q)
    ensures InOrder(q[1..])
  {
    hide NotAfter;
  }

  lemma {:induction false} InsertInOrder(q: seq<Delivery>, d: Delivery)
    requires InOrder(q)
    ensures InOrder(Insert(q, d)) && (Insert(q, d)[0] == d || (q != [] && Insert(q, d)[0] == q[0]))
    decreases |q|
  {
    if q == [] {
      assert Insert(q, d) == [d];
    } else {
      NotAfterIff(q[0], d);
      NotAfterIff(d, q[0]);
      OrderTail(q);
      BeforeOnce(d, q[0]);
      hide NotAfter, Before, InOrder;
      if Before(d, q[0]) {
        OrderCons(d, q);
      } else {
        InsertInOrder(q[1..], d);
        FirstNotAfter(q);
        OrderCons(q[0], Insert(q[1..], d));
      }
    }
  }

  lemma BeforeOnce(d: Delivery, e: Delivery)
    ensures Before(d, e) ==> !Before(e, d)
  {
    FrameLessTotal(d.frame, e.frame);
  }

  lemma FirstNotAfter(q: seq<Delivery>)
    requires q != [] && InOrder(q)
    ensures |q| > 1 ==> NotAfter(q[0], q[1..][0])
  {
    hide NotAfter;
  }

  // ---------------------------------------------------------------------
  // Along a run
  // ---------------------------------------------------------------------

  ghost predicate QueuesInOrder(s: Sys) {
    InOrder(s.link.toA) && InOrder(s.link.toB)
  }

  lemma QueuesTransmitting(cfg: Config, env: Env, l: Link, now: int, frame: bytes)
    requires InOrder(l.toA) && InOrder(l.toB)
    ensures var m := SendFromA(cfg, env, l, now, frame); InOrder(m.toA) && InOrder(m.toB)
    ensures var m := SendFromB(cfg, env, l, now, frame); InOrder(m.toA) && InOrder(m.toB)
  {
    hide InOrder, Insert;
    InsertInOrder(l.toB, Delivery(now + cfg.latencyMs, frame));
    InsertInOrder(l.toA, Delivery(now + cfg.latencyMs, frame));
  }

  lemma QueuesStep(cfg: Config, env: Env, s: Sys, step: Step)
    requires cfg.window.Valid() && QueuesInOrder(s) && Enabled(cfg, s, step)
    ensures QueuesInOrder(Apply(cfg, env, s, step))
  {
    hide InOrder, SendFromA, SendFromB, ParseReply, ParseData, RecordSend, DataFrame, Windows.Feed, CanSend, Drop;
    match step {
      case Receiving => OrderTail(s.link.toA);
      case Relaying =>
        OrderTail(s.link.toB);
        match ParseData(cfg, s.link.toB[0].frame) {
          case DataFor(sn, _) => QueuesTransmitting(cfg, env, PopB(s).link, s.now, AckFrame(s.ackSeq, sn));
          case Malformed =>
        }
      case Retrying(sn) => QueuesTransmitting(cfg, env, s.link, s.now, DataFrame(sn, s.payloads[sn].payload));
      case Sending => QueuesTransmitting(cfg, env, s.link, s.now, DataFrame(s.seqNo, s.pending[0].payload));
      case _ =>
    }
  }

  lemma {:induction false} QueuesAlong(cfg: Config, env: Env, s: Sys, steps: seq<Step>, t: Sys)
    requires cfg.window.Valid() && QueuesInOrder(s) && Leads(cfg, env, s, steps, t)
    ensures QueuesInOrder(t)
    decreases |steps|
  {
    hide Apply, Enabled, QueuesInOrder;
    if steps != [] {
      QueuesStep(cfg, env, s, steps[0]);
      QueuesAlong(cfg, env, Apply(cfg, env, s, steps[0]), steps[1..], t);
    }
  }

  /** In every reachable state the next frame handed over, in either direction, is due no later than any other one, and
      of those due at the same time it is the first one of a dictionary. */
  lemma NextDelivery(cfg: Config, env: Env, s: Sys, d: Delivery)
    requires cfg.window.Valid() && Reachable(cfg, env, s)
    ensures d in s.link.toA ==> NotAfter(s.link.toA[0], d)
    ensures d in s.link.toB ==> NotAfter(s.link.toB[0], d)
  {
    hide Leads, NotAfter;
    var start: nat, steps :| Leads(cfg, env, Init(start), steps, s);
    QueuesAlong(cfg, env, Init(start), steps, s);
    SelfNotAfter(d);
  }

  lemma SelfNotAfter(d: Delivery)
    ensures NotAfter(d, d)
  {
  }
}
