/** Exactly when transmissions overlap: the gate rounds the end of a transmission down to whole milliseconds, and
    the next frame goes out then if something lets it. */
module ArqOverlap {
  import opened Windows
  import opened ArqModel
  import opened ArqRuns
  import opened LogCounts
  import opened ArqInvariants
  import opened ArqCore
  import opened ArqPacing
  import opened ArqTurnaround
  import opened ArqSampling
  import opened ArqBackToBack
  import opened ArqFirstPair
  import ArqLatePair
  import ArqLink

  /** Another transmission can follow a frame of n bytes at the very moment the gate opens. Another window: there is
      room for it in the table; or the answer can be back; or, without retries, the frame has been given up, or
      the late answer to a window with the same SEQ arrives. Or the same window: it has expired and is resent. */
  predicate CanFollowAtOnce(cfg: Config, n: nat) {
    var slot := Slot(cfg, n);
    || (Allows(cfg, 2)
        && (|| cfg.maxInflight >= 2
            || 2 * cfg.latencyMs <= slot
            || (cfg.maxRetries == 0 && (cfg.ackTimeoutMs(n) <= slot || (slot >= 1 && Allows(cfg, 258))))))
    || (Allows(cfg, 1) && cfg.maxInflight >= 2 && cfg.maxRetries >= 1 && cfg.ackTimeoutMs(n) <= slot)
  }

  // ---------------------------------------------------------------------
  // What an overlap needs
  // ---------------------------------------------------------------------

  /** The window behind a transmission, as rows. */
  lemma RowsBehind(cfg: Config, env: Env, dims: nat, s: Sys, x: Event) returns (rows: seq<Row>)
    requires cfg.Valid() && Reachable(cfg, env, s) && RowsFit(env, dims) && x in Sends(s.log)
    ensures x.TxSent? && |rows| == cfg.window.W && Fit(rows, dims) && s.sent >= 1
    ensures x.toaMs == cfg.toaMs(Length(cfg, rows)) && x.ackTimeoutMs == cfg.ackTimeoutMs(Length(cfg, rows))
  {
    hide Reachable, Sends, TableInv, SampleInv, FateInv, CountInv, ArqLink.OriginInv, ArqLink.FrameInv, Flatten, Num;
    hide RowsFit;
    SendsAreSends(s.log);
    var i :| 0 <= i < |s.log| && s.log[i] == x;
    TransmittedPayload(cfg, env, s, i);
    CoreInvariant(cfg, env, s);
    assert SentInv(cfg, s, s.log[i]);
    FedFits(cfg, env, dims, s);
    var start := x.id * cfg.window.stride;
    rows := s.fed[start..start + cfg.window.W];
  }

  lemma SentIsAllowed(cfg: Config, env: Env, s: Sys)
    requires cfg.Valid() && Reachable(cfg, env, s)
    ensures Allows(cfg, s.sent)
  {
    hide Reachable, DataInv, SampleInv;
    CoreParts(cfg, env, s);
    SentAtMostGenerated(cfg, s);
  }

  lemma FollowsAtOnce(cfg: Config, n: nat, sent: nat, x: Event, y: Event)
    requires x.TxSent? && y.TxSent? && CanFollow(cfg, sent, x, y) && Allows(cfg, sent) && sent >= 1
    requires x.ackTimeoutMs == cfg.ackTimeoutMs(n) && y.ts == x.ts + Slot(cfg, n) && cfg.maxInflight >= 1
    ensures CanFollowAtOnce(cfg, n)
  {
    hide Slot;
  }

  lemma OverlapNeeds(cfg: Config, env: Env, dims: nat, s: Sys) returns (rows: seq<Row>)
    requires cfg.Valid() && Reachable(cfg, env, s) && RowsFit(env, dims) && HasOverlap(s.log)
    ensures cfg.guardMs == 0 && Fractional(cfg, dims, rows) && CanFollowAtOnce(cfg, Length(cfg, rows))
  {
    hide Reachable, Sends, Flatten, CanFollow, CanFollowAtOnce, RowsFit, Allows;
    var k: nat :| k + 1 < |Sends(s.log)| && OverlapAt(Sends(s.log), k);
    var x, y := Sends(s.log)[k], Sends(s.log)[k + 1];
    ChannelPacing(cfg, env, s, k);
    Turnaround(cfg, env, s, k);
    rows := RowsBehind(cfg, env, dims, s, x);
    SentIsAllowed(cfg, env, s);
    assert cfg.guardMs == 0;
    assert (x.toaMs + cfg.guardMs as real).Floor == x.toaMs.Floor;
    FollowsAtOnce(cfg, Length(cfg, rows), s.sent, x, y);
  }

  // ---------------------------------------------------------------------
  // The exact condition
  // ---------------------------------------------------------------------

  lemma OverlapHappens(cfg: Config, dims: nat, rows: seq<Row>) returns (env: Env, plan: nat -> Pause, m: nat)
    requires cfg.Valid() && cfg.guardMs == 0 && Fractional(cfg, dims, rows)
    requires CanFollowAtOnce(cfg, Length(cfg, rows))
    ensures RowsFit(env, dims) && HasOverlap(Loop(cfg, env, Init(0), plan, 0, m).log)
  {
    hide Flatten, Loop, Init, HasOverlap, RowsFit, Slot, Fractional;
    var n := Length(cfg, rows);
    if NeedsNoAnswer(cfg, n) {
      env, plan, m := Unanswered(cfg, dims, rows);
    } else if AnswersInTime(cfg, n) {
      env, plan, m := AnsweredFirst(cfg, dims, rows);
    } else {
      env, plan, m := ArqLatePair.LatePair(cfg, dims, rows);
    }
  }

  /** Some run of the transmit loop with rows of this length has two consecutive transmissions that overlap. */
  ghost predicate SomeOverlap(cfg: Config, dims: nat)
    requires cfg.window.Valid()
  {
    exists env: Env, start: nat, plan: nat -> Pause, m: nat ::
      RowsFit(env, dims) && HasOverlap(Loop(cfg, env, Init(start), plan, 0, m).log)
  }

  /** Transmissions of some run overlap if and only if there is no guard time, and some window takes a time on air
      that is not a whole number of milliseconds and can be followed at once. */
  lemma OverlapIff(cfg: Config, dims: nat)
    requires cfg.Valid()
    ensures SomeOverlap(cfg, dims)
            <==> cfg.guardMs == 0
                 && exists rows: seq<Row> ::
                      Fractional(cfg, dims, rows) && CanFollowAtOnce(cfg, Length(cfg, rows))
  {
    hide Reachable, HasOverlap, Fractional, CanFollowAtOnce, RowsFit, Loop, Init, Length;
    if SomeOverlap(cfg, dims) {
      var env: Env, start: nat, plan: nat -> Pause, m: nat :|
        RowsFit(env, dims) && HasOverlap(Loop(cfg, env, Init(start), plan, 0, m).log);
      InitReachable(cfg, env, start);
      LoopReachable(cfg, env, Init(start), plan, 0, m);
      var rows := OverlapNeeds(cfg, env, dims, Loop(cfg, env, Init(start), plan, 0, m));
    }
    if cfg.guardMs == 0 && exists rows: seq<Row> ::
         Fractional(cfg, dims, rows) && CanFollowAtOnce(cfg, Length(cfg, rows)) {
      var rows: seq<Row> :| Fractional(cfg, dims, rows) && CanFollowAtOnce(cfg, Length(cfg, rows));
      var env, plan, m := OverlapHappens(cfg, dims, rows);
      assert HasOverlap(Loop(cfg, env, Init(0), plan, 0, m).log);
    }
  }
}
