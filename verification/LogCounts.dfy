/** Counting events of a log. */
module LogCounts {
  import opened Basics
  import opened ArqModel

  datatype Kind = AnySent | Resent | Acked | Failed | Received | Echoed | Unreadable

  predicate Is(kind: Kind, e: Event) {
    match kind
    case AnySent => e.TxSent?
    case Resent => e.TxSent? && e.attempt > 1
    case Acked => e.AckReceived?
    case Failed => e.TxFailed?
    case Received => e.RxOk?
    case Echoed => e.AckSent?
    case Unreadable => e.TxParseFail? || e.RxParseFail?
  }

  function Num(kind: Kind, log: seq<Event>): nat {
    if log == [] then 0
    else Num(kind, log[..|log| - 1]) + (if Is(kind, log[|log| - 1]) then 1 else 0)
  }

  /** Total time on air of the logged transmissions. */
  function ToaSum(log: seq<Event>): real {
    if log == [] then 0.0
    else ToaSum(log[..|log| - 1]) + (if log[|log| - 1].TxSent? then log[|log| - 1].toaMs else 0.0)
  }

  /** How often window w was reported acknowledged or failed. */
  function Resolutions(log: seq<Event>, w: nat): nat {
    if log == [] then 0
    else Resolutions(log[..|log| - 1], w) + (if Resolves(log[|log| - 1], w) then 1 else 0)
  }

  predicate Resolves(e: Event, w: nat) {
    (e.AckReceived? || e.TxFailed?) && e.window == Some(w)
  }

  lemma Snoc(log: seq<Event>, e: Event)
    ensures forall kind :: Num(kind, log + [e]) == Num(kind, log) + (if Is(kind, e) then 1 else 0)
    ensures ToaSum(log + [e]) == ToaSum(log) + (if e.TxSent? then e.toaMs else 0.0)
    ensures forall w :: Resolutions(log + [e], w) == Resolutions(log, w) + (if Resolves(e, w) then 1 else 0)
  {
    assert (log + [e])[..|log + [e]| - 1] == log;
  }

  lemma Snoc2(log: seq<Event>, e: Event, f: Event)
    ensures forall kind :: Num(kind, log + [e, f])
                           == Num(kind, log) + (if Is(kind, e) then 1 else 0) + (if Is(kind, f) then 1 else 0)
    ensures ToaSum(log + [e, f])
            == ToaSum(log) + (if e.TxSent? then e.toaMs else 0.0) + (if f.TxSent? then f.toaMs else 0.0)
    ensures forall w :: Resolutions(log + [e, f], w)
                        == Resolutions(log, w) + (if Resolves(e, w) then 1 else 0) + (if Resolves(f, w) then 1 else 0)
  {
    Snoc(log, e);
    Snoc(log + [e], f);
    assert log + [e, f] == log + [e] + [f];
  }

  /** The window ids acknowledged by a log, in order. */
  function AckIds(log: seq<Event>): seq<Option<nat>> {
    if log == [] then []
    else AckIds(log[..|log| - 1]) + (if log[|log| - 1].AckReceived? then [log[|log| - 1].window] else [])
  }

  lemma AckIdsSnoc(log: seq<Event>, e: Event)
    ensures AckIds(log + [e]) == if e.AckReceived? then AckIds(log) + [e.window] else AckIds(log)
  {
    assert (log + [e])[..|log + [e]| - 1] == log;
  }
}
