/** The log files a run leaves behind. */
module LogFile {
  import opened Basics
  import opened ArqModel
  import opened LogLines

  /** Events of the transmit node; it logs frames it cannot parse under the receiver's event name. */
  predicate IsTx(e: Event) {
    e.TxSent? || e.AckReceived? || e.TxFailed? || e.TxParseFail?
  }

  /** The log line of an event, with or without its `window_id` field. */
  function RecordOf(e: Event, keepId: bool): Record {
    match e
    case TxSent(ts, id, sn, _, toaMs, _, _, attempt, _) =>
      Record(TxRole, SentKind, Some(ts), Some(sn), None, Some(attempt), if keepId then Some(id) else None, Some(toaMs))
    case AckReceived(ts, sn, window, _, _, _) =>
      Record(TxRole, AckKind, Some(ts), None, Some(sn), None, if keepId then window else None, None)
    case TxFailed(ts, sn, window, _) =>
      Record(TxRole, FailKind, Some(ts), Some(sn), None, None, if keepId then window else None, None)
    case TxParseFail(ts) => Record(TxRole, ParseFailKind, Some(ts), None, None, None, None, None)
    case RxOk(ts, sn, _) => Record(RxRole, ReceivedKind, Some(ts), Some(sn), None, None, None, None)
    case AckSent(ts, sn) => Record(RxRole, EchoKind, Some(ts), None, Some(sn), None, None, None)
    case RxParseFail(ts) => Record(RxRole, ParseFailKind, Some(ts), None, None, None, None, None)
  }

  /** The log file of the transmit node, in which `keep` says of each event whether its `window_id`
      has survived. */
  function TxFile(log: seq<Event>, keep: nat -> bool): seq<Record> {
    if log == [] then []
    else
      var n := |log| - 1;
      TxFile(log[..n], keep) + (if IsTx(log[n]) then [RecordOf(log[n], keep(n))] else [])
  }

  /** The lines of both nodes in the order in which they were written. */
  function BothFiles(log: seq<Event>, keep: nat -> bool): seq<Record> {
    if log == [] then []
    else BothFiles(log[..|log| - 1], keep) + [RecordOf(log[|log| - 1], keep(|log| - 1))]
  }

  ghost predicate AllKept(keep: nat -> bool) {
    forall i :: keep(i)
  }
}
