/** Parsed log lines, as the reporting scripts see them. */
module LogLines {
  import opened Basics

  datatype Role = TxRole | RxRole

  datatype Kind = SentKind | AckKind | FailKind | ReceivedKind | EchoKind | ParseFailKind | OtherKind

  /** One line. A field that is missing or not a number is `None`. */
  datatype Record = Record(
    role: Role, kind: Kind, tsMs: Option<int>, sn: Option<int>, ackSeq: Option<int>,
    attempt: Option<int>, windowId: Option<int>, toaMs: Option<real>)

  /** Python's `x or default`: a missing number and zero both yield the default. */
  function Or(x: Option<int>, default: int): int {
    if x.None? || x.value == 0 then default else x.value
  }
}
