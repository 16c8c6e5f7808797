/** The application frame LEN | SEQ | PAYLOAD (loralink_mllc/protocol/packet.py). */
module PacketCodec {
  import opened Basics

  datatype PacketError = SeqOutOfRange | BadLimit | TooShort | PayloadTooLarge | LengthMismatch

  /** A packet as the program builds it: `seqNo` is only range-checked when it is serialised. */
  datatype Packet = Packet(payload: bytes, seqNo: int)

  /** An absent limit means the largest length one byte can announce. */
  function Limit(maxPayload: Option<int>): int {
    match maxPayload
    case None => 255
    case Some(m) => m
  }

  function ToBytes(p: Packet, maxPayload: Option<int>): Result<bytes, PacketError> {
    if !(0 <= p.seqNo <= 255) then Err(SeqOutOfRange)
    else if Limit(maxPayload) <= 0 || Limit(maxPayload) > 255 then Err(BadLimit)
    else if |p.payload| > Limit(maxPayload) then Err(PayloadTooLarge)
    else Ok([|p.payload|, p.seqNo] + p.payload)
  }

  function FromBytes(frame: bytes, maxPayload: Option<int>): Result<Packet, PacketError> {
    if |frame| < 2 then Err(TooShort)
    else if Limit(maxPayload) <= 0 || Limit(maxPayload) > 255 then Err(BadLimit)
    else if frame[0] > Limit(maxPayload) then Err(PayloadTooLarge)
    else if |frame| != frame[0] as int + 2 then Err(LengthMismatch)
    else Ok(Packet(frame[2..], frame[1]))
  }

  /** Parsing and serialising are inverse to each other in both directions, under every limit. */
  lemma RoundTrip(p: Packet, frame: bytes, maxPayload: Option<int>)
    ensures FromBytes(frame, maxPayload) == Ok(p) <==> ToBytes(p, maxPayload) == Ok(frame)
  {
    if FromBytes(frame, maxPayload) == Ok(p) {
      assert frame == [frame[0], frame[1]] + frame[2..];
    }
    if ToBytes(p, maxPayload) == Ok(frame) {
      assert frame[2..] == p.payload;
    }
  }

  /** Which error a frame or a packet meets: the first of the checks, in this order, that it fails. */
  lemma ErrorIff(frame: bytes, p: Packet, maxPayload: Option<int>, e: PacketError)
    ensures var limit := if maxPayload.Some? then maxPayload.value else 255;
            && (FromBytes(frame, maxPayload) == Err(e) <==>
                  match e
                  case TooShort => |frame| < 2
                  case BadLimit => |frame| >= 2 && !(1 <= limit <= 255)
                  case PayloadTooLarge => |frame| >= 2 && 1 <= limit <= 255 && frame[0] > limit
                  case LengthMismatch =>
                    |frame| >= 2 && 1 <= limit <= 255 && frame[0] <= limit && |frame| - 2 != frame[0]
                  case SeqOutOfRange => false)
            && (ToBytes(p, maxPayload) == Err(e) <==>
                  match e
                  case SeqOutOfRange => p.seqNo < 0 || p.seqNo > 255
                  case BadLimit => 0 <= p.seqNo <= 255 && !(1 <= limit <= 255)
                  case PayloadTooLarge => 0 <= p.seqNo <= 255 && 1 <= limit <= 255 && |p.payload| > limit
                  case _ => false)
  {
  }

  /** No accepted frame is a proper prefix of another one, so LEN alone delimits frames. */
  lemma PrefixFree(f: bytes, g: bytes, maxPayload: Option<int>)
    requires FromBytes(f, maxPayload).Ok? && FromBytes(g, maxPayload).Ok?
    requires f <= g
    ensures f == g
  {
    assert f[0] == g[0];
  }
}
