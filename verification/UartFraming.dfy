/** The incremental, resynchronising UART frame parser (loralink_mllc/radio/uart_framing.py). */
module UartFraming {
  import opened Basics
  import PacketCodec

  datatype Settings = Settings(maxPayload: int, rssiByte: bool) {
    predicate Valid() {
      1 <= maxPayload <= 255
    }

    /** Bytes that follow a frame on the wire. */
    function Trailer(): nat {
      if rssiByte then 1 else 0
    }
  }

  datatype ParsedFrame = ParsedFrame(frame: bytes, rssiDbm: Option<int>)

  datatype ParserError = MaxPayloadOutOfRange

  // ---------------------------------------------------------------------
  // What one call of `pop` does to the buffer
  // ---------------------------------------------------------------------

  /** What `pop` returns for a buffer, and the buffer it leaves. */
  function Scan(c: Settings, buf: bytes): (Option<ParsedFrame>, bytes)
    decreases |buf|
  {
    if |buf| < 2 then (None, buf)
    else if buf[0] > c.maxPayload then Scan(c, buf[1..])
    else if |buf| < 2 + buf[0] as int + c.Trailer() then (None, buf)
    else
      var end := 2 + buf[0] as int;
      var rssi := if c.rssiByte then Some(buf[end] as int - 256) else None;
      (Some(ParsedFrame(buf[..end], rssi)), buf[end + c.Trailer()..])
  }

  /** A buffer in which `pop` finds nothing and changes nothing. */
  predicate Incomplete(c: Settings, buf: bytes) {
    |buf| < 2 || (buf[0] <= c.maxPayload && |buf| < 2 + buf[0] as int + c.Trailer())
  }

  lemma {:induction false} ScanShrinks(c: Settings, buf: bytes)
    ensures Scan(c, buf).0.Some? ==> |Scan(c, buf).1| < |buf|
    ensures Scan(c, buf).0.None? ==> Incomplete(c, Scan(c, buf).1)
    decreases |buf|
  {
    if |buf| >= 2 && buf[0] > c.maxPayload {
      ScanShrinks(c, buf[1..]);
    }
  }

  /** Popping until nothing is left to pop: all frames, and the final residue. */
  function Drain(c: Settings, buf: bytes): (seq<ParsedFrame>, bytes)
    decreases |buf|
  {
    ScanShrinks(c, buf);
    var (frame, rest) := Scan(c, buf);
    if frame.None? then ([], rest)
    else
      var (more, residue) := Drain(c, rest);
      ([frame.value] + more, residue)
  }

  // ---------------------------------------------------------------------
  // The parser object
  // ---------------------------------------------------------------------

  class UartFrameParser {
    const settings: Settings
    var buf: bytes

    ghost predicate Valid() {
      settings.Valid()
    }

    constructor (s: Settings)
      requires s.Valid()
      ensures Valid() && settings == s && buf == []
    {
      settings := s;
      buf := [];
    }

    /** The constructor of the program, with its range check as an error result. */
    static method Create(maxPayload: int, rssiByte: bool)
      returns (r: Result<UartFrameParser, ParserError>)
      ensures r.Ok? <==> 1 <= maxPayload <= 255
      ensures r.Ok? ==> fresh(r.value) && r.value.Valid() && r.value.buf == []
                        && r.value.settings == Settings(maxPayload, rssiByte)
    {
      if maxPayload <= 0 || maxPayload > 255 {
        return Err(MaxPayloadOutOfRange);
      }
      var parser := new UartFrameParser(Settings(maxPayload, rssiByte));
      return Ok(parser);
    }

    method Feed(data: bytes)
      modifies this
      ensures buf == old(buf) + data
    {
      if data != [] {
        buf := buf + data;
      }
    }

    method Pop() returns (r: Option<ParsedFrame>)
      requires Valid()
      modifies this
      ensures (r, buf) == Scan(settings, old(buf))
    {
      while true
        invariant Scan(settings, buf) == Scan(settings, old(buf))
        decreases |buf|
      {
        if |buf| < 2 {
          return None;
        }
        var length: int := buf[0];
        if length > settings.maxPayload {
          buf := buf[1..];
          continue;
        }
        var totalLen := 2 + length + (if settings.rssiByte then 1 else 0);
        if |buf| < totalLen {
          return None;
        }
        var frameEnd := 2 + length;
        var frame := buf[..frameEnd];
        var rssiDbm: Option<int> := None;
        if settings.rssiByte {
          rssiDbm := Some(buf[frameEnd] as int - 256);
        }
        buf := buf[totalLen..];
        return Some(ParsedFrame(frame, rssiDbm));
      }
    }

    method BufferedBytes() returns (n: nat)
      ensures n == |buf|
    {
      n := |buf|;
    }
  }

  // ---------------------------------------------------------------------
  // Reference grammar: a stream is noise and frames, then an unfinished tail
  // ---------------------------------------------------------------------

  datatype Token = Noise(b: byte) | Framed(seqNo: byte, payload: bytes, rssi: Option<byte>)

  predicate WellFormed(c: Settings, t: Token) {
    match t
    case Noise(b) => b > c.maxPayload
    case Framed(_, payload, rssi) => |payload| <= c.maxPayload && rssi.Some? == c.rssiByte
  }

  /** The bytes of a token on the wire; an over-long payload has no wire form. */
  function Wire(t: Token): bytes {
    match t
    case Noise(b) => [b]
    case Framed(s, payload, rssi) =>
      if |payload| > 255 then []
      else [|payload|, s] + payload + (if rssi.Some? then [rssi.value] else [])
  }

  function Wires(ts: seq<Token>): bytes {
    if ts == [] then [] else Wire(ts[0]) + Wires(ts[1..])
  }

  function Frames(ts: seq<Token>): seq<ParsedFrame> {
    if ts == [] then []
    else
      match ts[0]
      case Noise(_) => Frames(ts[1..])
      case Framed(s, payload, rssi) =>
        if |payload| > 255 then Frames(ts[1..])
        else [ParsedFrame([|payload|, s] + payload,
                          if rssi.Some? then Some(rssi.value as int - 256) else None)] + Frames(ts[1..])
  }

  /** A decomposition of a stream: legal tokens, then a tail the parser has to keep. A last noise
      byte stays buffered until another byte follows it, so it belongs to the tail. */
  ghost predicate Decomposes(c: Settings, ts: seq<Token>, tail: bytes) {
    && (forall i :: 0 <= i < |ts| ==> WellFormed(c, ts[i]))
    && Incomplete(c, tail)
    && (tail == [] ==> ts == [] || ts[|ts| - 1].Framed?)
  }

  /** One frame at the front of a buffer is popped, leaving what follows it. */
  lemma DrainsFramed(c: Settings, t: Token, stream: bytes)
    requires c.Valid() && WellFormed(c, t) && t.Framed?
    ensures Drain(c, Wire(t) + stream) == (Frames([t]) + Drain(c, stream).0, Drain(c, stream).1)
  {
    var whole := Wire(t) + stream;
    var end := 2 + |t.payload|;
    assert whole[..end] == [|t.payload|, t.seqNo] + t.payload;
    assert whole[end + c.Trailer()..] == stream;
    assert c.rssiByte ==> whole[end] == t.rssi.value;
    assert [t][1..] == [];
    assert Frames([t]) == [Scan(c, whole).0.value];
  }

  lemma WiresCons(t: Token, ts: seq<Token>, tail: bytes)
    ensures Wires([t] + ts) + tail == Wire(t) + (Wires(ts) + tail)
    ensures Frames([t] + ts) == Frames([t]) + Frames(ts)
  {
    assert ([t] + ts)[1..] == ts;
    assert [t][1..] == [];
  }

  lemma DecomposesTail(c: Settings, ts: seq<Token>, tail: bytes)
    requires c.Valid() && Decomposes(c, ts, tail) && ts != []
    ensures Decomposes(c, ts[1..], tail) && WellFormed(c, ts[0]) && ts == [ts[0]] + ts[1..]
    ensures ts[0].Noise? ==> |Wires(ts[1..]) + tail| >= 1
  {
    if |ts| > 1 {
      assert ts[1..][|ts| - 2] == ts[|ts| - 1];
      WireNonempty(c, ts[1..]);
    }
  }

  /** Every legal decomposition is what the parser returns: its frames, in order, and its tail. */
  lemma {:induction false} DrainsDecomposition(c: Settings, ts: seq<Token>, tail: bytes)
    requires c.Valid() && Decomposes(c, ts, tail)
    ensures Drain(c, Wires(ts) + tail) == (Frames(ts), tail)
    decreases |ts|
  {
    if ts == [] {
      assert Wires(ts) + tail == tail;
    } else {
      DecomposesTail(c, ts, tail);
      DrainsDecomposition(c, ts[1..], tail);
      WiresCons(ts[0], ts[1..], tail);
      if ts[0].Noise? {
        SkipsNoise(c, ts[0].b, Wires(ts[1..]) + tail);
      } else {
        DrainsFramed(c, ts[0], Wires(ts[1..]) + tail);
      }
    }
  }

  lemma SkipsNoise(c: Settings, b: byte, stream: bytes)
    requires b > c.maxPayload && |stream| >= 1
    ensures Drain(c, [b] + stream) == Drain(c, stream)
  {
    assert ([b] + stream)[1..] == stream;
    assert Scan(c, [b] + stream) == Scan(c, stream);
  }

  lemma WireNonempty(c: Settings, ts: seq<Token>)
    requires c.Valid() && ts != [] && WellFormed(c, ts[0])
    ensures |Wires(ts)| >= 1
  {
  }

  /** Every stream has a legal decomposition. */
  lemma {:induction false} EveryStreamDecomposes(c: Settings, stream: bytes) returns (ts: seq<Token>, tail: bytes)
    requires c.Valid()
    ensures Decomposes(c, ts, tail) && stream == Wires(ts) + tail
    decreases |stream|
  {
    if Incomplete(c, stream) {
      return [], stream;
    }
    var head, rest := FirstToken(c, stream);
    var more, last := EveryStreamDecomposes(c, rest);
    ts, tail := [head] + more, last;
    WiresCons(head, more, last);
    assert tail == [] && more == [] ==> rest == [];
  }

  lemma FirstToken(c: Settings, stream: bytes) returns (head: Token, rest: bytes)
    requires c.Valid() && !Incomplete(c, stream)
    ensures WellFormed(c, head) && stream == Wire(head) + rest && |rest| < |stream|
    ensures head.Noise? ==> rest != []
  {
    if stream[0] > c.maxPayload {
      head, rest := Noise(stream[0]), stream[1..];
    } else {
      var end := 2 + stream[0] as int;
      var rssi := if c.rssiByte then Some(stream[end]) else None;
      head, rest := Framed(stream[1], stream[2..end], rssi), stream[end + c.Trailer()..];
    }
  }

  /** The parser computes exactly the grammar: a result is right if and only if some legal
      decomposition of the stream has those frames and that tail. */
  lemma DrainIffDecomposition(c: Settings, stream: bytes, frames: seq<ParsedFrame>, tail: bytes)
    requires c.Valid()
    ensures Drain(c, stream) == (frames, tail)
            <==> exists ts :: Decomposes(c, ts, tail) && stream == Wires(ts) + tail && frames == Frames(ts)
  {
    var ts, last := EveryStreamDecomposes(c, stream);
    DrainsDecomposition(c, ts, last);
    forall us | Decomposes(c, us, tail) && stream == Wires(us) + tail
      ensures Drain(c, stream) == (Frames(us), tail)
    {
      DrainsDecomposition(c, us, tail);
    }
  }

  // ---------------------------------------------------------------------
  // Chunking independence
  // ---------------------------------------------------------------------

  datatype Call = FeedCall(data: bytes) | PopCall

  /** Runs a list of calls: the frames popped and the buffer left behind. */
  function Run(c: Settings, calls: seq<Call>, buf: bytes): (seq<ParsedFrame>, bytes) {
    if calls == [] then ([], buf)
    else
      match calls[0]
      case FeedCall(data) => Run(c, calls[1..], buf + data)
      case PopCall =>
        var (frame, rest) := Scan(c, buf);
        var (more, final) := Run(c, calls[1..], rest);
        ((if frame.Some? then [frame.value] else []) + more, final)
  }

  function Stream(calls: seq<Call>): bytes {
    if calls == [] then []
    else (if calls[0].FeedCall? then calls[0].data else []) + Stream(calls[1..])
  }

  /** Bytes that arrive after a pop do not change what that pop returned. */
  lemma {:induction false} PopCommutesWithLaterBytes(c: Settings, buf: bytes, later: bytes)
    requires c.Valid()
    ensures var (frame, rest) := Scan(c, buf);
            Drain(c, buf + later) ==
            ((if frame.Some? then [frame.value] else []) + Drain(c, rest + later).0,
             Drain(c, rest + later).1)
    decreases |buf|
  {
    ScanShrinks(c, buf);
    assert forall fs: seq<ParsedFrame> :: [] + fs == fs;
    if |buf| < 2 {
    } else if buf[0] > c.maxPayload {
      PopCommutesWithLaterBytes(c, buf[1..], later);
      assert (buf + later)[1..] == buf[1..] + later;
      assert Scan(c, buf + later) == Scan(c, buf[1..] + later);
    } else if |buf| < 2 + buf[0] as int + c.Trailer() {
      assert Scan(c, buf) == (None, buf);
    } else {
      var end := 2 + buf[0] as int;
      assert (buf + later)[..end] == buf[..end];
      assert (buf + later)[end + c.Trailer()..] == buf[end + c.Trailer()..] + later;
    }
  }

  /** However a stream is cut into `feed` calls and wherever `pop` calls are interleaved, the frames
      popped so far followed by those still to pop, and the residue, are those of the whole stream. */
  lemma {:induction false} ChunkingIndependence(c: Settings, calls: seq<Call>, buf: bytes)
    requires c.Valid()
    ensures var (popped, left) := Run(c, calls, buf);
            Drain(c, buf + Stream(calls)) == (popped + Drain(c, left).0, Drain(c, left).1)
    decreases |calls|
  {
    if calls == [] {
      assert buf + Stream(calls) == buf;
      assert [] + Drain(c, buf).0 == Drain(c, buf).0;
    } else {
      hide Drain, Scan;
      match calls[0] {
        case FeedCall(data) =>
          ChunkingIndependence(c, calls[1..], buf + data);
          assert buf + Stream(calls) == buf + data + Stream(calls[1..]);
        case PopCall =>
          var (frame, rest) := Scan(c, buf);
          var (more, final) := Run(c, calls[1..], rest);
          ChunkingIndependence(c, calls[1..], rest);
          PopCommutesWithLaterBytes(c, buf, Stream(calls[1..]));
          assert Stream(calls) == Stream(calls[1..]);
          var head := if frame.Some? then [frame.value] else [];
          assert head + (more + Drain(c, final).0) == (head + more) + Drain(c, final).0;
      }
    }
  }

  // ---------------------------------------------------------------------
  // Bounded residue, accepted frames, round trip
  // ---------------------------------------------------------------------

  /** Once `pop` has returned nothing, fewer bytes are buffered than one largest frame. */
  lemma ResidueBounded(c: Settings, buf: bytes)
    requires c.Valid() && Scan(c, buf).0.None?
    ensures |Scan(c, buf).1| < 2 + c.maxPayload + c.Trailer()
  {
    ScanShrinks(c, buf);
  }

  /** Every popped frame is a packet under the same limit and serialises back to itself. */
  lemma {:induction false} PoppedFrameIsPacket(c: Settings, buf: bytes)
    requires c.Valid() && Scan(c, buf).0.Some?
    ensures var f := Scan(c, buf).0.value;
            && PacketCodec.FromBytes(f.frame, Some(c.maxPayload)).Ok?
            && PacketCodec.ToBytes(PacketCodec.FromBytes(f.frame, Some(c.maxPayload)).value, Some(c.maxPayload))
               == Ok(f.frame)
            && f.rssiDbm.Some? == c.rssiByte
            && (f.rssiDbm.Some? ==> -256 <= f.rssiDbm.value < 0)
    decreases |buf|
  {
    if buf[0] > c.maxPayload {
      PoppedFrameIsPacket(c, buf[1..]);
    } else {
      var f := Scan(c, buf).0.value;
      assert f.frame[0] == buf[0];
      PacketCodec.RoundTrip(PacketCodec.FromBytes(f.frame, Some(c.maxPayload)).value, f.frame, Some(c.maxPayload));
    }
  }

  /** A packet and the RSSI byte the module appends to it. */
  datatype Reception = Reception(packet: PacketCodec.Packet, rssi: byte)

  predicate Sendable(c: Settings, r: Reception) {
    PacketCodec.ToBytes(r.packet, Some(c.maxPayload)).Ok?
  }

  function TokenOf(c: Settings, r: Reception): Token
    requires Sendable(c, r)
  {
    Framed(r.packet.seqNo, r.packet.payload, if c.rssiByte then Some(r.rssi) else None)
  }

  /** The bytes a module delivers for one received packet. */
  function BytesOf(c: Settings, r: Reception): bytes
    requires Sendable(c, r)
  {
    PacketCodec.ToBytes(r.packet, Some(c.maxPayload)).value + (if c.rssiByte then [r.rssi] else [])
  }

  function FrameOf(c: Settings, r: Reception): ParsedFrame
    requires Sendable(c, r)
  {
    ParsedFrame(PacketCodec.ToBytes(r.packet, Some(c.maxPayload)).value,
                if c.rssiByte then Some(r.rssi as int - 256) else None)
  }

  ghost predicate AllSendable(c: Settings, rs: seq<Reception>) {
    forall i :: 0 <= i < |rs| ==> Sendable(c, rs[i])
  }

  ghost function AsTokens(c: Settings, rs: seq<Reception>): (ts: seq<Token>)
    requires AllSendable(c, rs)
  {
    if rs == [] then [] else [TokenOf(c, rs[0])] + AsTokens(c, rs[1..])
  }

  ghost function Delivered(c: Settings, rs: seq<Reception>): bytes
    requires AllSendable(c, rs)
  {
    if rs == [] then [] else BytesOf(c, rs[0]) + Delivered(c, rs[1..])
  }

  ghost function Expected(c: Settings, rs: seq<Reception>): seq<ParsedFrame>
    requires AllSendable(c, rs)
  {
    if rs == [] then [] else [FrameOf(c, rs[0])] + Expected(c, rs[1..])
  }

  lemma TokenOfReception(c: Settings, r: Reception, rest: seq<Token>)
    requires c.Valid() && Sendable(c, r)
    ensures WellFormed(c, TokenOf(c, r)) && TokenOf(c, r).Framed? && Wire(TokenOf(c, r)) == BytesOf(c, r)
    ensures Frames([TokenOf(c, r)] + rest) == [FrameOf(c, r)] + Frames(rest)
  {
    assert ([TokenOf(c, r)] + rest)[1..] == rest;
  }

  ghost predicate AllFramed(c: Settings, ts: seq<Token>) {
    forall i :: 0 <= i < |ts| ==> WellFormed(c, ts[i]) && ts[i].Framed?
  }

  lemma {:induction false} TokensOfReceptions(c: Settings, rs: seq<Reception>)
    requires c.Valid() && AllSendable(c, rs)
    ensures Wires(AsTokens(c, rs)) == Delivered(c, rs)
    ensures Frames(AsTokens(c, rs)) == Expected(c, rs)
    ensures AllFramed(c, AsTokens(c, rs)) && |AsTokens(c, rs)| == |rs|
    decreases |rs|
  {
    if rs != [] {
      hide WellFormed, TokenOf, BytesOf, FrameOf, Wire, Frames, Sendable;
      TokensOfReceptions(c, rs[1..]);
      TokenOfReception(c, rs[0], AsTokens(c, rs[1..]));
      assert AsTokens(c, rs)[1..] == AsTokens(c, rs[1..]);
    }
  }

  lemma {:induction false} SkipsNoiseRun(c: Settings, noise: bytes, stream: bytes)
    requires forall i :: 0 <= i < |noise| ==> noise[i] > c.maxPayload
    requires |stream| >= 1
    ensures Drain(c, noise + stream) == Drain(c, stream)
    decreases |noise|
  {
    if noise == [] {
      assert noise + stream == stream;
    } else {
      SkipsNoiseRun(c, noise[1..], stream);
      SkipsNoise(c, noise[0], noise[1..] + stream);
      assert noise + stream == [noise[0]] + (noise[1..] + stream);
    }
  }

  /** Packets sent after any run of bytes that cannot be a length come out exactly, in order, with
      their RSSI, and nothing stays in the buffer. */
  lemma RoundTripAfterNoise(c: Settings, noise: bytes, rs: seq<Reception>)
    requires c.Valid() && rs != [] && AllSendable(c, rs)
    requires forall i :: 0 <= i < |noise| ==> noise[i] > c.maxPayload
    ensures Drain(c, noise + Delivered(c, rs)) == (Expected(c, rs), [])
  {
    hide Drain, Frames, Wires, Sendable, Delivered, Expected, AsTokens;
    var ts := AsTokens(c, rs);
    TokensOfReceptions(c, rs);
    WireNonempty(c, ts);
    SkipsNoiseRun(c, noise, Delivered(c, rs));
    DrainsDecomposition(c, ts, []);
    assert Wires(ts) + [] == Delivered(c, rs);
  }

  /** Noise alone leaves its last byte behind: the parser does not look at fewer than two bytes. */
  lemma NoiseAlone(c: Settings, noise: bytes)
    requires c.Valid() && noise != [] && forall i :: 0 <= i < |noise| ==> noise[i] > c.maxPayload
    ensures Drain(c, noise) == ([], [noise[|noise| - 1]])
  {
    var n := |noise| - 1;
    SkipsNoiseRun(c, noise[..n], [noise[n]]);
    assert noise[..n] + [noise[n]] == noise;
  }
}
