/** The Standard Bus client: resynchronising frame reader and request/reply exchange. */
module StdBusClient {
  import opened Bits
  import opened Wrappers
  import opened Framing
  import opened Crc
  import opened CrcOrder
  import T = SerialTransport
  import Payload
  import Tlv

  const HEADER_LEN := 6
  const DCRC_LEN := 2
  const SCAN_LIMIT := 256
  const MAX_PAYLOAD := 512
  const HOST_MAC := 0x00
  const ADDR_OFFSET := 0x0F
  const DATA_EXPECTING_REPLY := 0x05

  // ---------------------------------------------------------------- reading from a flat byte sequence

  datatype Read =
    | Got(frame: seq<Byte>, rest: seq<Byte>)
    | NoPreamble(scanned: nat, rest: seq<Byte>)
    | TooLong(plen: nat, rest: seq<Byte>)
    | Starved

  /** Header, payload and data CRC after the preamble. */
  function ReadBody(s: seq<Byte>): Read
  {
    if |s| < HEADER_LEN then Starved
    else
      var plen := Word(s[3], s[4]);
      if plen == 0 then Got(PREAMBLE + s[..HEADER_LEN], s[HEADER_LEN..])
      else if plen > MAX_PAYLOAD then TooLong(plen, s[HEADER_LEN..])
      else if |s| < HEADER_LEN + plen + DCRC_LEN then Starved
      else Got(PREAMBLE + s[..HEADER_LEN + plen + DCRC_LEN], s[HEADER_LEN + plen + DCRC_LEN..])
  }

  /** The scan takes one byte, or two when the first is 55, and gives up past its limit. */
  function Scan(s: seq<Byte>, scanned: nat): Read
    decreases |s|
  {
    if s == [] then Starved
    else if s[0] == 0x55 then
      if |s| < 2 then Starved
      else if s[1] == 0xFF then ReadBody(s[2..])
      else if scanned + 2 > SCAN_LIMIT then NoPreamble(scanned + 2, s[2..])
      else Scan(s[2..], scanned + 2)
    else if scanned + 1 > SCAN_LIMIT then NoPreamble(scanned + 1, s[1..])
    else Scan(s[1..], scanned + 1)
  }

  lemma ScanShort(s: seq<Byte>, scanned: nat)
    ensures s == [] || s == [0x55] ==> Scan(s, scanned) == Starved
  {
  }

  lemma ScanOne(b: Byte, rest: seq<Byte>, scanned: nat)
    requires b != 0x55
    ensures Scan([b] + rest, scanned)
         == if scanned + 1 > SCAN_LIMIT then NoPreamble(scanned + 1, rest) else Scan(rest, scanned + 1)
  {
    assert ([b] + rest)[1..] == rest;
  }

  lemma ScanPair(b2: Byte, rest: seq<Byte>, scanned: nat)
    ensures Scan([0x55, b2] + rest, scanned)
         == if b2 == 0xFF then ReadBody(rest)
            else if scanned + 2 > SCAN_LIMIT then NoPreamble(scanned + 2, rest)
            else Scan(rest, scanned + 2)
  {
    assert ([0x55, b2] + rest)[2..] == rest;
  }

  // ---------------------------------------------------------------- garbage and resynchronisation

  /** Whether the scan reads `g` as whole tokens, none of them the preamble. */
  predicate Tokens(g: seq<Byte>)
    decreases |g|
  {
    if g == [] then true
    else if g[0] != 0x55 then Tokens(g[1..])
    else |g| >= 2 && g[1] != 0xFF && Tokens(g[2..])
  }

  /** Whole tokens within the limit are skipped, whatever follows. */
  lemma {:induction false} SkipTokens(g: seq<Byte>, s: seq<Byte>, scanned: nat)
    requires Tokens(g) && scanned + |g| <= SCAN_LIMIT
    ensures Scan(g + s, scanned) == Scan(s, scanned + |g|)
    decreases |g|
  {
    hide Scan, ReadBody;
    if g == [] {
      assert g + s == s;
    } else if g[0] != 0x55 {
      assert g + s == [g[0]] + (g[1..] + s);
      ScanOne(g[0], g[1..] + s, scanned);
      SkipTokens(g[1..], s, scanned + 1);
    } else {
      assert g + s == [0x55, g[1]] + (g[2..] + s);
      ScanPair(g[1], g[2..] + s, scanned);
      SkipTokens(g[2..], s, scanned + 2);
    }
  }

  /** Whatever the scan returns was preceded by whole tokens within the limit. */
  lemma {:induction false} ScanSound(s: seq<Byte>, scanned: nat) returns (g: seq<Byte>)
    requires Scan(s, scanned).Got? && scanned <= SCAN_LIMIT
    ensures Tokens(g) && scanned + |g| <= SCAN_LIMIT
    ensures s == g + (Scan(s, scanned).frame + Scan(s, scanned).rest)
    decreases |s|
  {
    hide ReadBody;
    var r := Scan(s, scanned);
    if s[0] == 0x55 && s[1] == 0xFF {
      g := [];
      BodyParts(s[2..]);
      assert s == PREAMBLE + s[2..];
      assert PREAMBLE + r.frame[2..] == r.frame;
    } else {
      var k := if s[0] == 0x55 then 2 else 1;
      var h := ScanSound(s[k..], scanned + k);
      g := s[..k] + h;
      assert g[k..] == h;
      Join(s, k, h, r.frame + r.rest);
    }
  }

  lemma Join(s: seq<Byte>, k: nat, h: seq<Byte>, x: seq<Byte>)
    requires k <= |s| && s[k..] == h + x
    ensures s == s[..k] + h + x
  {
  }

  lemma BodyParts(s: seq<Byte>)
    requires ReadBody(s).Got?
    ensures PREAMBLE <= ReadBody(s).frame && s == ReadBody(s).frame[2..] + ReadBody(s).rest
  {
  }

  /** A frame that is read does not announce more than the reader takes. */
  lemma {:induction false} ReadFramesFit(s: seq<Byte>, scanned: nat)
    requires Scan(s, scanned).Got?
    ensures var frame := Scan(s, scanned).frame; |frame| >= 8 && Word(frame[5], frame[6]) <= MAX_PAYLOAD
    decreases |s|
  {
    if s[0] == 0x55 && s[1] == 0xFF {
      BodyFits(s[2..]);
    } else {
      ReadFramesFit(s[if s[0] == 0x55 then 2 else 1..], scanned + if s[0] == 0x55 then 2 else 1);
    }
  }

  lemma BodyFits(s: seq<Byte>)
    requires ReadBody(s).Got?
    ensures var frame := ReadBody(s).frame; |frame| >= 8 && Word(frame[5], frame[6]) <= MAX_PAYLOAD
  {
  }

  /** What the reader makes of an encoding behind its preamble: the whole frame, or its length if that is too much. */
  lemma BodyOfEncoding(f: Frame, tail: seq<Byte>)
    requires |f.payload| <= 0xFFFF
    ensures EncodeFrame(f).Ok?
    ensures var wire := EncodeFrame(f).value;
            && PREAMBLE <= wire && |wire| >= 8 && Word(wire[5], wire[6]) == |f.payload|
            && ReadBody(wire[2..] + tail)
               == if |f.payload| <= MAX_PAYLOAD then Got(wire, tail) else TooLong(|f.payload|, wire[8..] + tail)
  {
    hide HeaderCrc, DataCrcBytes, Start, WireBits, DataCrc;
    var wire := EncodeFrame(f).value;
    SameStart(Start(f), wire);
    var s := wire[2..] + tail;
    assert s[3] == wire[5] && s[4] == wire[6];
    assert wire == PREAMBLE + wire[2..];
    assert s[..|wire| - 2] == wire[2..] && s[|wire| - 2..] == tail;
    assert s[HEADER_LEN..] == wire[8..] + tail;
  }

  /**
   * The reader returns exactly the next frame, and leaves exactly what follows it, if and only if the garbage
   * before it is whole tokens (no 55 FF, and no stray 55 swallowing the frame's own first byte) and at most 256
   * bytes, and the frame is no longer than the reader takes. The encoder builds longer ones.
   */
  lemma Resynchronises(g: seq<Byte>, f: Frame, tail: seq<Byte>)
    requires |f.payload| <= 0xFFFF
    ensures EncodeFrame(f).Ok?
    ensures var wire := EncodeFrame(f).value;
            && (Scan(g + wire + tail, 0) == Got(wire, tail) <==> Tokens(g) && |g| <= 256 && |f.payload| <= 512)
            && DecodeFrame(wire) == Ok(OnWire(f))
  {
    hide DecodeFrame, EncodeFrame, ReadBody, Scan, Tokens, OnWire, Word;
    DecodeEncode(f, []);
    BodyOfEncoding(f, tail);
    var wire := EncodeFrame(f).value;
    assert wire + [] == wire;
    if Tokens(g) && |g| <= SCAN_LIMIT && |f.payload| <= MAX_PAYLOAD {
      BodyAfterTokens(g, wire, tail);
    }
    if Scan(g + wire + tail, 0) == Got(wire, tail) {
      OnlyAfterTokens(g, wire, tail);
    }
  }

  /** Behind whole tokens within the limit a frame that is too long is refused for its length, right after its header. */
  lemma LongFramesAreRefused(g: seq<Byte>, f: Frame, tail: seq<Byte>)
    requires Tokens(g) && |g| <= 256 && 512 < |f.payload| <= 0xFFFF
    ensures EncodeFrame(f).Ok?
    ensures var wire := EncodeFrame(f).value;
            |wire| >= 8 && Scan(g + wire + tail, 0) == TooLong(|f.payload|, wire[8..] + tail)
  {
    BodyOfEncoding(f, tail);
    hide EncodeFrame, ReadBody, Scan, Tokens;
    BodyAfterTokens(g, EncodeFrame(f).value, tail);
  }

  lemma OnlyAfterTokens(g: seq<Byte>, wire: seq<Byte>, tail: seq<Byte>)
    requires Scan(g + wire + tail, 0) == Got(wire, tail)
    ensures Tokens(g) && |g| <= SCAN_LIMIT && |wire| >= 8 && Word(wire[5], wire[6]) <= MAX_PAYLOAD
  {
    hide Scan, Tokens, Word;
    ReadFramesFit(g + wire + tail, 0);
    var h := ScanSound(g + wire + tail, 0);
    assert g + wire + tail == g + (wire + tail);
    SamePrefix(g, h, wire + tail);
  }

  lemma BodyAfterTokens(g: seq<Byte>, wire: seq<Byte>, tail: seq<Byte>)
    requires Tokens(g) && |g| <= SCAN_LIMIT && PREAMBLE <= wire
    ensures Scan(g + wire + tail, 0) == ReadBody(wire[2..] + tail)
  {
    hide ReadBody;
    SkipTokens(g, wire + tail, 0);
    assert g + wire + tail == g + (wire + tail);
    assert (wire + tail)[2..] == wire[2..] + tail;
  }

  lemma SamePrefix(g: seq<Byte>, h: seq<Byte>, s: seq<Byte>)
    requires g + s == h + s
    ensures g == h
  {
    assert |g| == |h|;
    assert g == (g + s)[..|g|] && h == (h + s)[..|h|];
  }

  /** The shortest garbage that loses a frame: one stray 55. */
  lemma StrayByteLosesFrame(f: Frame)
    requires |f.payload| <= 0xFFFF
    ensures EncodeFrame(f).Ok? && Scan([0x55] + EncodeFrame(f).value, 0) != Got(EncodeFrame(f).value, [])
  {
    hide Scan, ReadBody, EncodeFrame, DecodeFrame;
    Resynchronises([0x55], f, []);
    assert [0x55] + EncodeFrame(f).value + [] == [0x55] + EncodeFrame(f).value;
  }

  /** A scan that finds no preamble has read 257 or 258 bytes, all of them whole tokens. */
  lemma {:induction false} ScanGivesUp(s: seq<Byte>, scanned: nat)
    requires Scan(s, scanned).NoPreamble? && scanned <= SCAN_LIMIT
    ensures var r := Scan(s, scanned);
            && 256 < r.scanned <= 258 && |s| == r.scanned - scanned + |r.rest|
            && Tokens(s[..|s| - |r.rest|])
    decreases |s|
  {
    var r := Scan(s, scanned);
    var k := if s[0] == 0x55 then 2 else 1;
    if scanned + k <= SCAN_LIMIT {
      ScanGivesUp(s[k..], scanned + k);
      assert s[..|s| - |r.rest|][k..] == s[k..][..|s[k..]| - |r.rest|];
    }
  }

  /** Whole tokens past the limit end the scan, whatever follows them, even a frame. */
  lemma {:induction false} TokensPastTheLimit(g: seq<Byte>, s: seq<Byte>, scanned: nat)
    requires Tokens(g) && scanned <= SCAN_LIMIT < scanned + |g|
    ensures Scan(g + s, scanned).NoPreamble?
    decreases |g|
  {
    hide Scan, ReadBody;
    if g[0] != 0x55 {
      assert g + s == [g[0]] + (g[1..] + s);
      ScanOne(g[0], g[1..] + s, scanned);
      if scanned + 1 <= SCAN_LIMIT { TokensPastTheLimit(g[1..], s, scanned + 1); }
    } else {
      assert g + s == [0x55, g[1]] + (g[2..] + s);
      ScanPair(g[1], g[2..] + s, scanned);
      if scanned + 2 <= SCAN_LIMIT { TokensPastTheLimit(g[2..], s, scanned + 2); }
    }
  }

  /** The scan gives up on a stream exactly when it begins with more than 256 bytes of whole tokens. */
  lemma ScanGivesUpIff(s: seq<Byte>)
    ensures Scan(s, 0).NoPreamble? <==> exists k :: 256 < k <= |s| && Tokens(s[..k])
  {
    hide Scan, Tokens;
    if Scan(s, 0).NoPreamble? {
      ScanGivesUp(s, 0);
      var k := |s| - |Scan(s, 0).rest|;
      assert SCAN_LIMIT < k <= |s| && Tokens(s[..k]);
    }
    if k :| SCAN_LIMIT < k <= |s| && Tokens(s[..k]) {
      assert s == s[..k] + s[k..];
      TokensPastTheLimit(s[..k], s[k..], 0);
    }
  }

  // ---------------------------------------------------------------- the client

  datatype ClientError =
    | Disposed
    | BadAddress
    | Transport(error: T.TransportError)
    | Unsent(fault: T.TransportError)
    | Silent(scanned: nat)
    | LengthCap(plen: nat)
    | BadFrame(frameError: FrameError)
    | BadPayload(payloadError: Payload.PayloadError)

  datatype Reply = Reply(frame: Frame, payload: Payload.Message, raw: seq<Byte>)

  class StdBusClient {
    const transport: T.SerialTransport
    var disposed: bool
    var written: seq<seq<Byte>>

    constructor (transport: T.SerialTransport)
      ensures this.transport == transport && !disposed && written == []
    {
      this.transport, this.disposed, this.written := transport, false, [];
    }

    method Dispose()
      modifies this`disposed
      ensures disposed
    {
      disposed := true;
    }

    /** The flat byte sequence still to be read. */
    function Stream(): seq<Byte>
      reads transport
    {
      T.Stream(transport.State())
    }

    /**
     * The scanning reader refines `Scan` on the flat byte sequence: every answer other than
     * a passed deadline or a lost port is the flat one and leaves the flat remainder, and on a
     * line with no interruption the deadline passes exactly when the flat sequence is too short,
     * which is then lost.
     */
    method ReadFrame() returns (r: Result<seq<Byte>, ClientError>)
      requires transport.isOpen
      modifies transport`pushback, transport`line
      ensures r.Ok? ==> Scan(old(Stream()), 0) == Got(r.value, Stream())
      ensures r.Err? && r.error.Silent? ==> Scan(old(Stream()), 0) == NoPreamble(r.error.scanned, Stream())
      ensures r.Err? && r.error.LengthCap? ==> Scan(old(Stream()), 0) == TooLong(r.error.plen, Stream())
      ensures r.Err? ==> r.error.Silent? || r.error.LengthCap? || r.error in {Transport(T.Cancelled), Transport(T.ConnectionLost)}
      ensures T.Steady(old(transport.line)) ==>
                && T.Steady(transport.line)
                && r != Err(Transport(T.ConnectionLost))
                && (r == Err(Transport(T.Cancelled)) <==> Scan(old(Stream()), 0) == Starved)
                && (r == Err(Transport(T.Cancelled)) ==> Stream() == [])
    {
      hide Scan, ReadBody;
      ghost var s := Stream();
      ghost var steady := T.Steady(transport.line);
      var scanned: seq<Byte> := [];
      while true
        invariant transport.isOpen && |scanned| <= SCAN_LIMIT
        invariant Scan(s, 0) == Scan(Stream(), |scanned|)
        invariant steady ==> T.Steady(transport.line)
        decreases |Stream()|
      {
        ghost var before := Stream();
        var b := Take(1);
        if b.Err? {
          ScanShort(before, |scanned|);
          return Err(Transport(b.error));
        }
        assert b.value == [b.value[0]];
        if b.value == [0x55] {
          ghost var middle := Stream();
          assert before == [0x55] + middle;
          var b2 := Take(1);
          if b2.Err? {
            ScanShort(before, |scanned|);
            return Err(Transport(b2.error));
          }
          assert b2.value == [b2.value[0]];
          assert before == [0x55, b2.value[0]] + Stream();
          ScanPair(b2.value[0], Stream(), |scanned|);
          if b2.value == [0xFF] { break; }
          scanned := scanned + b.value + b2.value;
        } else {
          ScanOne(b.value[0], Stream(), |scanned|);
          scanned := scanned + b.value;
        }
        if |scanned| > SCAN_LIMIT { return Err(Silent(|scanned|)); }
      }
      r := Rest();
    }

    /** One exact read, in terms of the flat sequence. */
    method Take(n: nat) returns (r: T.Outcome)
      requires transport.isOpen && n > 0
      modifies transport`pushback, transport`line
      ensures r.Ok? ==> |r.value| == n && r.value + Stream() == old(Stream())
      ensures r.Err? ==> r.error in {T.Cancelled, T.ConnectionLost}
      ensures T.Steady(old(transport.line)) ==>
                && T.Steady(transport.line)
                && (r.Ok? <==> n <= |old(Stream())|)
                && (r.Err? ==> r == Err(T.Cancelled) && Stream() == [])
    {
      T.ReadExactConserves(transport.State(), n, true);
      if T.Steady(transport.line) {
        T.ReadExactFlat(transport.State(), n, true);
      }
      r := transport.ReadExact(n, true);
    }

    /** Header, length check and body, once the preamble has been taken. */
    method Rest() returns (r: Result<seq<Byte>, ClientError>)
      requires transport.isOpen
      modifies transport`pushback, transport`line
      ensures r.Ok? ==> ReadBody(old(Stream())) == Got(r.value, Stream())
      ensures r.Err? && r.error.LengthCap? ==> ReadBody(old(Stream())) == TooLong(r.error.plen, Stream())
      ensures r.Err? ==> r.error.LengthCap? || r.error in {Transport(T.Cancelled), Transport(T.ConnectionLost)}
      ensures T.Steady(old(transport.line)) ==>
                && T.Steady(transport.line)
                && r != Err(Transport(T.ConnectionLost))
                && (r == Err(Transport(T.Cancelled)) <==> ReadBody(old(Stream())) == Starved)
                && (r == Err(Transport(T.Cancelled)) ==> Stream() == [])
    {
      ghost var s := Stream();
      var header := Take(HEADER_LEN);
      if header.Err? { return Err(Transport(header.error)); }
      assert s[..HEADER_LEN] == header.value && s[HEADER_LEN..] == Stream();
      var plen := Word(header.value[3], header.value[4]);
      if plen == 0 { return Ok(PREAMBLE + header.value); }
      if plen > MAX_PAYLOAD { return Err(LengthCap(plen)); }
      var body := Take(plen + DCRC_LEN);
      if body.Err? { return Err(Transport(body.error)); }
      assert s == header.value + (body.value + Stream());
      assert s[..HEADER_LEN + plen + DCRC_LEN] == header.value + body.value;
      assert s[HEADER_LEN + plen + DCRC_LEN..] == Stream();
      return Ok(PREAMBLE + header.value + body.value);
    }

    /**
     * One request and its reply, under one deadline for the write and all reads. `writeFault` is
     * how the port's write fails, if it does. On an uninterrupted line the outcome is that of the
     * flat byte sequence, and the bytes of a reply that comes too late to be complete are lost.
     */
    method Execute(fl: Tlv.FloatCodec, request: seq<Byte>, address: int, writeFault: Option<T.TransportError>)
      returns (r: Result<Reply, ClientError>)
      modifies this`written, transport`pushback, transport`line
      ensures r.Err? && r.error in {Disposed, BadAddress, Transport(T.NotOpen)} ==>
                written == old(written) && transport.State() == old(transport.State())
      ensures r == Err(Disposed) <==> disposed
      ensures r == Err(BadAddress) <==> !disposed && !(1 <= address <= 16)
      ensures written == old(written) <==>
                disposed || !(1 <= address <= 16) || |request| > 0xFFFF || !transport.isOpen || writeFault.Some?
      ensures written != old(written) ==>
                var asked := EncodeFrame(Frame(0x05, 0x0F + address, 0x00, request));
                asked.Ok? && written == old(written) + [asked.value] && IsRequest(asked.value, request, address)
      ensures r.Ok? ==>
                && written != old(written)
                && Scan(old(Stream()), 0) == Got(r.value.raw, Stream())
                && r == ReplyOf(fl, Scan(old(Stream()), 0))
      ensures !disposed && 1 <= address <= 16 && |request| <= 0xFFFF && transport.isOpen
              && writeFault.None? && T.Steady(old(transport.line)) ==>
                && r == ReplyOf(fl, Scan(old(Stream()), 0))
                && (r == Err(Transport(T.TimedOut)) ==> Stream() == [])
    {
      hide Scan, ReplyOf, EncodeFrame, DecodeFrame, IsRequest, T.Incoming;
      if disposed { return Err(Disposed); }
      if !(1 <= address <= 16) { return Err(BadAddress); }
      EncodesWithinLimit(RequestFrame(request, address));
      var wire := EncodeFrame(RequestFrame(request, address));
      if wire.Err? { return Err(BadFrame(wire.error)); }
      if !transport.isOpen { return Err(Transport(T.NotOpen)); }
      if writeFault.Some? { return Err(Unsent(writeFault.value)); }
      RequestOnTheWire(request, address);
      written := written + [wire.value];
      r := TakeReply(fl);
    }

    /** Reading and decoding the reply; the deadline around it passes as a timeout. */
    method TakeReply(fl: Tlv.FloatCodec) returns (r: Result<Reply, ClientError>)
      requires transport.isOpen
      modifies transport`pushback, transport`line
      ensures r.Ok? ==> Scan(old(Stream()), 0) == Got(r.value.raw, Stream()) && r == ReplyOf(fl, Scan(old(Stream()), 0))
      ensures r.Err? ==> r.error !in {Disposed, BadAddress, Transport(T.NotOpen)}
      ensures T.Steady(old(transport.line)) ==>
                && r == ReplyOf(fl, Scan(old(Stream()), 0))
                && (r == Err(Transport(T.TimedOut)) ==> Stream() == [])
    {
      hide Scan, DecodeFrame, Payload.DecodePayload, T.Incoming;
      var raw := ReadFrame();
      if raw.Err? { return Err(if raw.error == Transport(T.Cancelled) then Transport(T.TimedOut) else raw.error); }
      var decoded := DecodeFrame(raw.value);
      if decoded.Err? { return Err(BadFrame(decoded.error)); }
      var payload := Payload.DecodePayload(fl, decoded.value.payload);
      if payload.Err? { return Err(BadPayload(payload.error)); }
      return Ok(Reply(decoded.value, payload.value, raw.value));
    }
  }

  // ---------------------------------------------------------------- request and reply end to end

  function AddrToMac(addr: int): Option<int>
  {
    if 1 <= addr <= 16 then Some(ADDR_OFFSET + addr) else None
  }

  function MacToAddr(mac: int): Option<int>
  {
    if 0x10 <= mac <= 0x1F then Some(mac - ADDR_OFFSET) else None
  }

  lemma AddressesAndMacs(addr: int, mac: int)
    ensures AddrToMac(addr) == Some(mac) <==> MacToAddr(mac) == Some(addr)
  {
  }

  function RequestFrame(request: seq<Byte>, address: int): Frame
    requires 1 <= address <= 16
  {
    Frame(DATA_EXPECTING_REPLY, AddrToMac(address).value, HOST_MAC, request)
  }

  /** The bytes that ask `address` for `request`, and what they decode to. */
  predicate IsRequest(w: seq<Byte>, request: seq<Byte>, address: int)
  {
    && |w| >= 8 && w[..3] == [0x55, 0xFF, 0x05] && w[3] == 0x0F + address && w[4] == 0x00 && 256 * (w[5] as int) + w[6] == |request|
    && (request == [] ==> |w| == 8)
    && (request != [] ==> |w| == 10 + |request| && w[8..8 + |request|] == request)
    && DecodeFrame(w) == Ok(Frame(0x05, 0x0F + address, 0x00, request))
  }

  /** The bytes of a request: preamble, type, the device's MAC, the host's, the length, and the payload behind the header CRC. */
  lemma RequestOnTheWire(request: seq<Byte>, address: int)
    requires 1 <= address <= 16 && |request| <= 0xFFFF
    ensures EncodeFrame(RequestFrame(request, address)).Ok?
    ensures RequestFrame(request, address) == Frame(0x05, 0x0F + address, 0x00, request)
    ensures IsRequest(EncodeFrame(RequestFrame(request, address)).value, request, address)
  {
    hide EncodeFrame, DecodeFrame, OnWire;
    var f := RequestFrame(request, address);
    DecodeEncode(f, []);
    ByteFields(f);
    BytesOfFrame(f);
    var w := EncodeFrame(f).value;
    assert w + [] == w;
  }

  lemma BytesOfFrame(f: Frame)
    requires |f.payload| <= 0xFFFF && OnWire(f) == f
    ensures EncodeFrame(f).Ok?
    ensures var w := EncodeFrame(f).value;
      && |w| >= 8 && w[..3] == [0x55, 0xFF, f.frameType] && w[3] == f.dst && w[4] == f.src && 256 * (w[5] as int) + w[6] == |f.payload|
      && (f.payload == [] ==> |w| == 8)
      && (f.payload != [] ==> |w| == 10 + |f.payload| && w[8..8 + |f.payload|] == f.payload)
  {
    hide HeaderCrc, DataCrcBytes, DataCrc, Start;
    BytesOfStart(f);
    var w := EncodeFrame(f).value;
    assert forall i :: 0 <= i < 8 ==> w[i] == Start(f)[i];
  }

  lemma BytesOfStart(f: Frame)
    requires |f.payload| <= 0xFFFF && OnWire(f) == f
    ensures var w := Start(f);
      w[0] == 0x55 && w[1] == 0xFF && w[2] == f.frameType && w[3] == f.dst && w[4] == f.src && 256 * (w[5] as int) + w[6] == |f.payload|
  {
    hide HeaderCrc;
  }

  /** What an exchange makes of a completed flat read. */
  function ReplyOf(fl: Tlv.FloatCodec, read: Read): Result<Reply, ClientError>
  {
    match read
    case Starved => Err(Transport(T.TimedOut))
    case NoPreamble(scanned, _) => Err(Silent(scanned))
    case TooLong(plen, _) => Err(LengthCap(plen))
    case Got(raw, _) =>
      match DecodeFrame(raw)
      case Err(e) => Err(BadFrame(e))
      case Ok(frame) =>
        match Payload.DecodePayload(fl, frame.payload)
        case Err(e) => Err(BadPayload(e))
        case Ok(payload) => Ok(Reply(frame, payload, raw))
  }

  /** What the addressed device reads is the request: its own MAC, the selector and the value. */
  lemma RequestArrives(fl: Tlv.FloatCodec, address: int, id: int, value: Tlv.Value, instance: int, tag: int, tail: seq<Byte>)
    requires 1 <= address <= 16 && Payload.EncodeWriteRequest(fl, id, value, instance, tag).Ok?
    requires |Payload.EncodeWriteRequest(fl, id, value, instance, tag).value| <= MAX_PAYLOAD
    ensures var request := Payload.EncodeWriteRequest(fl, id, value, instance, tag).value;
            var f := RequestFrame(request, address);
            && EncodeFrame(f).Ok? && Scan(EncodeFrame(f).value + tail, 0) == Got(EncodeFrame(f).value, tail)
            && DecodeFrame(EncodeFrame(f).value) == Ok(Frame(0x05, 0x0F + address, 0x00, request)) && MacToAddr(f.dst) == Some(address)
            && Tlv.Encode(fl, tag, value).Ok?
            && Payload.DecodePayload(fl, request)
               == Ok(Payload.WriteRequest(id / 1000, id % 1000, instance, Tlv.Canonical(fl, tag, value), tag))
  {
    hide Tlv.Encode, Tlv.Canonical, DecodeFrame, EncodeFrame, OnWire, Scan, ReadBody, Payload.DecodePayload;
    var request := Payload.EncodeWriteRequest(fl, id, value, instance, tag).value;
    FrameArrives(request, address, tail);
    Payload.WriteRequestRoundTrip(fl, id, value, instance, tag);
  }

  /** Likewise for a read. */
  lemma ReadRequestArrives(fl: Tlv.FloatCodec, address: int, id: int, instance: int, tail: seq<Byte>)
    requires 1 <= address <= 16 && Payload.EncodeReadRequest(id, instance).Ok?
    ensures var request := Payload.EncodeReadRequest(id, instance).value;
            var f := RequestFrame(request, address);
            && EncodeFrame(f).Ok? && Scan(EncodeFrame(f).value + tail, 0) == Got(EncodeFrame(f).value, tail)
            && DecodeFrame(EncodeFrame(f).value) == Ok(Frame(0x05, 0x0F + address, 0x00, request))
            && Payload.DecodePayload(fl, request) == Ok(Payload.ReadRequest(id / 1000, id % 1000, instance))
  {
    hide DecodeFrame, EncodeFrame, OnWire, Scan, ReadBody;
    FrameArrives(Payload.EncodeReadRequest(id, instance).value, address, tail);
  }

  lemma FrameArrives(request: seq<Byte>, address: int, tail: seq<Byte>)
    requires 1 <= address <= 16 && |request| <= MAX_PAYLOAD
    ensures var f := RequestFrame(request, address);
            && EncodeFrame(f).Ok? && Scan(EncodeFrame(f).value + tail, 0) == Got(EncodeFrame(f).value, tail)
            && DecodeFrame(EncodeFrame(f).value) == Ok(Frame(0x05, 0x0F + address, 0x00, request))
  {
    hide DecodeFrame, EncodeFrame, OnWire, Scan, ReadBody;
    var f := RequestFrame(request, address);
    Resynchronises([], f, tail);
    RequestOnTheWire(request, address);
    assert [] + EncodeFrame(f).value + tail == EncodeFrame(f).value + tail;
  }

  /**
   * A device's answer to a read, behind whole-token garbage, is recovered with its selector
   * and value; what follows the frame is left for the next read.
   */
  lemma AnswerRecovered(fl: Tlv.FloatCodec, g: seq<Byte>, frameType: Byte, dst: Byte, src: Byte,
                        cls: Byte, member: Byte, instance: Byte, tag: int, value: Tlv.Value, tail: seq<Byte>)
    requires Tokens(g) && |g| <= SCAN_LIMIT && Tlv.Encode(fl, tag, value).Ok?
    requires |Tlv.Encode(fl, tag, value).value| <= MAX_PAYLOAD - 6
    ensures var payload := [0x02, 0x03, 0x01, cls, member, instance] + (Tlv.Encode(fl, tag, value).value + []);
            var f := Frame(frameType, dst, src, payload);
            && EncodeFrame(f).Ok?
            && var read := Scan(g + EncodeFrame(f).value + tail, 0);
            && read == Got(EncodeFrame(f).value, tail)
            && ReplyOf(fl, read)
               == Ok(Reply(f, Payload.ReadResponse(cls, member, instance, Tlv.Canonical(fl, tag, value), tag), EncodeFrame(f).value))
  {
    hide Tlv.Encode, Tlv.Canonical, DecodeFrame, EncodeFrame, OnWire, Scan, ReadBody, Payload.DecodePayload, Tokens;
    var payload := [0x02, 0x03, 0x01, cls, member, instance] + (Tlv.Encode(fl, tag, value).value + []);
    var f := Frame(frameType, dst, src, payload);
    Resynchronises(g, f, tail);
    ByteFields(f);
    Payload.ReadReplyDecodes(fl, cls, member, instance, tag, value, []);
  }

  /** A device's refusal, behind whole-token garbage, is recovered with its code. */
  lemma DenialRecovered(fl: Tlv.FloatCodec, g: seq<Byte>, frameType: Byte, dst: Byte, src: Byte, code: Byte, tail: seq<Byte>)
    requires Tokens(g) && |g| <= SCAN_LIMIT && code >= 0x80
    ensures var f := Frame(frameType, dst, src, [0x02, code]);
            && EncodeFrame(f).Ok?
            && ReplyOf(fl, Scan(g + EncodeFrame(f).value + tail, 0))
               == Ok(Reply(f, Payload.ErrorResponse(code), EncodeFrame(f).value))
  {
    hide DecodeFrame, EncodeFrame, OnWire, Scan, ReadBody, Tokens;
    var f := Frame(frameType, dst, src, [0x02, code]);
    Resynchronises(g, f, tail);
    ByteFields(f);
  }

  /**
   * A reply with one to three bits damaged behind its header is read to its end and refused at its data CRC; it
   * never becomes an answer, and what follows it is left for the next read.
   */
  lemma DamagedReplyRefused(fl: Tlv.FloatCodec, g: seq<Byte>, f: Frame, buf: seq<Byte>, e: seq<bool>, tail: seq<Byte>)
    requires Tokens(g) && |g| <= SCAN_LIMIT && 0 < |f.payload| <= MAX_PAYLOAD
    requires Damaged(f, buf, e) && |buf| == 10 + |f.payload| && 1 <= Weight(e) <= 3
    ensures var read := Scan(g + buf + tail, 0);
            read == Got(buf, tail) && ReplyOf(fl, read) == Err(BadFrame(DataMismatch))
  {
    hide Damaged, DecodeFrame, Scan, ReadBody, Tokens, Weight;
    FewBitsSeenIff(f);
    DamagedLength(f, buf, e);
    BodyAfterTokens(g, buf, tail);
    BodyOfBuffer(buf, tail);
  }

  lemma DamagedLength(f: Frame, buf: seq<Byte>, e: seq<bool>)
    requires 0 < |f.payload| <= MAX_PAYLOAD && Damaged(f, buf, e)
    ensures |buf| >= 8 && PREAMBLE <= buf && Word(buf[5], buf[6]) == |f.payload|
  {
    hide EncodeFrame, HeaderCrc, WireBits, Xor;
    IntactHeader(f, buf);
    assert buf[..2] == PREAMBLE;
  }

  lemma BodyOfBuffer(buf: seq<Byte>, tail: seq<Byte>)
    requires |buf| >= 8 && PREAMBLE <= buf && 0 < Word(buf[5], buf[6]) <= MAX_PAYLOAD && |buf| == 10 + Word(buf[5], buf[6])
    ensures ReadBody(buf[2..] + tail) == Got(buf, tail)
  {
    hide Word;
    var s := buf[2..] + tail;
    assert s[3] == buf[5] && s[4] == buf[6];
    assert buf == PREAMBLE + buf[2..];
    assert s[..|buf| - 2] == buf[2..] && s[|buf| - 2..] == tail;
  }
}
