/** The BACnet MS/TP outer frame of Watlow Standard Bus. */
module Framing {
  import opened Bits
  import opened Crc
  import opened CrcDetection
  import opened CrcOrder
  import opened Wrappers

  const PREAMBLE: seq<Byte> := [0x55, 0xFF]

  /** Header fields are Python integers; only their low eight bits reach the wire. */
  datatype Frame = Frame(frameType: int, dst: int, src: int, payload: seq<Byte>)

  datatype FrameError = PayloadTooLong | TooShort | BadPreamble | HeaderMismatch | Truncated | DataMismatch

  /** The part of a frame the wire can carry. */
  function OnWire(f: Frame): Frame
  {
    Frame(f.frameType % 256, f.dst % 256, f.src % 256, f.payload)
  }

  function Header(f: Frame): (header: seq<Byte>)
    requires |f.payload| <= 0xFFFF
    ensures |header| == 5
  {
    [f.frameType % 256, f.dst % 256, f.src % 256] + WordBytes(|f.payload|)
  }

  /** Everything up to and including the header CRC. */
  function Start(f: Frame): (start: seq<Byte>)
    requires |f.payload| <= 0xFFFF
    ensures |start| == 8 && start[..2] == PREAMBLE && start[2..7] == Header(f)
    ensures start[7] == HeaderCrc(Header(f)) && Word(start[5], start[6]) == |f.payload|
  {
    PREAMBLE + Header(f) + [HeaderCrc(Header(f))]
  }

  function EncodeFrame(f: Frame): Result<seq<Byte>, FrameError>
  {
    if |f.payload| > 0xFFFF then Err(PayloadTooLong)
    else if f.payload != [] then Ok(Start(f) + f.payload + DataCrcBytes(f.payload))
    else Ok(Start(f))
  }

  function DecodeFrame(buf: seq<Byte>): Result<Frame, FrameError>
  {
    if |buf| < 8 then Err(TooShort)
    else if buf[..2] != PREAMBLE then Err(BadPreamble)
    else
      var plen := Word(buf[5], buf[6]);
      if buf[7] != HeaderCrc(buf[2..7]) then Err(HeaderMismatch)
      else if plen == 0 then Ok(Frame(buf[2], buf[3], buf[4], []))
      else if |buf| < 8 + plen + 2 then Err(Truncated)
      else
        var payload := buf[8..8 + plen];
        if buf[8 + plen..8 + plen + 2] != DataCrcBytes(payload) then Err(DataMismatch)
        else Ok(Frame(buf[2], buf[3], buf[4], payload))
  }

  lemma EncodesWithinLimit(f: Frame)
    ensures EncodeFrame(f).Ok? <==> |f.payload| <= 0xFFFF
  {
    hide Start, DataCrcBytes, Header;
  }

  lemma ByteFields(f: Frame)
    requires 0 <= f.frameType < 256 && 0 <= f.dst < 256 && 0 <= f.src < 256
    ensures OnWire(f) == f
  {
  }

  // ---------------------------------------------------------------- round trip

  /** What is decoded from an encoding, whatever follows it, is the frame the wire can carry. */
  lemma DecodeEncode(f: Frame, tail: seq<Byte>)
    requires |f.payload| <= 0xFFFF
    ensures EncodeFrame(f).Ok? && DecodeFrame(EncodeFrame(f).value + tail) == Ok(OnWire(f))
  {
    hide HeaderCrc, DataCrcBytes, Start, WireBits, DataCrc, DecodeFrame, Header;
    var payload := f.payload;
    var buf := EncodeFrame(f).value + tail;
    SameStart(Start(f), buf);
    HeaderFields(f, buf[2..7]);
    if payload != [] {
      assert buf == Start(f) + (payload + (DataCrcBytes(payload) + tail));
      Body(Start(f), payload, DataCrcBytes(payload), tail);
    }
    DecodeParts(f, buf);
  }

  lemma HeaderFields(f: Frame, h: seq<Byte>)
    requires |f.payload| <= 0xFFFF && h == Header(f)
    ensures h[0] == f.frameType % 256 && h[1] == f.dst % 256 && h[2] == f.src % 256
    ensures Word(h[3], h[4]) == |f.payload|
  {
  }

  /** The decoder takes a buffer apart at the right places. */
  lemma DecodeParts(f: Frame, buf: seq<Byte>)
    requires |buf| >= 8 && buf[..2] == PREAMBLE && buf[7] == HeaderCrc(buf[2..7])
    requires buf[2] == f.frameType % 256 && buf[3] == f.dst % 256 && buf[4] == f.src % 256
    requires Word(buf[5], buf[6]) == |f.payload|
    requires f.payload != [] ==>
      var n := |f.payload|;
      |buf| >= 10 + n && buf[8..8 + n] == f.payload && buf[8 + n..8 + n + 2] == DataCrcBytes(f.payload)
    ensures DecodeFrame(buf) == Ok(OnWire(f))
  {
    hide HeaderCrc, DataCrcBytes, WireBits, DataCrc, Word;
  }

  lemma SameStart(start: seq<Byte>, buf: seq<Byte>)
    requires |start| == 8 && start <= buf
    ensures buf[..2] == start[..2] && buf[2..7] == start[2..7] && buf[..8] == start
    ensures forall i :: 2 <= i < 8 ==> buf[i] == start[i]
  {
  }

  lemma Body(start: seq<Byte>, payload: seq<Byte>, dcrc: seq<Byte>, tail: seq<Byte>)
    requires |start| == 8 && |dcrc| == 2
    ensures var buf, n := start + (payload + (dcrc + tail)), |payload|;
            buf[8..8 + n] == payload && buf[8 + n..8 + n + 2] == dcrc
  {
  }

  /** The round trip is exact for the frames whose header fields are bytes, and for no others. */
  lemma RoundTripIff(f: Frame, tail: seq<Byte>)
    requires |f.payload| <= 0xFFFF
    ensures EncodeFrame(f).Ok?
    ensures DecodeFrame(EncodeFrame(f).value + tail) == Ok(f)
       <==> 0 <= f.frameType < 256 && 0 <= f.dst < 256 && 0 <= f.src < 256
  {
    hide EncodeFrame, DecodeFrame;
    DecodeEncode(f, tail);
  }

  /** The decoder accepts encodings, with anything after them, and nothing else. */
  lemma AcceptsOnlyEncodings(buf: seq<Byte>)
    requires DecodeFrame(buf).Ok?
    ensures var f := DecodeFrame(buf).value;
            EncodeFrame(f).Ok? && EncodeFrame(f).value <= buf && OnWire(f) == f
  {
    var f := DecodeFrame(buf).value;
    var n := |f.payload|;
    AcceptedParts(buf);
    hide DecodeFrame, HeaderCrc, DataCrcBytes, Start, WireBits, DataCrc;
    if n > 0 { Pieces(buf, n); }
  }

  lemma Pieces(buf: seq<Byte>, n: nat)
    requires |buf| >= 10 + n
    ensures buf[..8] + buf[8..8 + n] + buf[8 + n..10 + n] == buf[..10 + n] <= buf
  {
  }

  lemma AcceptedParts(buf: seq<Byte>)
    requires DecodeFrame(buf).Ok?
    ensures var f := DecodeFrame(buf).value;
            var n := |f.payload|;
            && OnWire(f) == f && n <= 0xFFFF && |buf| >= 8 && buf[..8] == Start(f)
            && (n > 0 ==> |buf| >= 10 + n && buf[8..8 + n] == f.payload && buf[8 + n..10 + n] == DataCrcBytes(f.payload))
  {
    hide HeaderCrc, DataCrcBytes, Start, WireBits, DataCrc, Header;
    var f := DecodeFrame(buf).value;
    assert buf[7] == HeaderCrc(buf[2..7]) && |f.payload| == Word(buf[5], buf[6]);
    var h := buf[2..7];
    assert h[0] == buf[2] && h[1] == buf[3] && h[2] == buf[4] && h[3] == buf[5] && h[4] == buf[6];
    SameHeader(f, h);
    StartOf(f, buf);
  }

  lemma SameHeader(f: Frame, h: seq<Byte>)
    requires |h| == 5 && [f.frameType, f.dst, f.src] == [h[0] as int, h[1] as int, h[2] as int]
    requires |f.payload| == Word(h[3], h[4])
    ensures Header(f) == h
  {
  }

  lemma StartOf(f: Frame, buf: seq<Byte>)
    requires |f.payload| <= 0xFFFF && |buf| >= 8
    requires buf[..2] == PREAMBLE && buf[2..7] == Header(f) && buf[7] == HeaderCrc(Header(f))
    ensures buf[..8] == Start(f)
  {
    hide Header, HeaderCrc;
    assert buf[..8] == buf[..2] + buf[2..7] + [buf[7]];
  }

  lemma AcceptsExactlyEncodings(buf: seq<Byte>, f: Frame)
    requires OnWire(f) == f
    ensures DecodeFrame(buf) == Ok(f) <==> EncodeFrame(f).Ok? && EncodeFrame(f).value <= buf
  {
    hide DecodeFrame, Header, HeaderCrc, DataCrcBytes, WireBits, DataCrc;
    if DecodeFrame(buf) == Ok(f) {
      AcceptsOnlyEncodings(buf);
    }
    if EncodeFrame(f).Ok? && EncodeFrame(f).value <= buf {
      var wire := EncodeFrame(f).value;
      assert buf == wire + buf[|wire|..];
      DecodeEncode(f, buf[|wire|..]);
    }
  }

  /** A frame cut short anywhere is refused as such: in its header for being too short, behind it as truncated. */
  lemma PrefixesAreRefused(f: Frame, k: nat)
    requires |f.payload| <= 0xFFFF && EncodeFrame(f).Ok? && k < |EncodeFrame(f).value|
    ensures DecodeFrame(EncodeFrame(f).value[..k]) == Err(if k < 8 then TooShort else Truncated)
  {
    hide HeaderCrc, DataCrcBytes, WireBits, DataCrc, Header;
    var wire := EncodeFrame(f).value;
    var buf := wire[..k];
    assert wire[..8] == Start(f);
    if k >= 8 {
      assert buf[..8] == Start(f);
      SameStart(Start(f), buf);
      PayloadFollows(f);
    }
  }

  lemma PayloadFollows(f: Frame)
    requires |f.payload| <= 0xFFFF
    ensures EncodeFrame(f).Ok? && |EncodeFrame(f).value| == if f.payload == [] then 8 else 10 + |f.payload|
  {
    hide HeaderCrc, DataCrcBytes;
  }

  /** Nothing that begins with other bytes than 55 FF is a frame. */
  lemma PreambleIsRequired(buf: seq<Byte>)
    ensures DecodeFrame(buf) == Err(BadPreamble) <==> |buf| >= 8 && !(buf[0] == 0x55 && buf[1] == 0xFF)
  {
    hide HeaderCrc, DataCrcBytes;
  }

  // ---------------------------------------------------------------- corruption

  /** Two byte strings of one length differ, and only in `k` consecutive wire bits from `s`. */
  ghost predicate BurstApart(x: seq<Byte>, y: seq<Byte>, s: nat, k: nat)
    requires |x| == |y|
  {
    && x != y
    && forall i :: 0 <= i < 8 * |x| && WireBits(x)[i] != WireBits(y)[i] ==> s <= i < s + k
  }

  /** Two byte strings of one length differ in an odd number of wire bits. */
  ghost predicate OddApart(x: seq<Byte>, y: seq<Byte>)
    requires |x| == |y|
  {
    Odd(Xor(WireBits(x), WireBits(y)))
  }

  lemma ApartIsBurst(x: seq<Byte>, y: seq<Byte>, s: nat, k: nat)
    requires |x| == |y| && BurstApart(x, y, s, k)
    ensures Burst(Xor(WireBits(x), WireBits(y)), s, k)
  {
    var p, q := WireBits(x), WireBits(y);
    var e := Xor(p, q);
    assert forall i :: 0 <= i < |e| ==> e[i] == (At(p, i) != At(q, i)) == (p[i] != q[i]);
    if forall i :: 0 <= i < |e| ==> !e[i] {
      assert forall i :: 0 <= i < |p| ==> p[i] == q[i];
      assert p == q;
      WireBitsInjective(x, y);
    }
  }

  lemma HeaderAccept(header: seq<Byte>, hcrc: Byte)
    ensures hcrc == HeaderCrc(header)
       <==> Run(HeaderTaps(), Ones(8), WireBits(header + [hcrc])) == Residue(HeaderTaps())
  {
    var reg := Run(HeaderTaps(), Ones(8), WireBits(header));
    hide HeaderTaps, Run, ByteBits, Residue;
    assert HeaderTaps()[7] by { HeaderTop(); }
    WireBitsAppend(header, [hcrc]);
    assert WireBits([hcrc]) == ByteBits(hcrc) + WireBits([]) == ByteBits(hcrc);
    RunAppend(HeaderTaps(), Ones(8), WireBits(header), ByteBits(hcrc));
    AcceptIsResidue(HeaderTaps(), reg, ByteBits(hcrc));
    if ByteBits(hcrc) == Not(reg) {
      ByteBitsInjective(hcrc, HeaderCrc(header));
    }
  }

  lemma HeaderTop() ensures HeaderTaps()[7] {}

  lemma DataAccept(payload: seq<Byte>, dcrc: seq<Byte>)
    requires |dcrc| == 2
    ensures dcrc == DataCrcBytes(payload)
       <==> Run(DataTaps(), Ones(16), WireBits(payload + dcrc)) == Residue(DataTaps())
  {
    var reg := Run(DataTaps(), Ones(16), WireBits(payload));
    hide DataTaps, Run, Residue;
    assert DataTaps()[15] by { DataTop(); }
    WireBitsAppend(payload, dcrc);
    RunAppend(DataTaps(), Ones(16), WireBits(payload), WireBits(dcrc));
    AcceptIsResidue(DataTaps(), reg, WireBits(dcrc));
    if WireBits(dcrc) == Not(reg) {
      WireBitsInjective(dcrc, DataCrcBytes(payload));
    }
  }

  lemma DataTop() ensures DataTaps()[15] {}

  /** The checks of the decoder are those of the standard: run the register over data and CRC, and find 0x55 or 0xF0B8. */
  lemma AcceptConstants(header: seq<Byte>, hcrc: Byte, payload: seq<Byte>, dcrc: seq<Byte>)
    requires |dcrc| == 2
    ensures hcrc == HeaderCrc(header) <==> Run(HeaderTaps(), Ones(8), WireBits(header + [hcrc])) == ByteBits(0x55)
    ensures dcrc == DataCrcBytes(payload) <==> Run(DataTaps(), Ones(16), WireBits(payload + dcrc)) == WireBits([0xB8, 0xF0])
  {
    hide *;
    HeaderAccept(header, hcrc);
    HeaderResidue();
    DataAccept(payload, dcrc);
    DataResidue();
  }

  /** What was received of payload and data CRC, as bits flipped on the wire; the first eight bytes arrived intact. */
  ghost predicate Damaged(f: Frame, buf: seq<Byte>, e: seq<bool>)
    requires 0 < |f.payload| <= 0xFFFF
  {
    && EncodeFrame(f).Ok? && |buf| >= |EncodeFrame(f).value| == 10 + |f.payload|
    && buf[..8] == EncodeFrame(f).value[..8]
    && e == Xor(WireBits(EncodeFrame(f).value[8..]), WireBits(buf[8..10 + |f.payload|]))
  }

  /** With the header intact a damaged frame is rejected, at its data CRC, exactly when the damage is no multiple of the generator. */
  lemma DamageRejectedIff(f: Frame, buf: seq<Byte>, e: seq<bool>)
    requires 0 < |f.payload| <= 0xFFFF && Damaged(f, buf, e)
    ensures DecodeFrame(buf) == Err(DataMismatch) <==> Run(DataTaps(), Zeros(16), e) != Zeros(16)
    ensures DecodeFrame(buf).Ok? <==> Run(DataTaps(), Zeros(16), e) == Zeros(16)
  {
    var plen := |f.payload|;
    var sent, got := EncodeFrame(f).value[8..], buf[8..10 + plen];
    EncodedBody(f);
    IntactHeader(f, buf);
    hide DataTaps, Run, WireBits, Xor, DecodeFrame, EncodeFrame, DataCrcBytes, HeaderCrc;
    assert got[..plen] + got[plen..] == got;
    DataAccept(f.payload, DataCrcBytes(f.payload));
    DataAccept(got[..plen], got[plen..]);
    SameRegisterIff(DataTaps(), Ones(16), WireBits(sent), WireBits(got));
    DecodeBody(buf, plen);
  }

  /**
   * With the header intact, a frame whose payload and data CRC are damaged only within
   * sixteen consecutive bits, or in an odd number of bits, is rejected at its data CRC.
   */
  lemma DataCorruptionRejected(f: Frame, buf: seq<Byte>, s: nat)
    requires 0 < |f.payload| <= 0xFFFF
    requires |buf| >= 10 + |f.payload| && buf[..8] == EncodeFrame(f).value[..8]
    requires var sent, got := EncodeFrame(f).value[8..], buf[8..10 + |f.payload|];
             BurstApart(sent, got, s, 16) || OddApart(sent, got)
    ensures DecodeFrame(buf) == Err(DataMismatch)
  {
    var sent, got := EncodeFrame(f).value[8..], buf[8..10 + |f.payload|];
    hide DataTaps, Run, WireBits, Xor, DecodeFrame, EncodeFrame;
    EncodedBody(f);
    NotMultiple(sent, got, s);
    DamageRejectedIff(f, buf, Xor(WireBits(sent), WireBits(got)));
  }

  /** Two flipped bits go unseen exactly when 32767 divides their distance. */
  lemma TwoBitErrorRejectedIff(f: Frame, buf: seq<Byte>, e: seq<bool>, i: nat, d: nat)
    requires 0 < |f.payload| <= 0xFFFF && Damaged(f, buf, e) && TwoBits(e, i, d)
    ensures DecodeFrame(buf) == Err(DataMismatch) <==> d % 32767 != 0
    ensures DecodeFrame(buf).Ok? <==> d % 32767 == 0
  {
    hide DataTaps, Run, Damaged, DecodeFrame;
    DamageRejectedIff(f, buf, e);
    TwoBitsCancelIff(e, i, d);
  }

  /** Every frame damaged in one, two or three bits behind its header is rejected. */
  ghost predicate FewBitsSeen(f: Frame)
    requires 0 < |f.payload| <= 0xFFFF
  {
    forall buf, e :: Damaged(f, buf, e) && 1 <= Weight(e) <= 3 ==> DecodeFrame(buf) == Err(DataMismatch)
  }

  /** That is so exactly for payloads of at most 4093 bytes. */
  lemma FewBitsSeenIff(f: Frame)
    requires 0 < |f.payload| <= 0xFFFF
    ensures FewBitsSeen(f) <==> |f.payload| <= 4093
  {
    hide DataTaps, Run, Damaged, DecodeFrame, Weight;
    if |f.payload| <= 4093 {
      forall buf, e | Damaged(f, buf, e) && 1 <= Weight(e) <= 3 ensures DecodeFrame(buf) == Err(DataMismatch) {
        DamageLength(f, buf, e);
        DamageRejectedIff(f, buf, e);
        FewBitsLeaveRemainder(e);
      }
    } else {
      var e := Flips(8 * (|f.payload| + 2), 32767);
      var buf := Damage(f, e);
      WeightTwo(e, 0, 32767);
      TwoBitErrorRejectedIff(f, buf, e, 0, 32767);
    }
  }

  lemma DamageLength(f: Frame, buf: seq<Byte>, e: seq<bool>)
    requires 0 < |f.payload| <= 0xFFFF && Damaged(f, buf, e)
    ensures |e| == 8 * (|f.payload| + 2)
  {
    hide EncodeFrame;
  }

  /** The first bit and the one `d` places behind it. */
  function Flips(n: nat, d: nat): (e: seq<bool>)
    requires 0 < d < n
    ensures |e| == n && TwoBits(e, 0, d)
  {
    seq(n, k => k == 0 || k == d)
  }

  /** Every error pattern over payload and data CRC is what some damaged frame shows. */
  lemma Damage(f: Frame, e: seq<bool>) returns (buf: seq<Byte>)
    requires 0 < |f.payload| <= 0xFFFF && |e| == 8 * (|f.payload| + 2)
    ensures Damaged(f, buf, e)
  {
    EncodedLength(f);
    hide EncodeFrame, Xor, WireBits, Damaged;
    var wire := EncodeFrame(f).value;
    var sent := WireBits(wire[8..]);
    var got := BytesOf(Xor(sent, e), |f.payload| + 2);
    XorTwice(sent, e);
    buf := wire[..8] + got;
    Received(f, buf, got, e);
  }

  lemma Received(f: Frame, buf: seq<Byte>, got: seq<Byte>, e: seq<bool>)
    requires 0 < |f.payload| <= 0xFFFF && EncodeFrame(f).Ok? && |EncodeFrame(f).value| == 10 + |f.payload|
    requires |got| == |f.payload| + 2 && buf == EncodeFrame(f).value[..8] + got
    requires e == Xor(WireBits(EncodeFrame(f).value[8..]), WireBits(got))
    ensures Damaged(f, buf, e)
  {
    hide EncodeFrame, Xor, WireBits;
    assert buf[..8] == EncodeFrame(f).value[..8] && buf[8..10 + |f.payload|] == got;
  }

  lemma XorTwice(x: seq<bool>, e: seq<bool>)
    requires |x| == |e|
    ensures Xor(x, Xor(x, e)) == e
  {
    forall i | 0 <= i < |x| ensures Xor(x, Xor(x, e))[i] == e[i] {
      AtXor(x, e, i);
    }
  }

  /** Every bit string of whole bytes is sent by some byte string. */
  lemma {:induction false} BytesOf(bits: seq<bool>, n: nat) returns (bytes: seq<Byte>)
    requires |bits| == 8 * n
    ensures |bytes| == n && WireBits(bytes) == bits
    decreases n
  {
    hide ToByte, ByteBits;
    if n == 0 {
      bytes := [];
    } else {
      var rest := BytesOf(bits[8..], n - 1);
      bytes := [ToByte(bits[..8])] + rest;
      assert bytes[1..] == rest && bits[..8] + bits[8..] == bits;
    }
  }

  lemma EncodedLength(f: Frame)
    requires 0 < |f.payload| <= 0xFFFF
    ensures EncodeFrame(f).Ok? && |EncodeFrame(f).value| == 10 + |f.payload|
  {
    hide HeaderCrc, DataCrcBytes;
  }

  lemma EncodedBody(f: Frame)
    requires 0 < |f.payload| <= 0xFFFF
    ensures EncodeFrame(f).Ok? && EncodeFrame(f).value[8..] == f.payload + DataCrcBytes(f.payload)
  {
    hide HeaderCrc, DataCrcBytes;
  }

  lemma DecodeBody(buf: seq<Byte>, plen: nat)
    requires 0 < plen && |buf| >= 10 + plen
    requires buf[..2] == PREAMBLE && Word(buf[5], buf[6]) == plen && buf[7] == HeaderCrc(buf[2..7])
    ensures var got := buf[8..10 + plen];
            if got[plen..] == DataCrcBytes(got[..plen]) then DecodeFrame(buf).Ok? else DecodeFrame(buf) == Err(DataMismatch)
  {
    hide HeaderCrc, DataCrcBytes;
    var got := buf[8..10 + plen];
    assert buf[8..8 + plen] == got[..plen] && buf[8 + plen..8 + plen + 2] == got[plen..];
  }

  lemma NotMultiple(sent: seq<Byte>, got: seq<Byte>, s: nat)
    requires |sent| == |got| && (BurstApart(sent, got, s, 16) || OddApart(sent, got))
    ensures Run(DataTaps(), Zeros(16), Xor(WireBits(sent), WireBits(got))) != Zeros(16)
  {
    hide DataTaps, Run, WireBits, Xor;
    DataTop();
    if BurstApart(sent, got, s, 16) {
      ApartIsBurst(sent, got, s, 16);
      BurstLeavesRemainder(DataTaps(), Xor(WireBits(sent), WireBits(got)), s);
    } else {
      DataTapsOdd();
      OddLeavesRemainder(DataTaps(), Xor(WireBits(sent), WireBits(got)));
    }
  }

  lemma IntactHeader(f: Frame, buf: seq<Byte>)
    requires 0 < |f.payload| <= 0xFFFF
    requires |buf| >= 10 + |f.payload| && buf[..8] == EncodeFrame(f).value[..8]
    ensures buf[..2] == PREAMBLE && Word(buf[5], buf[6]) == |f.payload| && buf[7] == HeaderCrc(buf[2..7])
  {
    hide HeaderCrc, DataCrcBytes, Start, WireBits, DataCrc, Run, Not, ByteBits, ToByte;
    assert buf[..8] == EncodeFrame(f).value[..8] == Start(f);
    SameStart(Start(f), buf);
  }

  /** A header damaged only within eight consecutive bits of header and header CRC is rejected there. */
  lemma HeaderCorruptionRejected(f: Frame, buf: seq<Byte>, s: nat)
    requires |f.payload| <= 0xFFFF && |buf| >= 8 && buf[..2] == PREAMBLE
    requires BurstApart(Start(f)[2..8], buf[2..8], s, 8)
    ensures Start(f) <= EncodeFrame(f).value && DecodeFrame(buf) == Err(HeaderMismatch)
  {
    var sent, got := Start(f)[2..8], buf[2..8];
    assert sent == Header(f) + [HeaderCrc(Header(f))] && got == buf[2..7] + [buf[7]];
    hide DecodeFrame, EncodeFrame, HeaderTaps, Run, Residue, HeaderCrc, WireBits, Start;
    if buf[7] == HeaderCrc(buf[2..7]) {
      HeaderAccept(Header(f), HeaderCrc(Header(f)));
      HeaderAccept(buf[2..7], buf[7]);
      SameRegisterIff(HeaderTaps(), Ones(8), WireBits(sent), WireBits(got));
      HeaderTop();
      ApartIsBurst(sent, got, s, 8);
      BurstLeavesRemainder(HeaderTaps(), Xor(WireBits(sent), WireBits(got)), s);
    }
    DecodeBadHeader(f, buf);
  }

  lemma DecodeBadHeader(f: Frame, buf: seq<Byte>)
    requires |f.payload| <= 0xFFFF && |buf| >= 8 && buf[..2] == PREAMBLE
    requires buf[7] != HeaderCrc(buf[2..7])
    ensures Start(f) <= EncodeFrame(f).value && DecodeFrame(buf) == Err(HeaderMismatch)
  {
    hide HeaderCrc, DataCrcBytes, Start, WireBits, DataCrc, Run, Not, ByteBits, ToByte;
  }
}
