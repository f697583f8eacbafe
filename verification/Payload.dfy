/** Requests, replies and error replies inside a Standard Bus frame. */
module Payload {
  import opened Bits
  import opened Wrappers
  import Tlv

  const DIR_REQUEST := 0x01
  const DIR_RESPONSE := 0x02
  const FN_READ := 0x03
  const FN_WRITE := 0x04

  datatype Message =
    | ReadRequest(cls: int, member: int, instance: int)
    | WriteRequest(cls: int, member: int, instance: int, value: Tlv.Value, tag: int)
    | ReadResponse(cls: int, member: int, instance: int, value: Tlv.Value, tag: int)
    | WriteResponse(cls: int, member: int, instance: int, value: Tlv.Value, tag: int)
    | ErrorResponse(code: int)

  datatype PayloadError =
    | SelectorOutOfRange
    | BadValue(reason: Tlv.TlvError)
    | TooShort
    | UnknownDirection
    | TrailingBytes
    | BadShape
    | UnknownFunction

  /** A parameter id is class * 1000 + member. */
  function SplitParam(id: int): (int, int)
  {
    (id / 1000, id % 1000)
  }

  function JoinParam(cls: int, member: int): int
  {
    cls * 1000 + member
  }

  lemma JoinSplit(id: int)
    ensures JoinParam(SplitParam(id).0, SplitParam(id).1) == id
  {
  }

  /** Splitting undoes joining exactly for members below 1000. */
  lemma SplitJoin(cls: int, member: int)
    ensures SplitParam(JoinParam(cls, member)) == (cls, member) <==> 0 <= member < 1000
  {
  }

  predicate IsByte(n: int)
  {
    0 <= n < 256
  }

  function EncodeReadRequest(id: int, instance: int): Result<seq<Byte>, PayloadError>
  {
    var (cls, member) := SplitParam(id);
    if !IsByte(cls) || !IsByte(member) || !IsByte(instance) then Err(SelectorOutOfRange)
    else Ok([DIR_REQUEST, FN_READ, 0x01, cls, member, instance])
  }

  function EncodeWriteRequest(fl: Tlv.FloatCodec, id: int, value: Tlv.Value, instance: int, tag: int)
    : Result<seq<Byte>, PayloadError>
  {
    var (cls, member) := SplitParam(id);
    if !IsByte(cls) || !IsByte(member) || !IsByte(instance) then Err(SelectorOutOfRange)
    else
      match Tlv.Encode(fl, tag, value)
      case Err(e) => Err(BadValue(e))
      case Ok(body) => Ok([DIR_REQUEST, FN_WRITE, cls, member, instance] + body)
  }

  function DecodePayload(fl: Tlv.FloatCodec, payload: seq<Byte>): Result<Message, PayloadError>
  {
    if |payload| < 2 then Err(TooShort)
    else
      var direction, fn := payload[0] as int, payload[1] as int;
      if direction != DIR_REQUEST && direction != DIR_RESPONSE then Err(UnknownDirection)
      else if direction == DIR_RESPONSE && fn >= 0x80 then
        if |payload| != 2 then Err(TrailingBytes) else Ok(ErrorResponse(fn))
      else if fn == FN_READ then
        if direction == DIR_REQUEST then
          if |payload| < 6 || payload[2] != 0x01 then Err(BadShape)
          else Ok(ReadRequest(payload[3], payload[4], payload[5]))
        else if |payload| < 7 || payload[2] != 0x01 then Err(BadShape)
        else
          match Tlv.Decode(fl, payload[6..])
          case Err(e) => Err(BadValue(e))
          case Ok(d) => Ok(ReadResponse(payload[3], payload[4], payload[5], d.value, d.tag))
      else if fn == FN_WRITE then
        if |payload| < 6 then Err(BadShape)
        else
          match Tlv.Decode(fl, payload[5..])
          case Err(e) => Err(BadValue(e))
          case Ok(d) =>
            if direction == DIR_REQUEST then Ok(WriteRequest(payload[2], payload[3], payload[4], d.value, d.tag))
            else Ok(WriteResponse(payload[2], payload[3], payload[4], d.value, d.tag))
      else Err(UnknownFunction)
  }

  /** The bytes of a request that can be built: direction 1, function 3 or 4, and the selector of its id. */
  lemma RequestBytes(fl: Tlv.FloatCodec, id: int, value: Tlv.Value, instance: int, tag: int)
    ensures var r := EncodeReadRequest(id, instance);
      r.Ok? ==> |r.value| == 6 && r.value[..3] == [0x01, 0x03, 0x01] && Selects(r.value[3..], id, instance)
    ensures var w := EncodeWriteRequest(fl, id, value, instance, tag);
      && (w.Ok? <==> EncodeReadRequest(id, instance).Ok? && Tlv.Encode(fl, tag, value).Ok?)
      && (w.Ok? ==> |w.value| >= 5 && w.value[..2] == [0x01, 0x04] && Selects(w.value[2..5], id, instance)
                    && w.value[5..] == Tlv.Encode(fl, tag, value).value)
  {
    hide Tlv.Encode;
  }

  /** Class, member and instance of a selector; the id is a thousand times the class and the member. */
  predicate Selects(b: seq<Byte>, id: int, instance: int)
  {
    |b| == 3 && 1000 * (b[0] as int) + b[1] == id && b[2] as int == instance
  }

  /** A refusal is a reply of two bytes, the second of them a code from 0x80. */
  lemma RefusalDecodes(fl: Tlv.FloatCodec, payload: seq<Byte>, code: int)
    ensures DecodePayload(fl, payload) == Ok(ErrorResponse(code))
       <==> |payload| == 2 && payload[0] == 0x02 && payload[1] as int == code && code >= 0x80
    ensures |payload| > 2 && payload[0] == 0x02 && payload[1] >= 0x80 ==> DecodePayload(fl, payload) == Err(TrailingBytes)
  {
    hide Tlv.Decode;
  }

  /** A read request that can be built decodes to the selector of its parameter id. */
  lemma ReadRequestRoundTrip(fl: Tlv.FloatCodec, id: int, instance: int)
    ensures EncodeReadRequest(id, instance).Ok?
       <==> 0 <= id < 256_000 && id % 1000 < 256 && 0 <= instance < 256
    ensures EncodeReadRequest(id, instance).Ok? ==>
              var m := DecodePayload(fl, EncodeReadRequest(id, instance).value);
              m.Ok? && m.value.ReadRequest? && JoinParam(m.value.cls, m.value.member) == id
              && m.value.instance == instance
  {
  }

  /** A write request that can be built decodes to its selector, its tag and the value as sent. */
  lemma WriteRequestRoundTrip(fl: Tlv.FloatCodec, id: int, value: Tlv.Value, instance: int, tag: int)
    requires EncodeWriteRequest(fl, id, value, instance, tag).Ok?
    ensures Tlv.Encode(fl, tag, value).Ok?
    ensures var m := DecodePayload(fl, EncodeWriteRequest(fl, id, value, instance, tag).value);
            && m == Ok(WriteRequest(SplitParam(id).0, SplitParam(id).1, instance, Tlv.Canonical(fl, tag, value), tag))
            && JoinParam(m.value.cls, m.value.member) == id
  {
    hide Tlv.Encode, Tlv.Decode, Tlv.Canonical;
    var body := Tlv.Encode(fl, tag, value).value;
    var payload := EncodeWriteRequest(fl, id, value, instance, tag).value;
    Tlv.DecodeEncode(fl, tag, value, []);
    assert payload[5..] == body + [];
    JoinSplit(id);
    Tlv.EncodedNonEmpty(fl, tag, value);
  }

  /** A device's read reply, whatever follows its value, decodes to the selector and value it carries. */
  lemma ReadReplyDecodes(fl: Tlv.FloatCodec, cls: Byte, member: Byte, instance: Byte, tag: int, value: Tlv.Value, rest: seq<Byte>)
    requires Tlv.Encode(fl, tag, value).Ok?
    ensures var payload := [0x02, 0x03, 0x01, cls, member, instance] + (Tlv.Encode(fl, tag, value).value + rest);
            DecodePayload(fl, payload) == Ok(ReadResponse(cls, member, instance, Tlv.Canonical(fl, tag, value), tag))
  {
    hide Tlv.Encode, Tlv.Decode, Tlv.Canonical;
    var body := Tlv.Encode(fl, tag, value).value + rest;
    Tlv.DecodeEncode(fl, tag, value, rest);
    Tlv.EncodedNonEmpty(fl, tag, value);
    assert ([DIR_RESPONSE, FN_READ, 0x01, cls, member, instance] + body)[6..] == body;
  }

  /** Likewise for the echo of a write. */
  lemma WriteReplyDecodes(fl: Tlv.FloatCodec, cls: Byte, member: Byte, instance: Byte, tag: int, value: Tlv.Value, rest: seq<Byte>)
    requires Tlv.Encode(fl, tag, value).Ok?
    ensures var payload := [0x02, 0x04, cls, member, instance] + (Tlv.Encode(fl, tag, value).value + rest);
            DecodePayload(fl, payload) == Ok(WriteResponse(cls, member, instance, Tlv.Canonical(fl, tag, value), tag))
  {
    hide Tlv.Encode, Tlv.Decode, Tlv.Canonical;
    var body := Tlv.Encode(fl, tag, value).value + rest;
    Tlv.DecodeEncode(fl, tag, value, rest);
    Tlv.EncodedNonEmpty(fl, tag, value);
    assert ([DIR_RESPONSE, FN_WRITE, cls, member, instance] + body)[5..] == body;
  }
}
