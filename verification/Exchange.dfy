/** Calls of a session over one Standard Bus line: which reply answers which call. */
module Exchange {
  import opened Bits
  import opened Wrappers
  import opened Framing
  import opened StdBusClient
  import Payload
  import Registry
  import S = Session
  import Tlv

  /** A device's answer to a read, as it leaves the device. */
  datatype Answer = Answer(frameType: Byte, dst: Byte, src: Byte, cls: Byte, member: Byte, instance: Byte, tag: int, value: Tlv.Value)

  predicate Sendable(fl: Tlv.FloatCodec, a: Answer)
  {
    Tlv.Encode(fl, a.tag, a.value).Ok? && |Tlv.Encode(fl, a.tag, a.value).value| <= MAX_PAYLOAD - 6
  }

  function FrameOf(fl: Tlv.FloatCodec, a: Answer): Frame
    requires Sendable(fl, a)
  {
    Frame(a.frameType, a.dst, a.src, [0x02, 0x03, 0x01, a.cls, a.member, a.instance] + (Tlv.Encode(fl, a.tag, a.value).value + []))
  }

  /** The answers on the line, one frame after the other. */
  function Line(fl: Tlv.FloatCodec, answers: seq<Answer>): seq<Byte>
    requires forall a <- answers :: Sendable(fl, a)
  {
    if answers == [] then []
    else
      var wire := EncodeFrame(FrameOf(fl, answers[0]));
      (if wire.Ok? then wire.value else []) + Line(fl, answers[1..])
  }

  /** What an answer decodes to. */
  function MessageOf(fl: Tlv.FloatCodec, a: Answer): Payload.Message
    requires Sendable(fl, a)
  {
    Payload.ReadResponse(a.cls, a.member, a.instance, Tlv.Canonical(fl, a.tag, a.value), a.tag)
  }

  /** The replies that `n` exchanges take off a line in turn. */
  function Exchanges(fl: Tlv.FloatCodec, line: seq<Byte>, n: nat): seq<Result<Reply, ClientError>>
    decreases n
  {
    if n == 0 then []
    else
      var read := Scan(line, 0);
      [ReplyOf(fl, read)] + if read.Got? then Exchanges(fl, read.rest, n - 1) else []
  }

  lemma FirstAnswer(fl: Tlv.FloatCodec, answers: seq<Answer>, tail: seq<Byte>)
    requires answers != [] && forall a <- answers :: Sendable(fl, a)
    ensures var read := Scan(Line(fl, answers) + tail, 0);
      && read.Got? && read.rest == Line(fl, answers[1..]) + tail
      && ReplyOf(fl, read).Ok? && ReplyOf(fl, read).value.payload == MessageOf(fl, answers[0])
  {
    hide Tlv.Encode, Tlv.Canonical, DecodeFrame, EncodeFrame, Scan, ReadBody, ReplyOf;
    var a := answers[0];
    assert Sendable(fl, a);
    AnswerRecovered(fl, [], a.frameType, a.dst, a.src, a.cls, a.member, a.instance, a.tag, a.value, Line(fl, answers[1..]) + tail);
    var wire := EncodeFrame(FrameOf(fl, a)).value;
    assert Line(fl, answers) + tail == [] + wire + (Line(fl, answers[1..]) + tail);
  }

  /** The k-th exchange is answered by the k-th frame on the line, whoever it was meant for. */
  lemma {:induction false} AnsweredInTurn(fl: Tlv.FloatCodec, answers: seq<Answer>, n: nat, tail: seq<Byte>)
    requires n <= |answers| && forall a <- answers :: Sendable(fl, a)
    ensures var replies := Exchanges(fl, Line(fl, answers) + tail, n);
      |replies| == n && forall k :: 0 <= k < n ==> replies[k].Ok? && replies[k].value.payload == MessageOf(fl, answers[k])
    decreases n
  {
    hide Scan, ReplyOf, Line, MessageOf, Sendable;
    if n > 0 {
      FirstAnswer(fl, answers, tail);
      AnsweredInTurn(fl, answers[1..], n - 1, tail);
    }
  }

  /** A reply left over from a call that timed out puts every later call one reply behind. */
  lemma OneReplyBehind(fl: Tlv.FloatCodec, late: Answer, due: seq<Answer>, tail: seq<Byte>)
    requires Sendable(fl, late) && forall a <- due :: Sendable(fl, a)
    ensures var replies := Exchanges(fl, Line(fl, [late] + due) + tail, |due|);
      && |replies| == |due| && (forall k :: 0 <= k < |due| ==> replies[k].Ok?)
      && (due != [] ==> replies[0].value.payload == MessageOf(fl, late))
      && (forall k :: 1 <= k < |due| ==> replies[k].value.payload == MessageOf(fl, due[k - 1]))
  {
    hide Exchanges, Line, MessageOf, Sendable;
    AnsweredInTurn(fl, [late] + due, |due|, tail);
  }

  /**
   * Exchanges get their own replies exactly when nothing is left over on the line before them. The first reply
   * left over, if any, is taken to be another one than the first that is due.
   */
  lemma OwnRepliesIffNothingIsStale(fl: Tlv.FloatCodec, stale: seq<Answer>, due: seq<Answer>, tail: seq<Byte>)
    requires (forall a <- stale :: Sendable(fl, a)) && (forall a <- due :: Sendable(fl, a)) && due != []
    requires stale != [] ==> MessageOf(fl, stale[0]) != MessageOf(fl, due[0])
    ensures var replies := Exchanges(fl, Line(fl, stale + due) + tail, |due|);
      && |replies| == |due| && (forall k :: 0 <= k < |due| ==> replies[k].Ok?)
      && ((forall k :: 0 <= k < |due| ==> replies[k].value.payload == MessageOf(fl, due[k])) <==> stale == [])
  {
    hide Exchanges, Line, MessageOf, Sendable;
    AnsweredInTurn(fl, stale + due, |due|, tail);
    assert stale == [] ==> stale + due == due;
    assert stale != [] ==> (stale + due)[0] == stale[0];
  }

  predicate IsSupported(s: S.State, key: S.Key)
  {
    key in s.availability && s.availability[key] == S.Supported
  }

  /**
   * The session takes whatever read reply comes next as its answer, provided it knows the parameter the reply
   * names: it returns that reply's value and marks the parameter it had asked for as supported.
   */
  lemma AnyReplyAnswers(env: S.Env, s: S.State, request: S.Request, confirm: bool, sent: S.Sent, late: Answer, due: seq<Answer>, tail: seq<Byte>)
    requires request.Read? && S.Start(env, s, request, confirm) == Ok(sent)
    requires Sendable(env.floats, late) && forall a <- due :: Sendable(env.floats, a)
    ensures var reply := ReplyOf(env.floats, Scan(Line(env.floats, [late] + due) + tail, 0));
      && reply.Ok?
      && var outcome := S.OutcomeOf(env, s.index, request, reply.value.payload);
         if Registry.Lookup(env.fold, s.index, Registry.Id(Payload.JoinParam(late.cls, late.member))).Ok? then
           && outcome == S.Decoded(Tlv.Canonical(env.floats, late.tag, late.value))
           && IsSupported(S.Complete(s, sent, outcome), S.KeyOf(env, s.index, request))
         else outcome == S.DecodeRefused
  {
    hide Line, Scan, ReplyOf, S.Start, S.KeyOf, Tlv.Encode, Tlv.Canonical;
    FirstAnswer(env.floats, [late] + due, tail);
    S.StartedKey(env, s, request, confirm);
  }

  /** A reply carries the selector of the request. */
  predicate Matches(request: Payload.Message, a: Answer)
  {
    request.ReadRequest? && request.cls == a.cls && request.member == a.member && request.instance == a.instance
  }

  /** A reply is one to what was asked on the wire exactly when parameter and instance are the same. */
  lemma RightAnswerIff(env: S.Env, s: S.State, request: S.Request, confirm: bool, sent: S.Sent, a: Answer)
    requires env.kind.StdBus? && request.Read? && S.Start(env, s, request, confirm) == Ok(sent)
    ensures sent.op.Payload? && Payload.DecodePayload(env.floats, sent.op.bytes).Ok?
    ensures Matches(Payload.DecodePayload(env.floats, sent.op.bytes).value, a)
       <==> Payload.JoinParam(a.cls, a.member) == sent.spec.id && a.instance == request.instance
  {
    hide S.Start, Payload.DecodePayload;
    S.PayloadNamesTheParameter(env, s, request, confirm);
    SelectorIsByte(env.floats, sent.op.bytes);
  }

  lemma SelectorIsByte(fl: Tlv.FloatCodec, bytes: seq<Byte>)
    ensures var m := Payload.DecodePayload(fl, bytes);
      m.Ok? && m.value.ReadRequest? ==> 0 <= m.value.cls < 256 && 0 <= m.value.member < 256
  {
    hide Tlv.Decode;
  }
}
