/** A device session: dispatch, the confirm gate, and the availability automaton. */
module Session {
  import opened Bits
  import opened Wrappers
  import Registry
  import Payload
  import ModbusCodec
  import Tlv

  datatype Kind = StdBus | ModbusRtu | Auto

  datatype Request =
    | Read(target: Registry.Target, instance: int)
    | Write(target: Registry.Target, instance: int, value: Tlv.Value)

  /** What a session is opened with: case folding, ids as text, the protocol, and the float and text codecs. */
  datatype Env = Env(
    fold: Registry.Fold, show: int -> string, kind: Kind, floats: Tlv.FloatCodec,
    textWords: (string, nat) -> Option<seq<ModbusCodec.Register>>)

  /** A Standard Bus payload, or a Modbus operation; a single register is written by a function of its own. */
  datatype Op =
    | Payload(bytes: seq<Byte>)
    | ReadRegisters(address: int, count: nat)
    | WriteRegister(address: int, word: ModbusCodec.Register)
    | WriteRegisters(address: int, words: seq<ModbusCodec.Register>)

  datatype Error =
    | Unsupported | ConfirmationRequired | Invalid(reason: Registry.Invalid) | BadPayload(why: Payload.PayloadError)
    | BadWords(what: ModbusCodec.CodecError) | BadOp | NotText | TextTooLong | DividedByZero | Refused | Failed

  // ---------------------------------------------------------------- encoding, before any I/O

  function Number(v: Tlv.Value): Option<real>
  {
    if v.Int? || v.Float? then Some(Tlv.AsReal(v)) else None
  }

  function Tag(t: Registry.DataType): int
  {
    match t
    case U8 => Tlv.U8
    case U16 => Tlv.U16
    case S16 => Tlv.S16
    case U32 => Tlv.U32
    case S32 => Tlv.S32
    case Float => Tlv.FLOAT
    case Text => Tlv.STRING
    case Packed => Tlv.PACKED
  }

  /** The row a request is about, with its instance checked; instance 0 stands for the row's default. */
  function Resolve(env: Env, index: Registry.Index, request: Request): Result<Registry.Spec, Error>
  {
    match Registry.Lookup(env.fold, index, request.target)
    case Err(e) => Err(Invalid(e))
    case Ok(spec) =>
      var checked := Registry.ValidateInstance(spec, if request.instance == 0 then spec.defaultInstance else request.instance);
      if checked.Err? then Err(Invalid(checked.error)) else Ok(spec)
  }

  /** The checks of a write, in order: the row is not read-only, and a number is in range. */
  function Permit(spec: Registry.Spec, value: Tlv.Value): Result<(), Error>
  {
    var writable := Registry.ValidateWritable(spec);
    if writable.Err? then Err(Invalid(writable.error))
    else
      var ranged := Registry.ValidateValue(spec, Number(value));
      if ranged.Err? then Err(Invalid(ranged.error)) else Ok(())
  }

  function EncodeStdBus(env: Env, spec: Registry.Spec, request: Request): Result<Op, Error>
  {
    if request.Write? && spec.dataType.Text? && !request.value.Text? then Err(NotText)
    else
      var payload :=
        if request.Read? then Payload.EncodeReadRequest(spec.id, request.instance)
        else Payload.EncodeWriteRequest(env.floats, spec.id, request.value, request.instance, Tag(spec.dataType));
      if payload.Err? then Err(BadPayload(payload.error)) else Ok(Op.Payload(payload.value))
  }

  /** How many registers a row takes: its own count, or that of its type. */
  function Registers(spec: Registry.Spec): nat
  {
    if spec.registerCount != 0 then spec.registerCount
    else if spec.dataType.Text? then 8
    else ModbusCodec.Width(spec.dataType)
  }

  predicate IsAddress(address: int)
  {
    0 <= address <= 0xFFFF
  }

  /** A read is of 1 to 125 registers. */
  function ReadOp(address: int, count: nat): Result<Op, Error>
  {
    if !IsAddress(address) || count < 1 || count > 125 then Err(BadOp) else Ok(ReadRegisters(address, count))
  }

  /** A write is of one register, or of 1 to 123; there are as many words as registers. */
  function WriteOp(address: int, count: nat, words: seq<ModbusCodec.Register>): Result<Op, Error>
  {
    if !IsAddress(address) then Err(BadOp)
    else if count == 1 then if |words| != 1 then Err(BadOp) else Ok(WriteRegister(address, words[0]))
    else if count < 1 || count > 123 || |words| != count then Err(BadOp)
    else Ok(WriteRegisters(address, words))
  }

  /** Only the default instance has a register. */
  function EncodeModbus(env: Env, spec: Registry.Spec, request: Request): Result<Op, Error>
  {
    if request.instance != spec.defaultInstance then Err(Unsupported)
    else if request.Read? then ReadOp(spec.relativeAddr, Registers(spec))
    else if spec.dataType.Text? then
      if !request.value.Text? then Err(NotText)
      else
        var words := env.textWords(request.value.s, Registers(spec));
        if words.None? then Err(TextTooLong) else WriteOp(spec.relativeAddr, Registers(spec), words.value)
    else if Number(request.value).None? then Err(BadWords(ModbusCodec.NotANumber))
    else if spec.scale == 0.0 then Err(DividedByZero)
    else
      var words := ModbusCodec.WriteWords(spec, request.value, env.floats);
      if words.Err? then Err(BadWords(words.error)) else WriteOp(spec.relativeAddr, Registers(spec), words.value)
  }

  // ---------------------------------------------------------------- one call in two halves

  datatype Availability = Supported | NotSupported

  /** The command and the parameter it resolves to, or the target as given if it does not resolve. */
  datatype Key = Key(write: bool, text: string)

  function KeyOf(env: Env, index: Registry.Index, request: Request): Key
  {
    var spec := Registry.Lookup(env.fold, index, request.target);
    Key(request.Write?,
        if spec.Ok? then env.show(spec.value.id)
        else if request.target.Name? then request.target.name else env.show(request.target.id))
  }

  /** A transaction on the wire, with the row it was encoded for and whether the caller confirmed it. */
  datatype Sent = Sent(key: Key, op: Op, spec: Registry.Spec, request: Request, confirmed: bool)

  /** How a transaction ends: on the wire, in decoding, or with a value. */
  datatype Outcome =
    | WireRejected | WireRefused | WireFailed
    | DecodeRejected | DecodeRefused | DecodeFailed | Decoded(value: Tlv.Value)

  datatype State = State(
    index: Registry.Index, availability: map<Key, Availability>, lastError: Option<Error>, wire: seq<Sent>)

  predicate IsUnsupported(s: State, key: Key)
  {
    key in s.availability && s.availability[key] == NotSupported
  }

  /** The first half of a call: everything before the lock. It changes nothing. */
  function Start(env: Env, s: State, request: Request, confirm: bool): Result<Sent, Error>
  {
    if env.kind.Auto? then Err(Unsupported)
    else
      var key := KeyOf(env, s.index, request);
      if IsUnsupported(s, key) then Err(Unsupported)
      else if request.Write? && !confirm then Err(ConfirmationRequired)
      else
        match Resolve(env, s.index, request)
        case Err(e) => Err(e)
        case Ok(spec) =>
          var permitted := if request.Write? then Permit(spec, request.value) else Ok(());
          if permitted.Err? then Err(permitted.error)
          else
            match if env.kind.StdBus? then EncodeStdBus(env, spec, request) else EncodeModbus(env, spec, request)
            case Err(e) => Err(e)
            case Ok(op) => Ok(Sent(key, op, spec, request, confirm))
  }

  /** What an outcome is for the caller. */
  function ErrorOf(outcome: Outcome): Option<Error>
  {
    match outcome
    case WireRejected => Some(Unsupported)
    case DecodeRejected => Some(Unsupported)
    case WireRefused => Some(Refused)
    case DecodeRefused => Some(Refused)
    case WireFailed => Some(Failed)
    case DecodeFailed => Some(Failed)
    case Decoded(_) => None
  }

  /** The second half: the transaction and its outcome. Only a rejection or a decoded reply moves the availability. */
  function Complete(s: State, sent: Sent, outcome: Outcome): State
  {
    State(s.index,
          match outcome
          case WireRejected => s.availability[sent.key := NotSupported]
          case DecodeRejected => s.availability[sent.key := NotSupported]
          case Decoded(_) => s.availability[sent.key := Supported]
          case _ => s.availability,
          if outcome.Decoded? || outcome.DecodeFailed? then s.lastError else ErrorOf(outcome),
          s.wire + [sent])
  }

  /**
   * A key becomes unsupported by a rejection alone, and stops being so by an answer alone; no other key moves, and
   * the transaction is the one thing added to the wire.
   */
  lemma OnlyRejectionsAndAnswersMove(s: State, sent: Sent, outcome: Outcome, key: Key)
    ensures var t := Complete(s, sent, outcome);
      && t.index == s.index && t.wire == s.wire + [sent]
      && (IsUnsupported(t, key) <==>
            if key == sent.key && (outcome.WireRejected? || outcome.DecodeRejected?) then true
            else if key == sent.key && outcome.Decoded? then false
            else IsUnsupported(s, key))
      && (t.lastError != s.lastError ==> !outcome.Decoded? && !outcome.DecodeFailed? && t.lastError in {Some(Unsupported), Some(Refused), Some(Failed)})
  {
  }

  const NO_SUCH_OBJECT := 0x81
  const NO_SUCH_ATTRIBUTE := 0x83

  /** How a Standard Bus reply ends a call. Which parameter it is about is not compared with the request. */
  function OutcomeOf(env: Env, index: Registry.Index, request: Request, m: Payload.Message): Outcome
  {
    if m.ErrorResponse? then
      if m.code == NO_SUCH_OBJECT || m.code == NO_SUCH_ATTRIBUTE then DecodeRejected else DecodeRefused
    else if !(if request.Read? then m.ReadResponse? else m.WriteResponse?) then DecodeRefused
    else if Registry.Lookup(env.fold, index, Registry.Id(Payload.JoinParam(m.cls, m.member))).Err? then DecodeRefused
    else Decoded(m.value)
  }

  /** Of all payloads a device can answer with, exactly the two that deny the object or the attribute make the key unsupported. */
  lemma OnlyDenialsReject(env: Env, s: State, sent: Sent, payload: seq<Byte>)
    requires !IsUnsupported(s, sent.key) && Payload.DecodePayload(env.floats, payload).Ok?
    ensures var m := Payload.DecodePayload(env.floats, payload).value;
      IsUnsupported(Complete(s, sent, OutcomeOf(env, s.index, sent.request, m)), sent.key)
      <==> payload == [0x02, 0x81] || payload == [0x02, 0x83]
  {
    hide Tlv.Decode;
    var m := Payload.DecodePayload(env.floats, payload).value;
    if m.ErrorResponse? { assert payload == [payload[0], payload[1]]; }
  }

  /** A call returns a value exactly if the payload is the reply of its command for a known parameter, and then that of the payload. */
  lemma RepliesDecode(env: Env, index: Registry.Index, request: Request, m: Payload.Message, value: Tlv.Value)
    ensures OutcomeOf(env, index, request, m) == Decoded(value)
       <==> && (request.Read? ==> m.ReadResponse?) && (request.Write? ==> m.WriteResponse?)
            && Registry.Lookup(env.fold, index, Registry.Id(m.cls * 1000 + m.member)).Ok? && m.value == value
    ensures OutcomeOf(env, index, request, m).DecodeRejected? <==> m.ErrorResponse? && (m.code == 0x81 || m.code == 0x83)
    ensures OutcomeOf(env, index, request, m) in {DecodeRejected, DecodeRefused, Decoded(value)} || OutcomeOf(env, index, request, m).Decoded?
  {
  }

  // ---------------------------------------------------------------- runs of calls that do not overlap

  datatype Call = Execute(request: Request, confirm: bool, outcome: Outcome) | Bind(index: Registry.Index)

  function After(env: Env, s: State, call: Call): State
  {
    match call
    case Bind(index) => s.(index := index)
    case Execute(request, confirm, outcome) =>
      var sent := Start(env, s, request, confirm);
      if sent.Err? then s else Complete(s, sent.value, outcome)
  }

  function Run(env: Env, s: State, calls: seq<Call>): State
    decreases |calls|
  {
    if calls == [] then s else Run(env, After(env, s, calls[0]), calls[1..])
  }

  lemma StartedKey(env: Env, s: State, request: Request, confirm: bool)
    ensures var r := Start(env, s, request, confirm);
      && (r.Ok? ==> r.value.key == KeyOf(env, s.index, request) && !IsUnsupported(s, r.value.key))
      && (IsUnsupported(s, KeyOf(env, s.index, request)) ==> r == Err(Unsupported))
  {
    hide EncodeStdBus, EncodeModbus, Permit, Resolve;
  }

  /** Once a key is unsupported no run of calls changes that or puts another transaction for it on the wire. */
  lemma {:induction false} UnsupportedSticks(env: Env, s: State, calls: seq<Call>, key: Key)
    requires IsUnsupported(s, key)
    ensures var z := Run(env, s, calls);
      && IsUnsupported(z, key)
      && |z.wire| >= |s.wire| && z.wire[..|s.wire|] == s.wire
      && forall i :: |s.wire| <= i < |z.wire| ==> z.wire[i].key != key
    decreases |calls|
  {
    hide Start, KeyOf;
    if calls != [] {
      var next := After(env, s, calls[0]);
      if calls[0].Execute? { StartedKey(env, s, calls[0].request, calls[0].confirm); }
      UnsupportedSticks(env, next, calls[1..], key);
    }
  }

  /**
   * After a rejection, on the wire or in decoding, no later call of that command reaches the wire for that
   * parameter, through whatever name, alias or id it is asked, and however the registry is rebound.
   */
  lemma RejectionIsFinal(env: Env, s: State, request: Request, confirm: bool, outcome: Outcome, calls: seq<Call>,
                         again: Request, confirmAgain: bool)
    requires Start(env, s, request, confirm).Ok? && (outcome.WireRejected? || outcome.DecodeRejected?)
    requires again.Write? == request.Write?
    requires var z := Run(env, After(env, s, Execute(request, confirm, outcome)), calls);
      var was, now := Registry.Lookup(env.fold, s.index, request.target), Registry.Lookup(env.fold, z.index, again.target);
      was.Ok? && now.Ok? && now.value.id == was.value.id
    ensures var first := After(env, s, Execute(request, confirm, outcome));
      var z := Run(env, first, calls);
      && Start(env, z, again, confirmAgain) == Err(Unsupported)
      && forall i :: |first.wire| <= i < |z.wire| ==> z.wire[i].key != KeyOf(env, s.index, request)
  {
    hide Start, Run;
    var key := KeyOf(env, s.index, request);
    var first := After(env, s, Execute(request, confirm, outcome));
    StartedKey(env, s, request, confirm);
    UnsupportedSticks(env, first, calls, key);
    StartedKey(env, Run(env, first, calls), again, confirmAgain);
  }

  /** Requests that resolve share a key exactly when they are the same command on the same parameter. */
  lemma KeysArePerParameter(env: Env, index: Registry.Index, a: Request, b: Request)
    requires forall i, j :: env.show(i) == env.show(j) ==> i == j
    requires Registry.Lookup(env.fold, index, a.target).Ok? && Registry.Lookup(env.fold, index, b.target).Ok?
    ensures KeyOf(env, index, a) == KeyOf(env, index, b)
       <==> a.Write? == b.Write?
            && Registry.Lookup(env.fold, index, a.target).value.id == Registry.Lookup(env.fold, index, b.target).value.id
  {
  }

  /** The selector of a Standard Bus request: class and member of the id, and the instance, are bytes. */
  predicate Selectable(id: int, instance: int)
  {
    0 <= id < 256_000 && id % 1000 < 256 && 0 <= instance < 256
  }

  /** A value a Standard Bus write can carry to a row, told from the row's type. */
  predicate Carries(env: Env, t: Registry.DataType, v: Tlv.Value)
  {
    match t
    case Text => v.Text? && |v.s| <= 255 && Tlv.Ascii(v.s)
    case Float => (v.Int? || v.Float?) && env.floats.pack(Tlv.AsReal(v)).Some?
    case U8 => (v.Int? || v.Float?) && 0 <= Tlv.AsInt(v) <= 255
    case U16 => (v.Int? || v.Float?) && 0 <= Tlv.AsInt(v) <= 65535
    case Packed => (v.Int? || v.Float?) && 0 <= Tlv.AsInt(v) <= 65535
    case U32 => (v.Int? || v.Float?) && 0 <= Tlv.AsInt(v) <= 4294967295
    case S32 => (v.Int? || v.Float?) && -2147483648 <= Tlv.AsInt(v) <= 2147483647
    case S16 => false
  }

  /** A value a Modbus write can put into `count` registers of a row. */
  predicate Packs(env: Env, spec: Registry.Spec, v: Tlv.Value, count: nat)
  {
    if spec.dataType.Text? then
      v.Text? && env.textWords(v.s, count).Some? && |env.textWords(v.s, count).value| == count
    else
      && (v.Int? || v.Float?) && spec.scale != 0.0 && count == ModbusCodec.Width(spec.dataType)
      && var n := if spec.scale == 1.0 then Tlv.AsInt(v) else ModbusCodec.Round(Tlv.AsReal(v) / spec.scale);
      match spec.dataType
      case S16 => -32768 <= n <= 32767
      case U32 => 0 <= n <= 4294967295
      case S32 => -2147483648 <= n <= 2147483647
      case Float => env.floats.pack(if spec.scale == 1.0 then Tlv.AsReal(v) else n as real).Some?
      case _ => true
  }

  /** A request that its protocol can carry to a row. */
  ghost predicate Encodable(env: Env, spec: Registry.Spec, request: Request)
  {
    match env.kind
    case Auto => false
    case StdBus => Selectable(spec.id, request.instance) && (request.Write? ==> Carries(env, spec.dataType, request.value))
    case ModbusRtu =>
      && request.instance == spec.defaultInstance && 0 <= spec.relativeAddr <= 0xFFFF
      && exists count :: 1 <= count <= (if request.Read? then 125 else 123) && Takes(spec, count)
                         && (request.Write? ==> Packs(env, spec, request.value, count))
  }

  /**
   * The checks before the wire, in their order. A request that passes them all goes out exactly if its
   * protocol can carry it to its row.
   */
  lemma ChecksInOrder(env: Env, s: State, request: Request, confirm: bool)
    ensures var r, found := Start(env, s, request, confirm), Registry.Lookup(env.fold, s.index, request.target);
      if env.kind.Auto? || IsUnsupported(s, KeyOf(env, s.index, request)) then r == Err(Unsupported)
      else if request.Write? && !confirm then r == Err(ConfirmationRequired)
      else if found.Err? then r == Err(Invalid(found.error))
      else
        var spec := found.value;
        var instance := if request.instance == 0 then spec.defaultInstance else request.instance;
        if !(1 <= instance <= spec.maxInstance) then r == Err(Invalid(Registry.InstanceOutOfRange))
        else if request.Write? && spec.rwes == Registry.R then r == Err(Invalid(Registry.ReadOnly))
        else if request.Write? && OutOfRange(spec, request.value) then r == Err(Invalid(Registry.ValueOutOfRange))
        else if r.Ok? then Encodable(env, spec, request) && r.value.spec == spec && r.value.request == request && r.value.confirmed == confirm
        else !Encodable(env, spec, request) && r.error !in {ConfirmationRequired, Invalid(Registry.InstanceOutOfRange), Refused, Failed}
  {
    hide KeyOf, EncodeStdBus, EncodeModbus, Encodable;
    var found := Registry.Lookup(env.fold, s.index, request.target);
    if found.Ok? && !env.kind.Auto? { CarriedIff(env, found.value, request); }
  }

  /** A number outside the range of its row. */
  predicate OutOfRange(spec: Registry.Spec, v: Tlv.Value)
  {
    && (v.Int? || v.Float?) && spec.rangeMin.Some? && spec.rangeMax.Some?
    && !(spec.rangeMin.value <= Tlv.AsReal(v) <= spec.rangeMax.value)
  }

  lemma CarriedIff(env: Env, spec: Registry.Spec, request: Request)
    requires !env.kind.Auto?
    ensures var r := if env.kind.StdBus? then EncodeStdBus(env, spec, request) else EncodeModbus(env, spec, request);
      && (r.Ok? <==> Encodable(env, spec, request))
      && (r.Err? ==> r.error !in {ConfirmationRequired, Invalid(Registry.InstanceOutOfRange), Refused, Failed})
  {
    hide Carries, Packs, Payload.EncodeWriteRequest, Payload.EncodeReadRequest, ModbusCodec.WriteWords;
    if env.kind.StdBus? {
      Payload.ReadRequestRoundTrip(env.floats, spec.id, request.instance);
      if request.Write? { CarriesIff(env, spec, request); }
    } else {
      var count := Registers(spec);
      assert Takes(spec, count);
      if request.Write? && request.instance == spec.defaultInstance { PacksIff(env, spec, request); }
    }
  }

  lemma CarriesIff(env: Env, spec: Registry.Spec, request: Request)
    requires request.Write?
    ensures EncodeStdBus(env, spec, request).Ok? <==> Selectable(spec.id, request.instance) && Carries(env, spec.dataType, request.value)
  {
  }

  lemma PacksIff(env: Env, spec: Registry.Spec, request: Request)
    requires request.Write? && request.instance == spec.defaultInstance
    ensures EncodeModbus(env, spec, request).Ok?
       <==> 0 <= spec.relativeAddr <= 0xFFFF && 1 <= Registers(spec) <= 123 && Packs(env, spec, request.value, Registers(spec))
  {
    hide ModbusCodec.WriteWords;
    if !spec.dataType.Text? && Number(request.value).Some? && spec.scale != 0.0 {
      ModbusCodec.WordsFit(spec, request.value, env.floats);
      ModbusCodec.WritableIff(spec, request.value, env.floats);
    }
  }

  /**
   * What has been checked of anything on the wire: a write was confirmed, its row is not read-only and its
   * number in range, and the instance the check looks at exists. That one is the row's default in place of 0.
   */
  predicate Safe(sent: Sent)
  {
    && (sent.request.Write? ==>
          && sent.confirmed && sent.spec.rwes != Registry.R
          && var n := Number(sent.request.value);
             n.Some? && sent.spec.rangeMin.Some? && sent.spec.rangeMax.Some? ==>
               sent.spec.rangeMin.value <= n.value <= sent.spec.rangeMax.value)
    && 1 <= (if sent.request.instance == 0 then sent.spec.defaultInstance else sent.request.instance) <= sent.spec.maxInstance
  }

  lemma StartsAreSafe(env: Env, s: State, request: Request, confirm: bool)
    ensures Start(env, s, request, confirm).Ok? ==> Safe(Start(env, s, request, confirm).value)
  {
    hide EncodeStdBus, EncodeModbus, KeyOf;
  }

  /** Nothing unconfirmed, read-only or out of range ever reaches the wire, and nothing whose instance fails its check. */
  lemma {:induction false} WireIsSafe(env: Env, s: State, calls: seq<Call>)
    requires forall i :: 0 <= i < |s.wire| ==> Safe(s.wire[i])
    ensures forall i :: 0 <= i < |Run(env, s, calls).wire| ==> Safe(Run(env, s, calls).wire[i])
    decreases |calls|
  {
    hide Start, Safe;
    if calls != [] {
      if calls[0].Execute? { StartsAreSafe(env, s, calls[0].request, calls[0].confirm); }
      WireIsSafe(env, After(env, s, calls[0]), calls[1..]);
    }
  }

  /** A Standard Bus read or write on the wire names the parameter that was asked for, and the instance as it was given. */
  lemma PayloadNamesTheParameter(env: Env, s: State, request: Request, confirm: bool)
    requires env.kind.StdBus? && Start(env, s, request, confirm).Ok?
    ensures var sent := Start(env, s, request, confirm).value;
      && sent.op.Payload? && Registry.Lookup(env.fold, s.index, request.target) == Ok(sent.spec)
      && var m := Payload.DecodePayload(env.floats, sent.op.bytes);
         && m.Ok? && (if request.Read? then m.value.ReadRequest? else m.value.WriteRequest?)
         && Payload.JoinParam(m.value.cls, m.value.member) == sent.spec.id
         && m.value.instance == request.instance
  {
    hide Payload.DecodePayload, Payload.EncodeReadRequest, Payload.EncodeWriteRequest, Permit, KeyOf;
    var spec := Start(env, s, request, confirm).value.spec;
    if request.Read? {
      Payload.ReadRequestRoundTrip(env.floats, spec.id, request.instance);
    } else {
      Payload.WriteRequestRoundTrip(env.floats, spec.id, request.value, request.instance, Tag(spec.dataType));
    }
  }

  /** The tag of a row's type on Standard Bus. */
  predicate TaggedAs(t: Registry.DataType, tag: int)
  {
    match t
    case U8 => tag == 0x01
    case U16 => tag == 0x03
    case U32 => tag == 0x05
    case S32 => tag == 0x06
    case Float => tag == 0x08
    case Text => tag == 0x09
    case Packed => tag == 0x0F
    case S16 => false
  }

  /** A Standard Bus write on the wire carries the value asked for, under the tag of its row's type; a signed 16-bit row has none. */
  lemma PayloadCarriesTheValue(env: Env, s: State, request: Request, confirm: bool)
    requires env.kind.StdBus? && request.Write? && Start(env, s, request, confirm).Ok?
    ensures var sent := Start(env, s, request, confirm).value;
      && sent.op.Payload?
      && var m := Payload.DecodePayload(env.floats, sent.op.bytes);
         && m.Ok? && m.value.WriteRequest? && TaggedAs(sent.spec.dataType, m.value.tag)
         && Tlv.Encode(env.floats, m.value.tag, request.value).Ok?
         && m.value.value == Tlv.Canonical(env.floats, m.value.tag, request.value)
  {
    hide Payload.DecodePayload, Payload.EncodeWriteRequest, Permit, KeyOf, Tlv.Encode, Tlv.Canonical, Resolve;
    var spec := Start(env, s, request, confirm).value.spec;
    var tag := Tag(spec.dataType);
    Payload.WriteRequestRoundTrip(env.floats, spec.id, request.value, request.instance, tag);
    if spec.dataType.S16? { NoSignedWord(env.floats, request.value); }
  }

  lemma NoSignedWord(fl: Tlv.FloatCodec, v: Tlv.Value)
    ensures Tlv.Encode(fl, 0x86, v).Err?
  {
  }

  /** The registers a Modbus operation is about. */
  predicate At(op: Op, address: int, count: nat)
  {
    match op
    case Payload(_) => false
    case ReadRegisters(a, n) => a == address && n == count
    case WriteRegister(a, _) => a == address && count == 1
    case WriteRegisters(a, words) => a == address && |words| == count != 1
  }

  function Words(op: Op): seq<ModbusCodec.Register>
  {
    match op
    case WriteRegister(_, word) => [word]
    case WriteRegisters(_, words) => words
    case _ => []
  }

  /** The registers of a row: its own count, else two for the 32-bit types, eight for text and one for the others. */
  predicate Takes(spec: Registry.Spec, count: nat)
  {
    if spec.registerCount > 0 then count == spec.registerCount
    else match spec.dataType
      case U32 => count == 2
      case S32 => count == 2
      case Float => count == 2
      case Text => count == 8
      case _ => count == 1
  }

  /** A Modbus request on the wire is about exactly the registers of its row, which exist and fit one transaction. */
  lemma RegistersOfTheRow(env: Env, s: State, request: Request, confirm: bool)
    requires env.kind.ModbusRtu? && Start(env, s, request, confirm).Ok?
    ensures var sent := Start(env, s, request, confirm).value;
      && Registry.Lookup(env.fold, s.index, request.target) == Ok(sent.spec)
      && (request.Read? <==> sent.op.ReadRegisters?)
      && 0 <= sent.spec.relativeAddr <= 0xFFFF
      && exists count :: 1 <= count <= (if request.Read? then 125 else 123) && Takes(sent.spec, count)
                         && At(sent.op, sent.spec.relativeAddr, count)
                         && (request.Write? && sent.spec.dataType.Text? ==>
                               request.value.Text? && env.textWords(request.value.s, count) == Some(Words(sent.op)))
  {
    hide KeyOf, Permit, ModbusCodec.WriteWords;
    var sent := Start(env, s, request, confirm).value;
    var count := Registers(sent.spec);
    assert Takes(sent.spec, count);
    assert At(sent.op, sent.spec.relativeAddr, count);
    if request.Write? && sent.spec.dataType.Text? && count == 1 {
      var words := env.textWords(request.value.s, count).value;
      assert [words[0]] == words;
    }
  }

  /**
   * The words a Modbus write puts into a numeric row read back as the number written, counted in the row's
   * scale, or as its single-precision image on a float row; an unsigned row wraps what does not fit.
   */
  lemma WordsCarryTheValue(env: Env, s: State, request: Request, confirm: bool)
    requires env.kind.ModbusRtu? && request.Write? && Start(env, s, request, confirm).Ok?
    requires !Start(env, s, request, confirm).value.spec.dataType.Text?
    ensures var sent := Start(env, s, request, confirm).value;
      && (request.value.Int? || request.value.Float?) && sent.spec.scale != 0.0
      && |Words(sent.op)| == ModbusCodec.Width(sent.spec.dataType)
      && var read := ModbusCodec.ReadValue(sent.spec, Words(sent.op), env.floats);
         && (sent.spec.scale > 0.0 && !sent.spec.dataType.Float? ==>
               var n, t := ModbusCodec.Count(sent.spec, request.value), sent.spec.dataType;
               && (t.U8? || t.U16? || t.Packed? || ModbusCodec.Fits(t, n))
               && read.Ok? && (read.value.Int? || read.value.Float?)
               && Tlv.AsReal(read.value)
                  == ModbusCodec.Times((if ModbusCodec.Fits(t, n) then n else n % ModbusCodec.Size(t)) as real, sent.spec.scale))
         && (sent.spec.dataType.Float? ==> read == ModbusCodec.FloatBack(sent.spec, request.value, env.floats))
  {
    hide KeyOf, Permit, ModbusCodec.WriteWords, ModbusCodec.ReadValue, Resolve;
    var sent := Start(env, s, request, confirm).value;
    EncodedWords(env, sent.spec, request);
    ModbusCodec.WordsFit(sent.spec, request.value, env.floats);
    if sent.spec.dataType.Float? {
      ModbusCodec.FloatWrittenAndRead(sent.spec, request.value, env.floats);
    } else if sent.spec.scale > 0.0 {
      ModbusCodec.WrittenValue(sent.spec, request.value, env.floats);
    }
  }

  lemma EncodedWords(env: Env, spec: Registry.Spec, request: Request)
    requires request.Write? && !spec.dataType.Text? && EncodeModbus(env, spec, request).Ok?
    ensures spec.scale != 0.0
    ensures ModbusCodec.WriteWords(spec, request.value, env.floats) == Ok(Words(EncodeModbus(env, spec, request).value))
  {
    hide ModbusCodec.WriteWords;
    var words := ModbusCodec.WriteWords(spec, request.value, env.floats).value;
    if |words| == 1 { assert [words[0]] == words; }
  }

  /** The instance a Standard Bus request carries exists, exactly if it was not given as 0, the row's default. */
  lemma InstanceOnTheWire(env: Env, s: State, request: Request, confirm: bool)
    requires env.kind.StdBus? && Start(env, s, request, confirm).Ok?
    ensures var sent := Start(env, s, request, confirm).value;
      var m := Payload.DecodePayload(env.floats, sent.op.bytes);
      && sent.op.Payload? && m.Ok? && (m.value.ReadRequest? || m.value.WriteRequest?)
      && (1 <= m.value.instance <= sent.spec.maxInstance <==> request.instance != 0)
  {
    hide Start, Payload.DecodePayload;
    PayloadNamesTheParameter(env, s, request, confirm);
    StartsAreSafe(env, s, request, confirm);
    StartKeepsRequest(env, s, request, confirm);
  }

  lemma StartKeepsRequest(env: Env, s: State, request: Request, confirm: bool)
    ensures Start(env, s, request, confirm).Ok? ==> Start(env, s, request, confirm).value.request == request
  {
    hide EncodeStdBus, EncodeModbus, KeyOf, Permit, Resolve;
  }

  /** A read of instance 0 passes the check on the default instance, and asks the device for instance 0. */
  lemma ZeroIsSentAsZero(env: Env, s: State, target: Registry.Target, confirm: bool)
    requires env.kind.StdBus? && !IsUnsupported(s, KeyOf(env, s.index, Read(target, 0)))
    requires var spec := Registry.Lookup(env.fold, s.index, target);
      spec.Ok? && 1 <= spec.value.defaultInstance <= spec.value.maxInstance
      && 0 <= spec.value.id < 256_000 && spec.value.id % 1000 < 256
    ensures Start(env, s, Read(target, 0), confirm).Ok?
    ensures var sent := Start(env, s, Read(target, 0), confirm).value;
      && sent.op.Payload? && sent.op.bytes[5] == 0 < sent.spec.defaultInstance
  {
    hide KeyOf;
  }

  /** On Modbus only the default instance has a register, so 0 is refused. */
  lemma ModbusNeedsTheDefault(env: Env, s: State, request: Request, confirm: bool)
    requires env.kind.ModbusRtu? && Start(env, s, request, confirm).Ok?
    ensures request.instance == Start(env, s, request, confirm).value.spec.defaultInstance >= 1
  {
    hide KeyOf, Permit;
  }

  // ---------------------------------------------------------------- calls that overlap

  /** Calls between their two halves, and what may happen next. */
  datatype Busy = Busy(state: State, flights: seq<Sent>)

  datatype Event = Begin(request: Request, confirm: bool) | Finish(which: nat, outcome: Outcome) | Rebind(index: Registry.Index)

  function Next(env: Env, b: Busy, e: Event): Busy
  {
    match e
    case Begin(request, confirm) =>
      var sent := Start(env, b.state, request, confirm);
      if sent.Err? then b else b.(flights := b.flights + [sent.value])
    case Finish(k, outcome) =>
      if k >= |b.flights| then b
      else Busy(Complete(b.state, b.flights[k], outcome), b.flights[..k] + b.flights[k + 1..])
    case Rebind(index) => b.(state := b.state.(index := index))
  }

  function Overlapped(env: Env, b: Busy, events: seq<Event>): Busy
    decreases |events|
  {
    if events == [] then b else Overlapped(env, Next(env, b, events[0]), events[1..])
  }

  predicate InFlight(b: Busy, key: Key)
  {
    exists k :: 0 <= k < |b.flights| && b.flights[k].key == key
  }

  /** A call that does not overlap is a start finished at once. */
  lemma ExecuteIsBeginFinish(env: Env, s: State, request: Request, confirm: bool, outcome: Outcome)
    ensures Overlapped(env, Busy(s, []), [Begin(request, confirm), Finish(0, outcome)])
         == Busy(After(env, s, Execute(request, confirm, outcome)), [])
  {
    hide Start, Complete;
    var b := Next(env, Busy(s, []), Begin(request, confirm));
    var e := Finish(0, outcome);
    assert [Begin(request, confirm), e][1..] == [e];
    assert Overlapped(env, Next(env, b, e), [e][1..]) == Next(env, b, e);
  }

  lemma {:induction false} SticksWithoutFlights(env: Env, b: Busy, events: seq<Event>, key: Key)
    requires IsUnsupported(b.state, key) && !InFlight(b, key)
    ensures IsUnsupported(Overlapped(env, b, events).state, key) && !InFlight(Overlapped(env, b, events), key)
    decreases |events|
  {
    hide Start, KeyOf;
    if events != [] {
      var e := events[0];
      if e.Begin? { StartedKey(env, b.state, e.request, e.confirm); }
      SticksWithoutFlights(env, Next(env, b, e), events[1..], key);
    }
  }

  /**
   * With overlapping calls an unsupported key stays so, whatever happens next, exactly when no call for
   * it is in flight: one already past its check can set it back to supported.
   */
  lemma StickyIffNothingInFlight(env: Env, b: Busy, key: Key)
    requires IsUnsupported(b.state, key)
    ensures (forall events :: IsUnsupported(Overlapped(env, b, events).state, key)) <==> !InFlight(b, key)
  {
    hide Start;
    if InFlight(b, key) {
      var k :| 0 <= k < |b.flights| && b.flights[k].key == key;
      var e := Finish(k, Decoded(Tlv.Int(0)));
      assert Overlapped(env, Next(env, b, e), [e][1..]) == Next(env, b, e);
      var events := [e];
      assert !IsUnsupported(Overlapped(env, b, events).state, key);
      assert exists z: seq<Event> :: !IsUnsupported(Overlapped(env, b, z).state, key);
    } else {
      forall events ensures IsUnsupported(Overlapped(env, b, events).state, key) {
        SticksWithoutFlights(env, b, events, key);
      }
    }
  }

  /** Two overlapping reads of one parameter, the first rejected and the second answered, leave it supported. */
  lemma OverlapUnsticks(env: Env, s: State, request: Request, confirm: bool, value: Tlv.Value)
    requires Start(env, s, request, confirm).Ok?
    ensures var key := KeyOf(env, s.index, request);
      var both := Next(env, Next(env, Busy(s, []), Begin(request, confirm)), Begin(request, confirm));
      var rejected := Next(env, both, Finish(0, WireRejected));
      var answered := Next(env, rejected, Finish(0, Decoded(value)));
      && IsUnsupported(rejected.state, key)
      && !IsUnsupported(answered.state, key)
      && Start(env, answered.state, request, confirm).Ok?
  {
    hide EncodeStdBus, EncodeModbus, KeyOf, Permit, Resolve;
    StartedKey(env, s, request, confirm);
    var sent := Start(env, s, request, confirm).value;
    assert Next(env, Next(env, Busy(s, []), Begin(request, confirm)), Begin(request, confirm)).flights == [sent, sent];
  }

  // ---------------------------------------------------------------- the session

  class Session {
    const env: Env
    var registry: Registry.ParameterRegistry
    var availability: map<Key, Availability>
    var lastError: Option<Error>
    ghost var wire: seq<Sent>

    ghost function Contents(): State
      reads this
    {
      State(Registry.Index(registry.byId, registry.byName), availability, lastError, wire)
    }

    constructor (env: Env, registry: Registry.ParameterRegistry)
      requires registry.fold == env.fold
      ensures this.env == env && this.registry == registry
      ensures Contents() == State(Registry.Index(registry.byId, registry.byName), map[], None, [])
    {
      this.env, this.registry := env, registry;
      availability, lastError, wire := map[], None, [];
    }

    method BindRegistry(registry: Registry.ParameterRegistry)
      modifies this`registry
      ensures this.registry == registry
      ensures Contents() == After(env, old(Contents()), Bind(Registry.Index(registry.byId, registry.byName)))
    {
      this.registry := registry;
    }

    /** Dispatches a request; `outcome` is how its transaction ends if it gets that far. */
    method Execute(request: Request, confirm: bool, outcome: Outcome) returns (r: Result<Tlv.Value, Error>)
      modifies this`availability, this`lastError, this`wire
      ensures Contents() == After(env, old(Contents()), Call.Execute(request, confirm, outcome))
      ensures var sent := Start(env, old(Contents()), request, confirm);
        r == if sent.Err? then Err(sent.error)
             else if outcome.Decoded? then Ok(outcome.value)
             else Err(ErrorOf(outcome).value)
    {
      hide EncodeStdBus, EncodeModbus, KeyOf, Permit, Resolve, Complete, ErrorOf;
      if env.kind.Auto? { return Err(Unsupported); }
      var index := Registry.Index(registry.byId, registry.byName);
      var key := KeyOf(env, index, request);
      if key in availability && availability[key] == NotSupported { return Err(Unsupported); }
      if request.Write? && !confirm { return Err(ConfirmationRequired); }
      var spec := Resolve(env, index, request);
      if spec.Err? { return Err(spec.error); }
      if request.Write? {
        var permitted := Permit(spec.value, request.value);
        if permitted.Err? { return Err(permitted.error); }
      }
      var op := if env.kind.StdBus? then EncodeStdBus(env, spec.value, request) else EncodeModbus(env, spec.value, request);
      if op.Err? { return Err(op.error); }
      r := Transact(Sent(key, op.value, spec.value, request, confirm), outcome);
    }

    /** The transaction, and what its outcome does to the session. */
    method Transact(sent: Sent, outcome: Outcome) returns (r: Result<Tlv.Value, Error>)
      modifies this`availability, this`lastError, this`wire
      ensures Contents() == Complete(old(Contents()), sent, outcome)
      ensures r == if outcome.Decoded? then Ok(outcome.value) else Err(ErrorOf(outcome).value)
    {
      wire := wire + [sent];
      match outcome
      case WireRejected =>
        availability := availability[sent.key := NotSupported];
        lastError := Some(Unsupported);
        return Err(Unsupported);
      case WireRefused => lastError := Some(Refused); return Err(Refused);
      case WireFailed => lastError := Some(Failed); return Err(Failed);
      case DecodeRejected =>
        availability := availability[sent.key := NotSupported];
        lastError := Some(Unsupported);
        return Err(Unsupported);
      case DecodeRefused => lastError := Some(Refused); return Err(Refused);
      case DecodeFailed => return Err(Failed);
      case Decoded(value) =>
        availability := availability[sent.key := Supported];
        return Ok(value);
    }
  }
}
