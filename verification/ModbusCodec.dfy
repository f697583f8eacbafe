/** Modbus registers: words to values and back, with the engineering-unit scale of a row. */
module ModbusCodec {
  import opened Wrappers
  import opened Registry
  import Tlv

  type Register = n: nat | n < 0x1_0000

  /** Text registers are not modelled. */
  type Numeric = t: DataType | !t.Text? witness U8

  datatype CodecError = WrongCount | NotANumber | OutOfRange

  /** How many registers a type takes. */
  function Width(t: Numeric): nat
  {
    if t.U32? || t.S32? || t.Float? then 2 else 1
  }

  // ---------------------------------------------------------------- integers in registers

  /** The numbers a type can hold: 8, 16 or 32 bits, signed or not. */
  function Low(t: Numeric): int
  {
    match t
    case S16 => -0x8000
    case S32 => -0x8000_0000
    case _ => 0
  }

  function Size(t: Numeric): int
  {
    match t
    case U8 => 0x100
    case U32 => 0x1_0000_0000
    case S32 => 0x1_0000_0000
    case _ => 0x1_0000
  }

  predicate Fits(t: Numeric, n: int)
  {
    Low(t) <= n < Low(t) + Size(t)
  }

  /** Big-endian words, or the low word first. */
  function Joined(words: seq<Register>, highFirst: bool): (n: nat)
    requires 1 <= |words| <= 2
    ensures n < if |words| == 1 then 0x1_0000 else 0x1_0000_0000
  {
    if |words| == 1 then words[0]
    else if highFirst then Pair(words[0], words[1])
    else Pair(words[1], words[0])
  }

  function Pair(high: nat, low: nat): nat
  {
    high * 0x1_0000 + low
  }

  function Split(n: nat, width: nat, highFirst: bool): (words: seq<Register>)
    requires 1 <= width <= 2 && n < if width == 1 then 0x1_0000 else 0x1_0000_0000
    ensures |words| == width && Joined(words, highFirst) == n
  {
    if width == 1 then [n] else if highFirst then [n / 0x1_0000, n % 0x1_0000] else [n % 0x1_0000, n / 0x1_0000]
  }

  /** The number with the given bit pattern. */
  function Signed(t: Numeric, n: nat): int
  {
    if n < Low(t) + Size(t) then n else n - Size(t)
  }

  // ---------------------------------------------------------------- the codec

  function DecodeWords(words: seq<Register>, t: Numeric, highFirst: bool, codec: Tlv.FloatCodec): Result<Tlv.Value, CodecError>
  {
    if |words| != Width(t) then Err(WrongCount)
    else match t
      case U8 => Ok(Tlv.Int(words[0] % 0x100))
      case Float => Ok(Tlv.Float(codec.unpack(Joined(words, highFirst))))
      case _ => Ok(Tlv.Int(Signed(t, Joined(words, highFirst))))
  }

  function EncodeWords(v: Tlv.Value, t: Numeric, highFirst: bool, codec: Tlv.FloatCodec): Result<seq<Register>, CodecError>
  {
    if !(v.Int? || v.Float?) then Err(NotANumber)
    else match t
      case U8 => Ok([Tlv.AsInt(v) % 0x100])
      case U16 => Ok([Tlv.AsInt(v) % 0x1_0000])
      case Packed => Ok([Tlv.AsInt(v) % 0x1_0000])
      case Float =>
        var p := codec.pack(Tlv.AsReal(v));
        if p.None? then Err(OutOfRange) else Ok(Split(p.value, 2, highFirst))
      case S16 => Packing(Tlv.AsInt(v), t, highFirst)
      case U32 => Packing(Tlv.AsInt(v), t, highFirst)
      case S32 => Packing(Tlv.AsInt(v), t, highFirst)
  }

  function Packing(n: int, t: Numeric, highFirst: bool): Result<seq<Register>, CodecError>
    requires t.S16? || t.U32? || t.S32?
  {
    if !Fits(t, n) then Err(OutOfRange) else Ok(Split(if n < 0 then n + Size(t) else n, Width(t), highFirst))
  }

  /** Writing a number and reading the registers gives it back, exactly if it fits; the unsigned 8 and 16 bit types wrap, the others refuse. */
  lemma WriteReadInt(n: int, t: Numeric, highFirst: bool, codec: Tlv.FloatCodec)
    requires !t.Float?
    ensures var w := EncodeWords(Tlv.Int(n), t, highFirst, codec);
      && (w.Err? <==> (t.S16? || t.U32? || t.S32?) && !Fits(t, n))
      && (w.Ok? ==>
            && DecodeWords(w.value, t, highFirst, codec).Ok?
            && DecodeWords(w.value, t, highFirst, codec).value == Tlv.Int(if Fits(t, n) then n else n % Size(t)))
  {
    if t.S16? || t.U32? || t.S32? {
      PackedBack(n, t, highFirst);
      hide Packing, Signed, Joined;
    }
  }

  lemma PackedBack(n: int, t: Numeric, highFirst: bool)
    requires t.S16? || t.U32? || t.S32?
    ensures var w := Packing(n, t, highFirst);
      && (w.Ok? <==> Fits(t, n))
      && (w.Ok? ==> |w.value| == Width(t) && Signed(t, Joined(w.value, highFirst)) == n)
  {
    hide Split, Joined;
  }

  /** Reading registers and writing the number back gives them again, but for the high byte of an 8 bit row. */
  lemma ReadWriteInt(words: seq<Register>, t: Numeric, highFirst: bool, codec: Tlv.FloatCodec)
    requires !t.Float? && |words| == Width(t)
    ensures var v := DecodeWords(words, t, highFirst, codec);
      && v.Ok? && v.value.Int? && Fits(t, v.value.i)
      && EncodeWords(v.value, t, highFirst, codec) == Ok(if t.U8? then [words[0] % 0x100] else words)
  {
    Rejoined(words, highFirst);
    hide Split, Joined;
  }

  lemma Rejoined(words: seq<Register>, highFirst: bool)
    requires 1 <= |words| <= 2
    ensures Split(Joined(words, highFirst), |words|, highFirst) == words
    ensures |words| == 1 ==> Joined(words, highFirst) == words[0] && [words[0]] == words
  {
  }

  /** As many words as the type takes, which the decoder takes back. */
  lemma WordsFit(spec: Spec, v: Tlv.Value, codec: Tlv.FloatCodec)
    requires !spec.dataType.Text? && spec.scale != 0.0
    ensures var w := WriteWords(spec, v, codec);
      w.Ok? ==> (v.Int? || v.Float?) && |w.value| == Width(spec.dataType) && ReadValue(spec, w.value, codec).Ok?
  {
    hide Split, Joined, Round, Over, Times, Signed;
  }

  /** Which numbers a row takes, counted in its scale: the unsigned types of 8 and 16 bits take all. */
  lemma WritableIff(spec: Spec, v: Tlv.Value, codec: Tlv.FloatCodec)
    requires !spec.dataType.Text? && (v.Int? || v.Float?) && spec.scale != 0.0
    ensures var n := if spec.scale == 1.0 then Tlv.AsInt(v) else Round(Tlv.AsReal(v) / spec.scale);
      WriteWords(spec, v, codec).Ok? <==>
        match spec.dataType
        case S16 => -32768 <= n <= 32767
        case U32 => 0 <= n <= 4294967295
        case S32 => -2147483648 <= n <= 2147483647
        case Float => codec.pack(if spec.scale == 1.0 then Tlv.AsReal(v) else n as real).Some?
        case _ => true
  {
    hide Split, Round;
  }

  /** Where a pattern stands in the numbers of `bits` bits: in range, and the pattern up to a multiple of 2^bits. */
  predicate Stands(n: int, low: int, size: int, pattern: int)
    requires size > 0
  {
    low <= n < low + size && (pattern - n) % size == 0
  }

  /**
   * What registers mean: an 8 bit row is the low byte, a 16 bit row the register, a 32 bit row two of them in
   * the order of the row; the signed types stand for numbers from minus half their range.
   */
  lemma RegistersMean(words: seq<Register>, t: Numeric, highFirst: bool, codec: Tlv.FloatCodec)
    ensures var v := DecodeWords(words, t, highFirst, codec);
      && (v.Ok? <==> |words| == if t.U32? || t.S32? || t.Float? then 2 else 1)
      && (v.Ok? && t.Float? ==> v.value == Tlv.Float(codec.unpack(Long(words, highFirst))))
      && (v.Ok? && !t.Float? ==> v.value.Int?)
      && (v.Ok? && t.U8? ==> Stands(v.value.i, 0, 256, words[0]))
      && (v.Ok? && (t.U16? || t.Packed?) ==> v.value.i == words[0])
      && (v.Ok? && t.S16? ==> Stands(v.value.i, -32768, 65536, words[0]))
      && (v.Ok? && t.U32? ==> v.value.i == Long(words, highFirst))
      && (v.Ok? && t.S32? ==> Stands(v.value.i, -2147483648, 4294967296, Long(words, highFirst)))
  {
  }

  /** Two registers as one number. */
  function Long(words: seq<Register>, highFirst: bool): (n: Tlv.Single)
    requires |words| == 2
  {
    if highFirst then (words[0] as int) * 65536 + words[1] else (words[1] as int) * 65536 + words[0]
  }

  /** What a float row gives back for a value: its scaled count, or the value itself, through single precision. */
  function FloatBack(spec: Spec, v: Tlv.Value, codec: Tlv.FloatCodec): Result<Tlv.Value, CodecError>
    requires (v.Int? || v.Float?) && spec.scale != 0.0
  {
    if spec.scale == 1.0 then
      var p := codec.pack(Tlv.AsReal(v));
      if p.None? then Err(OutOfRange) else Ok(Tlv.Float(codec.unpack(p.value)))
    else
      var p := codec.pack(Round(Over(Tlv.AsReal(v), spec.scale)) as real);
      if p.None? then Err(OutOfRange) else Ok(Tlv.Float(Times(codec.unpack(p.value), spec.scale)))
  }

  /** A float row is written and read in the same word order, and its scale is undone after rounding. */
  lemma FloatWrittenAndRead(spec: Spec, v: Tlv.Value, codec: Tlv.FloatCodec)
    requires spec.dataType.Float? && (v.Int? || v.Float?) && spec.scale != 0.0
    ensures var w := WriteWords(spec, v, codec);
      if w.Err? then w.error == OutOfRange && FloatBack(spec, v, codec) == Err(OutOfRange)
      else ReadValue(spec, w.value, codec) == FloatBack(spec, v, codec)
  {
    hide Split, Joined, Round, Over, Times;
  }

  // ---------------------------------------------------------------- scaling

  /** To the nearest integer, ties to the even one. */
  function Round(x: real): int
  {
    var f := x.Floor;
    var d := x - f as real;
    if d < 0.5 || (d == 0.5 && f % 2 == 0) then f else f + 1
  }

  lemma RoundIsNearest(x: real, n: int)
    ensures -0.5 <= Round(x) as real - x <= 0.5
    ensures Round(n as real) == n
  {
  }

  lemma RoundsHalvesToEven(n: int)
    ensures Round(n as real + 0.5) % 2 == 0
  {
    assert (n as real + 0.5).Floor == n;
  }

  /** A number of steps of a scale. */
  function Times(x: real, s: real): real
  {
    x * s
  }

  function Over(x: real, s: real): real
    requires s != 0.0
  {
    x / s
  }

  lemma OverTimes(x: real, s: real)
    requires s > 0.0
    ensures Over(Times(x, s), s) == x && Times(Over(x, s), s) == x
  {
  }

  lemma TimesMinus(a: real, b: real, s: real)
    ensures Times(a - b, s) == Times(a, s) - Times(b, s)
  {
  }

  lemma TimesBound(x: real, low: real, high: real, s: real)
    requires s > 0.0 && low <= x <= high
    ensures low * s <= Times(x, s) <= high * s
  {
  }

  /** What reading a row returns: the number times the scale, and the bare integer when there is none. */
  function ReadValue(spec: Spec, words: seq<Register>, codec: Tlv.FloatCodec): Result<Tlv.Value, CodecError>
    requires !spec.dataType.Text?
  {
    var v := DecodeWords(words, spec.dataType, spec.highWordFirst, codec);
    if v.Err? || spec.scale == 1.0 then v else Ok(Tlv.Float(Times(Tlv.AsReal(v.value), spec.scale)))
  }

  /** What writing a row puts in its registers. */
  function WriteWords(spec: Spec, v: Tlv.Value, codec: Tlv.FloatCodec): Result<seq<Register>, CodecError>
    requires !spec.dataType.Text? && spec.scale != 0.0
  {
    var wire := if spec.scale != 1.0 && (v.Int? || v.Float?) then Tlv.Int(Round(Over(Tlv.AsReal(v), spec.scale))) else v;
    EncodeWords(wire, spec.dataType, spec.highWordFirst, codec)
  }

  predicate IntegerRow(spec: Spec)
  {
    !spec.dataType.Text? && !spec.dataType.Float? && spec.scale > 0.0
  }

  /** Writing back the value read from a row restores its registers, unless an 8 bit row had a high byte. */
  lemma ReadThenWrite(spec: Spec, words: seq<Register>, codec: Tlv.FloatCodec)
    requires IntegerRow(spec) && |words| == Width(spec.dataType)
    ensures ReadValue(spec, words, codec).Ok?
    ensures WriteWords(spec, ReadValue(spec, words, codec).value, codec) == Ok(words) <==> (spec.dataType.U8? ==> words[0] < 0x100)
  {
    hide EncodeWords, DecodeWords, Round, Times, Over;
    ReadWriteInt(words, spec.dataType, spec.highWordFirst, codec);
    var n := DecodeWords(words, spec.dataType, spec.highWordFirst, codec).value.i;
    OverTimes(n as real, spec.scale);
    RoundIsNearest(0.0, n);
    if spec.dataType.U8? { assert [words[0] % 0x100] == words <==> words[0] < 0x100; }
  }

  /** The integer a written value becomes: rounded under a scale, truncated without one. */
  function Count(spec: Spec, v: Tlv.Value): int
    requires v.Int? || v.Float?
    requires spec.scale != 0.0
  {
    if spec.scale != 1.0 then Round(Over(Tlv.AsReal(v), spec.scale)) else Tlv.AsInt(v)
  }

  function Distance(a: real, b: real): real
  {
    if a <= b then b - a else a - b
  }

  /** How far a number lies from the next one toward zero. */
  function Fraction(x: real): real
  {
    if x >= 0.0 then x - x.Floor as real else -x - (-x).Floor as real
  }

  /** A value was written and read back within half a scale step. */
  predicate ComesBack(spec: Spec, v: Tlv.Value, codec: Tlv.FloatCodec)
    requires IntegerRow(spec) && (v.Int? || v.Float?)
  {
    var w := WriteWords(spec, v, codec);
    w.Ok? &&
    var r := ReadValue(spec, w.value, codec);
    r.Ok? && (r.value.Int? || r.value.Float?) && Distance(Tlv.AsReal(r.value), Tlv.AsReal(v)) <= spec.scale / 2.0
  }

  lemma RoundedIsClose(v: real, s: real)
    requires s > 0.0
    ensures Distance(Times(Round(Over(v, s)) as real, s), v) <= s / 2.0
  {
    hide Round, Times, Over;
    var q := Over(v, s);
    OverTimes(v, s);
    RoundIsNearest(q, 0);
    TimesBound(Round(q) as real - q, -0.5, 0.5, s);
    TimesMinus(Round(q) as real, q, s);
  }

  lemma TruncatedIsClose(v: real)
    ensures Distance(Tlv.Truncate(v) as real, v) == Fraction(v) < 1.0
  {
  }

  lemma CountIsClose(spec: Spec, v: Tlv.Value)
    requires IntegerRow(spec) && (v.Int? || v.Float?)
    ensures var d := Distance(Times(Count(spec, v) as real, spec.scale), Tlv.AsReal(v));
      && d < spec.scale
      && (d <= spec.scale / 2.0 <==> spec.scale != 1.0 || Fraction(Tlv.AsReal(v)) <= 0.5)
  {
    hide Round, Distance, Fraction, Tlv.Truncate, Over;
    var x := Tlv.AsReal(v);
    if spec.scale != 1.0 {
      hide Times;
      RoundedIsClose(x, spec.scale);
    } else {
      TruncatedIsClose(x);
      if v.Int? { WholeNumber(v.i); }
    }
  }

  lemma WholeNumber(n: int)
    ensures Tlv.Truncate(n as real) == n
  {
  }

  lemma WrapsFar(s: real, n: int, m: int)
    requires s > 0.0 && (n - m >= 0x100 || m - n >= 0x100)
    ensures Distance(Times(n as real, s), Times(m as real, s)) >= 256.0 * s
  {
    var d := n as real - m as real;
    TimesMinus(n as real, m as real, s);
    if d >= 256.0 { TimesBound(d, 256.0, d, s); } else { TimesBound(d, d, -256.0, s); }
  }

  /** What is read back after a write. */
  lemma WrittenValue(spec: Spec, v: Tlv.Value, codec: Tlv.FloatCodec)
    requires IntegerRow(spec) && (v.Int? || v.Float?)
    ensures var n, t := Count(spec, v), spec.dataType;
      var w := WriteWords(spec, v, codec);
      && (w.Err? <==> (t.S16? || t.U32? || t.S32?) && !Fits(t, n))
      && (w.Ok? ==>
            var r := ReadValue(spec, w.value, codec);
            && r.Ok? && (r.value.Int? || r.value.Float?)
            && Tlv.AsReal(r.value) == Times((if Fits(t, n) then n else n % Size(t)) as real, spec.scale))
  {
    hide DecodeWords, EncodeWords, Round, Fits, Over;
    WriteReadInt(Count(spec, v), spec.dataType, spec.highWordFirst, codec);
    OnlyTheInteger(v, spec.dataType, spec.highWordFirst, codec);
  }

  lemma OnlyTheInteger(v: Tlv.Value, t: Numeric, highFirst: bool, codec: Tlv.FloatCodec)
    requires !t.Float? && (v.Int? || v.Float?)
    ensures EncodeWords(v, t, highFirst, codec) == EncodeWords(Tlv.Int(Tlv.AsInt(v)), t, highFirst, codec)
  {
    hide Packing;
  }

  /**
   * A written value comes back within half a step exactly when its count fits the registers and, on an
   * unscaled row (where the fraction is cut off rather than rounded), its fraction is at most a half.
   */
  lemma WriteThenRead(spec: Spec, v: Tlv.Value, codec: Tlv.FloatCodec)
    requires IntegerRow(spec) && (v.Int? || v.Float?)
    ensures ComesBack(spec, v, codec)
       <==> Fits(spec.dataType, Count(spec, v)) && (spec.scale != 1.0 || Fraction(Tlv.AsReal(v)) <= 0.5)
  {
    hide ReadValue, WriteWords, Count, Fraction, Times;
    var n, t := Count(spec, v), spec.dataType;
    WrittenValue(spec, v, codec);
    CountIsClose(spec, v);
    var w := WriteWords(spec, v, codec);
    if !Fits(t, n) && w.Ok? {
      var m := n % Size(t);
      WrapsFar(spec.scale, n, m);
    }
  }

  /** An unscaled row loses the fraction of what is written, so it can be off by more than half a step. */
  lemma UnscaledWritesTruncate(spec: Spec, codec: Tlv.FloatCodec)
    requires spec.dataType.U16? && spec.scale == 1.0
    ensures !ComesBack(spec, Tlv.Float(2.75), codec)
    ensures WriteWords(spec, Tlv.Float(2.75), codec) == Ok([2])
  {
    WriteThenRead(spec, Tlv.Float(2.75), codec);
  }

  /** With one decimal place in register 606 a raw 755 of a row bound to it reads as 75.5. */
  method OnePlaceReads(spec: Spec, codec: Tlv.FloatCodec) returns (v: Result<Tlv.Value, CodecError>)
    requires spec.decimalRegister == Some(606) && spec.dataType.U16?
    ensures v == Ok(Tlv.Float(75.5))
  {
    hide IndexOf, ScaleFor, Rebound;
    var registry := new ParameterRegistry(name => name, [spec], map[], []);
    var rescaled := registry.WithDecimalPlaces(606, 1);
    var row := rescaled.value.rows[0];
    ghost var bound := registry.rows[0];
    assert bound == Rebound(spec, map[], []);
    ReboundKeeps(spec, map[], []);
    assert RescaledRow(bound, row, 606, 1);
    assert TimesTen(row.scale, 1) == TimesTen(10.0 * row.scale, 0);
    v := ReadValue(row, [755], codec);
  }
}
