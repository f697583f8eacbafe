/** The tagged-value codec of the Watlow attribute service. */
module Tlv {
  import opened Bits
  import opened Wrappers

  const U8 := 0x01
  const U16 := 0x03
  const U32 := 0x05
  const S32 := 0x06
  const FLOAT := 0x08
  const STRING := 0x09
  const PACKED := 0x0F
  const S16 := 0x86

  /** What a caller may hand to the encoder, and what the decoder returns. */
  datatype Value = Int(i: int) | Float(x: real) | Text(s: string) | Raw(b: seq<Byte>)

  type Single = n: nat | n < 0x1_0000_0000

  /** Packing to and from IEEE-754 single precision, whose rounding is not modelled. */
  datatype FloatCodec = FloatCodec(pack: real -> Option<Single>, unpack: Single -> real)

  datatype TlvError = NeedsText | NeedsNumber | TooLong | NotAscii | OutOfRange | UnknownTag | Truncated | Empty

  datatype Decoded = Decoded(value: Value, tag: int, consumed: nat)

  /** Conversion to `int` drops the fraction. */
  function Truncate(x: real): int
  {
    if x >= 0.0 then x.Floor else -((-x).Floor)
  }

  function AsInt(v: Value): int
    requires v.Int? || v.Float?
  {
    if v.Int? then v.i else Truncate(v.x)
  }

  function AsReal(v: Value): real
    requires v.Int? || v.Float?
  {
    if v.Int? then v.i as real else v.x
  }

  // ---------------------------------------------------------------- text

  predicate Ascii(s: string)
  {
    forall i :: 0 <= i < |s| ==> s[i] < 128 as char
  }

  function AsciiBytes(s: string): (b: seq<Byte>)
    requires Ascii(s)
    ensures |b| == |s|
  {
    seq(|s|, i requires 0 <= i < |s| => s[i] as int)
  }

  /** A byte that is not ASCII decodes to the replacement character. */
  function AsciiText(b: seq<Byte>): (s: string)
    ensures |s| == |b|
  {
    seq(|b|, i requires 0 <= i < |b| => if b[i] < 128 then b[i] as char else 0xFFFD as char)
  }

  function StripNuls(b: seq<Byte>): (r: seq<Byte>)
    ensures r <= b && (r != [] ==> r[|r| - 1] != 0)
    ensures forall i :: |r| <= i < |b| ==> b[i] == 0
  {
    if b != [] && b[|b| - 1] == 0 then StripNuls(b[..|b| - 1]) else b
  }

  // ---------------------------------------------------------------- big-endian numbers

  function Long(b: seq<Byte>): (n: Single)
    requires |b| == 4
  {
    Word(b[0], b[1]) * 0x1_0000 + Word(b[2], b[3])
  }

  function LongBytes(n: Single): (b: seq<Byte>)
    ensures |b| == 4 && Long(b) == n
  {
    WordBytes(n / 0x1_0000) + WordBytes(n % 0x1_0000)
  }

  lemma LongBytesOfLong(b: seq<Byte>)
    requires |b| == 4
    ensures LongBytes(Long(b)) == b
  {
    hide Word, WordBytes;
    WordBytesOfWord(b[0], b[1]);
    WordBytesOfWord(b[2], b[3]);
    DivWord(Word(b[0], b[1]), Word(b[2], b[3]));
  }

  /** The two's-complement reading of a 32-bit pattern. */
  function Signed(n: Single): int
  {
    if n < 0x8000_0000 then n else n - 0x1_0000_0000
  }

  function Unsigned(i: int): (n: Single)
    requires -0x8000_0000 <= i < 0x8000_0000
    ensures Signed(n) == i
  {
    if i < 0 then i + 0x1_0000_0000 else i
  }

  /** `n` sixteen-bit words, most significant first. */
  function Words(b: seq<Byte>, n: nat): nat
    requires |b| == 2 * n
  {
    if n == 0 then 0 else Words(b[..2 * n - 2], n - 1) * 0x1_0000 + Word(b[2 * n - 2], b[2 * n - 1])
  }

  /** The loop that folds the words of a wide enumeration. */
  method FoldWords(buf: seq<Byte>, n: nat) returns (wide: nat)
    requires |buf| >= 2 + 2 * n
    ensures wide == Words(buf[2..2 + 2 * n], n)
  {
    wide := 0;
    for i := 0 to n
      invariant wide == Words(buf[2..2 + 2 * i], i)
    {
      var w := Word(buf[2 + 2 * i], buf[3 + 2 * i]);
      assert buf[2..4 + 2 * i][..2 * i] == buf[2..2 + 2 * i];
      wide := wide * 0x1_0000 + w;
    }
  }

  function Pow16(n: nat): nat
  {
    if n == 0 then 1 else Pow16(n - 1) * 0x1_0000
  }

  /** The `n` words of a number. */
  function WordsOf(v: nat, n: nat): (b: seq<Byte>)
    ensures |b| == 2 * n
  {
    if n == 0 then [] else WordsOf(v / 0x1_0000, n - 1) + WordBytes(v % 0x1_0000)
  }

  /** A number below 2^(16n) is what its n words fold to. */
  lemma {:induction false} WordsOfNumber(v: nat, n: nat)
    requires v < Pow16(n)
    ensures Words(WordsOf(v, n), n) == v
  {
    hide Word, WordBytes;
    if n > 0 {
      WordsOfNumber(v / 0x1_0000, n - 1);
      var b, front, back := WordsOf(v, n), WordsOf(v / 0x1_0000, n - 1), WordBytes(v % 0x1_0000);
      assert b == front + back;
      assert b[..2 * n - 2] == front;
      assert b[2 * n - 2] == back[0] && b[2 * n - 1] == back[1];
    }
  }

  /** Folding n words gives a number below 2^(16n) whose n words they are. */
  lemma {:induction false} NumberOfWords(b: seq<Byte>, n: nat)
    requires |b| == 2 * n
    ensures Words(b, n) < Pow16(n) && WordsOf(Words(b, n), n) == b
  {
    hide Word, WordBytes;
    if n > 0 {
      var front, hi, lo := b[..2 * n - 2], b[2 * n - 2], b[2 * n - 1];
      NumberOfWords(front, n - 1);
      DivWord(Words(front, n - 1), Word(hi, lo));
      WordBytesOfWord(hi, lo);
      assert b == front + [hi, lo];
    }
  }

  lemma DivWord(q: nat, w: nat)
    requires w < 0x1_0000
    ensures (q * 0x1_0000 + w) / 0x1_0000 == q && (q * 0x1_0000 + w) % 0x1_0000 == w
  {
  }

  // ---------------------------------------------------------------- the codec

  function Encode(fl: FloatCodec, tag: int, v: Value): Result<seq<Byte>, TlvError>
  {
    if tag == STRING then
      if v.Int? || v.Float? then Err(NeedsText)
      else if v.Text? && !Ascii(v.s) then Err(NotAscii)
      else
        var b := if v.Text? then AsciiBytes(v.s) else v.b;
        if |b| > 0xFF then Err(TooLong) else Ok([STRING, |b|] + b)
    else if v.Text? || v.Raw? then Err(NeedsNumber)
    else if tag == FLOAT then
      match fl.pack(AsReal(v))
      case None => Err(OutOfRange)
      case Some(p) => Ok([FLOAT] + LongBytes(p))
    else if tag == U8 then
      if !(0 <= AsInt(v) <= 0xFF) then Err(OutOfRange) else Ok([U8, AsInt(v)])
    else if tag == U16 then
      if !(0 <= AsInt(v) <= 0xFFFF) then Err(OutOfRange) else Ok([U16] + WordBytes(AsInt(v)))
    else if tag == U32 then
      if !(0 <= AsInt(v) <= 0xFFFF_FFFF) then Err(OutOfRange) else Ok([U32] + LongBytes(AsInt(v)))
    else if tag == S32 then
      if !(-0x8000_0000 <= AsInt(v) <= 0x7FFF_FFFF) then Err(OutOfRange) else Ok([S32] + LongBytes(Unsigned(AsInt(v))))
    else if tag == PACKED then
      if !(0 <= AsInt(v) <= 0xFFFF) then Err(OutOfRange) else Ok([PACKED, 1] + WordBytes(AsInt(v)))
    else Err(UnknownTag)
  }

  function Decode(fl: FloatCodec, buf: seq<Byte>): Result<Decoded, TlvError>
  {
    if buf == [] then Err(Empty)
    else
      var tag := buf[0] as int;
      if tag == U8 then
        if |buf| < 2 then Err(Truncated) else Ok(Decoded(Int(buf[1]), tag, 2))
      else if tag == U16 then
        if |buf| < 3 then Err(Truncated) else Ok(Decoded(Int(Word(buf[1], buf[2])), tag, 3))
      else if tag == U32 then
        if |buf| < 5 then Err(Truncated) else Ok(Decoded(Int(Long(buf[1..5])), tag, 5))
      else if tag == S32 then
        if |buf| < 5 then Err(Truncated) else Ok(Decoded(Int(Signed(Long(buf[1..5]))), tag, 5))
      else if tag == FLOAT then
        if |buf| < 5 then Err(Truncated) else Ok(Decoded(Float(fl.unpack(Long(buf[1..5]))), tag, 5))
      else if tag == STRING then
        if |buf| < 2 then Err(Truncated)
        else
          var n := buf[1] as int;
          if |buf| < 2 + n then Err(Truncated)
          else Ok(Decoded(Text(AsciiText(StripNuls(buf[2..2 + n]))), tag, 2 + n))
      else if tag == PACKED then
        if |buf| < 2 then Err(Truncated)
        else
          var n := buf[1] as int;
          if |buf| < 2 + 2 * n then Err(Truncated)
          else if n == 1 then Ok(Decoded(Int(Word(buf[2], buf[3])), tag, 4))
          else Ok(Decoded(Int(Words(buf[2..2 + 2 * n], n)), tag, 2 + 2 * n))
      else Err(UnknownTag)
  }

  /** What comes back for a value sent under a tag. */
  function Canonical(fl: FloatCodec, tag: int, v: Value): Value
    requires Encode(fl, tag, v).Ok?
  {
    if tag == STRING then Text(AsciiText(StripNuls(if v.Text? then AsciiBytes(v.s) else v.b)))
    else if tag == FLOAT then Float(fl.unpack(fl.pack(AsReal(v)).value))
    else Int(AsInt(v))
  }

  /** The number of some bytes, the most significant first. */
  function BigEndian(b: seq<Byte>): nat
  {
    if b == [] then 0 else 256 * BigEndian(b[..|b| - 1]) + b[|b| - 1]
  }

  /** The number of some bytes in two's complement. */
  predicate TwosComplement(b: seq<Byte>, n: int)
    requires b != []
  {
    BigEndian(b) == if b[0] < 128 then n else n + 4294967296
  }

  lemma FourBytes(b: seq<Byte>)
    requires |b| == 4
    ensures BigEndian(b) == Long(b) && (b[0] < 128 <==> Long(b) < 0x8000_0000)
  {
    assert b[..3][..2] == b[..2] && b[..2][..1] == b[..1] && b[..1][..0] == [];
    assert BigEndian(b[..1]) == b[0] as int;
    assert BigEndian(b[..2]) == 256 * BigEndian(b[..1]) + b[1];
    assert BigEndian(b[..3]) == 256 * BigEndian(b[..2]) + b[2];
  }

  lemma TwoBytes(b: seq<Byte>)
    requires |b| == 2
    ensures BigEndian(b) == Word(b[0], b[1])
  {
    assert b[..1][..0] == [];
    assert BigEndian(b[..1]) == b[0] as int;
  }

  /** How an encoding is laid out: its tag, a count for text and enumerations, and its number most significant byte first. */
  lemma Layout(fl: FloatCodec, tag: int, v: Value)
    requires Encode(fl, tag, v).Ok?
    ensures var b := Encode(fl, tag, v).value;
      && |b| >= 2 && b[0] as int == tag && tag in {0x01, 0x03, 0x05, 0x06, 0x08, 0x09, 0x0F}
      && (tag == 0x09 ==> !v.Int? && !v.Float? && |b| == 2 + b[1] as int && (v.Raw? ==> b[2..] == v.b)
                          && (v.Text? ==> |b[2..]| == |v.s| && forall i :: 0 <= i < |v.s| ==> b[2 + i] as int == v.s[i] as int))
      && (tag != 0x09 ==> v.Int? || v.Float?)
      && (tag == 0x01 ==> |b| == 2 && BigEndian(b[1..]) == AsInt(v))
      && (tag == 0x03 ==> |b| == 3 && BigEndian(b[1..]) == AsInt(v))
      && (tag == 0x05 ==> |b| == 5 && BigEndian(b[1..]) == AsInt(v))
      && (tag == 0x06 ==> |b| == 5 && TwosComplement(b[1..], AsInt(v)))
      && (tag == 0x08 ==> |b| == 5 && fl.pack(AsReal(v)) == Some(BigEndian(b[1..])))
      && (tag == 0x0F ==> |b| == 4 && b[1] == 1 && BigEndian(b[2..]) == AsInt(v))
  {
    hide Word, WordBytes, Long, LongBytes, Truncate;
    var b := Encode(fl, tag, v).value;
    if tag == FLOAT || tag == U32 || tag == S32 {
      FourBytes(b[1..]);
    } else if tag == U16 {
      TwoBytes(b[1..]);
    } else if tag == PACKED {
      TwoBytes(b[2..]);
    } else if tag == U8 {
      assert b[1..][..0] == [];
    }
  }

  /** A number with a fraction is cut off toward zero. */
  lemma TruncatesTowardZero(x: real)
    ensures var n := Truncate(x) as real; if x >= 0.0 then n <= x < n + 1.0 else n - 1.0 < x <= n
  {
  }

  /** Bytes past ASCII decode to the replacement character, and trailing NULs are dropped. */
  lemma TextDecodes(fl: FloatCodec, b: seq<Byte>, rest: seq<Byte>)
    requires |b| <= 255
    ensures var d := Decode(fl, [0x09, |b|] + b + rest);
      && d.Ok? && d.value.value.Text? && d.value.tag == 0x09 && d.value.consumed == 2 + |b|
      && var s := d.value.value.s;
         && |s| <= |b| && (forall i :: |s| <= i < |b| ==> b[i] == 0) && (s != [] ==> b[|s| - 1] != 0)
         && forall i :: 0 <= i < |s| ==> s[i] as int == if b[i] < 128 then b[i] as int else 0xFFFD
  {
    var buf := [0x09, |b|] + b + rest;
    assert buf[2..2 + |b|] == b;
  }

  /** Whatever follows an encoding, the decoder returns its value, its tag and its exact length. */
  lemma DecodeEncode(fl: FloatCodec, tag: int, v: Value, rest: seq<Byte>)
    requires Encode(fl, tag, v).Ok?
    ensures var e := Encode(fl, tag, v).value;
            Decode(fl, e + rest) == Ok(Decoded(Canonical(fl, tag, v), tag, |e|))
  {
    if tag == STRING { TextBack(fl, v, rest); } else { NumberBack(fl, tag, v, rest); }
  }

  lemma TextBack(fl: FloatCodec, v: Value, rest: seq<Byte>)
    requires Encode(fl, STRING, v).Ok?
    ensures var e := Encode(fl, STRING, v).value;
            Decode(fl, e + rest) == Ok(Decoded(Canonical(fl, STRING, v), STRING, |e|))
  {
    hide Long, LongBytes, Word, WordBytes, Words, Signed, Unsigned, StripNuls, AsciiText, AsciiBytes, Ascii;
    var e := Encode(fl, STRING, v).value;
    assert (e + rest)[2..2 + e[1] as int] == e[2..];
  }

  lemma NumberBack(fl: FloatCodec, tag: int, v: Value, rest: seq<Byte>)
    requires tag != STRING && Encode(fl, tag, v).Ok?
    ensures var e := Encode(fl, tag, v).value;
            Decode(fl, e + rest) == Ok(Decoded(Canonical(fl, tag, v), tag, |e|))
  {
    hide Long, LongBytes, Word, WordBytes, Words, Signed, Unsigned, StripNuls, AsciiText, AsciiBytes, Ascii;
    var e := Encode(fl, tag, v).value;
    var buf := e + rest;
    if tag == FLOAT || tag == U32 || tag == S32 {
      assert buf[1..5] == e[1..];
    } else if tag == U16 {
      assert buf[1] == e[1..][0] && buf[2] == e[1..][1];
    } else if tag == PACKED {
      assert buf[2] == e[2..][0] && buf[3] == e[2..][1];
    }
  }

  lemma EncodedNonEmpty(fl: FloatCodec, tag: int, v: Value)
    requires Encode(fl, tag, v).Ok?
    ensures Encode(fl, tag, v).value != []
  {
  }

  /** Text without trailing NULs comes back unchanged; otherwise its trailing NULs are lost. */
  lemma TextRoundTrip(fl: FloatCodec, s: string)
    requires Encode(fl, STRING, Text(s)).Ok?
    ensures Canonical(fl, STRING, Text(s)) == Text(s) <==> (s == "" || s[|s| - 1] != 0 as char)
  {
    var b := AsciiBytes(s);
    if s != "" && s[|s| - 1] == 0 as char {
      assert b[|b| - 1] == 0;
    } else {
      assert StripNuls(b) == b;
      assert AsciiText(b) == s;
    }
  }

  /** An encoding is self-delimiting: no proper prefix of it decodes. */
  lemma NoPrefixDecodes(fl: FloatCodec, tag: int, v: Value, k: nat)
    requires Encode(fl, tag, v).Ok? && k < |Encode(fl, tag, v).value|
    ensures Decode(fl, Encode(fl, tag, v).value[..k]).Err?
  {
  }

  /** A decoded value depends only on the bytes it consumed. */
  lemma DecodeIsLocal(fl: FloatCodec, buf: seq<Byte>, rest: seq<Byte>)
    requires Decode(fl, buf).Ok?
    ensures var c := Decode(fl, buf).value.consumed;
            c <= |buf| && Decode(fl, buf[..c] + rest) == Decode(fl, buf)
  {
    var c := Decode(fl, buf).value.consumed;
    var again := buf[..c] + rest;
    if buf[0] as int == STRING || buf[0] as int == PACKED {
      assert again[2..c] == buf[2..c];
    } else if c == 5 {
      assert again[1..5] == buf[1..5];
    }
  }

  /** n packed words, wide or not, decode to the number they spell. */
  lemma PackedWords(fl: FloatCodec, v: nat, n: nat, rest: seq<Byte>)
    requires n < 256 && v < Pow16(n)
    ensures Decode(fl, [PACKED, n] + WordsOf(v, n) + rest) == Ok(Decoded(Int(v), PACKED, 2 + 2 * n))
  {
    hide Word, WordBytes, WordsOf, Words;
    var w := WordsOf(v, n);
    var buf := [PACKED, n] + w + rest;
    WordsOfNumber(v, n);
    assert buf[2..2 + 2 * n] == w;
    if n == 1 {
      OneWord(w);
    }
  }

  lemma OneWord(w: seq<Byte>)
    requires |w| == 2
    ensures Words(w, 1) == Word(w[0], w[1])
  {
    assert Words(w, 1) == Words(w[..0], 0) * 0x1_0000 + Word(w[0], w[1]);
  }

  /** With exact single-precision packing, re-encoding a decoded number gives the consumed bytes back. */
  lemma EncodeDecode(fl: FloatCodec, buf: seq<Byte>)
    requires Decode(fl, buf).Ok? && buf[0] as int != STRING
    requires forall p: Single :: fl.pack(fl.unpack(p)) == Some(p)
    ensures var d := Decode(fl, buf).value;
            Encode(fl, d.tag, d.value) == Ok(buf[..d.consumed]) <==> (d.tag == PACKED ==> buf[1] == 1)
  {
    hide Long, LongBytes, Word, WordBytes, Words, Signed, Unsigned, Truncate;
    var d := Decode(fl, buf).value;
    if d.tag == FLOAT || d.tag == U32 || d.tag == S32 {
      EncodeDecodeLong(fl, buf);
    } else if d.tag == U16 {
      WordBytesOfWord(buf[1], buf[2]);
      assert buf[..3] == [buf[0]] + [buf[1], buf[2]];
    } else if d.tag == PACKED {
      if buf[1] == 1 {
        WordBytesOfWord(buf[2], buf[3]);
        assert buf[..4] == [buf[0], buf[1]] + [buf[2], buf[3]];
      } else {
        assert buf[..d.consumed][1] == buf[1];
      }
    } else {
      assert buf[..2] == [buf[0], buf[1]];
    }
  }

  lemma EncodeDecodeLong(fl: FloatCodec, buf: seq<Byte>)
    requires Decode(fl, buf).Ok? && buf[0] as int in {FLOAT, U32, S32}
    requires forall p: Single :: fl.pack(fl.unpack(p)) == Some(p)
    ensures var d := Decode(fl, buf).value;
            d.consumed == 5 && Encode(fl, d.tag, d.value) == Ok(buf[..5])
  {
    hide Long, LongBytes, Word, WordBytes, Words, Signed, Unsigned, Truncate;
    var p := Long(buf[1..5]);
    LongBytesOfLong(buf[1..5]);
    SignedUnsigned(p);
    assert buf[..5] == [buf[0]] + buf[1..5];
    assert fl.pack(fl.unpack(p)) == Some(p);
  }

  lemma SignedUnsigned(n: Single)
    ensures -0x8000_0000 <= Signed(n) < 0x8000_0000 && Unsigned(Signed(n)) == n
  {
  }
}
