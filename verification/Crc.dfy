/**
 * The two CRCs of a BACnet MS/TP frame (clause 9 and Annex G of ANSI/ASHRAE Standard 135).
 *
 * `Feed` is the bit-serial shift register; `HeaderStep` and `DataStep` are the parallel
 * forms that consume a whole byte.
 */
module Crc {
  import opened Bits

  /**
   * Feedback taps. A register sent least significant bit first holds the coefficient of
   * x^j in bit width-1-j: x^8 + x^7 + 1 taps bits 0 and 7, x^16 + x^12 + x^5 + 1 taps
   * bits 3, 10 and 15.
   */
  function HeaderTaps(): (taps: seq<bool>)
    ensures |taps| == 8
  {
    seq(8, i => i == 0 || i == 7)
  }

  function DataTaps(): (taps: seq<bool>)
    ensures |taps| == 16
  {
    seq(16, i => i == 3 || i == 10 || i == 15)
  }

  function Ones(k: nat): (z: seq<bool>)
    ensures |z| == k && forall i :: 0 <= i < k ==> z[i]
  {
    seq(k, _ => true)
  }

  /** `~x` within the width of `x`. */
  function Not(x: seq<bool>): (z: seq<bool>)
    ensures |z| == |x| && forall i :: 0 <= i < |x| ==> z[i] == !x[i]
  {
    seq(|x|, i requires 0 <= i < |x| => !x[i])
  }

  // ---------------------------------------------------------------- the bit-serial register

  /**
   * One step of polynomial division: the register moves one place and, when a one falls
   * out, the taps are subtracted.
   */
  function Feed(taps: seq<bool>, reg: seq<bool>, bit: bool): (next: seq<bool>)
    ensures |next| == |reg|
  {
    var subtract := At(reg, 0) != bit;
    seq(|reg|, i => At(reg, i + 1) != (subtract && At(taps, i)))
  }

  /** Dividing a whole message, bit by bit. */
  function Run(taps: seq<bool>, reg: seq<bool>, bits: seq<bool>): (next: seq<bool>)
    ensures |next| == |reg|
    decreases |bits|
  {
    if bits == [] then reg else Run(taps, Feed(taps, reg, bits[0]), bits[1..])
  }

  lemma {:induction false} RunAppend(taps: seq<bool>, reg: seq<bool>, x: seq<bool>, y: seq<bool>)
    ensures Run(taps, reg, x + y) == Run(taps, Run(taps, reg, x), y)
    decreases |x|
  {
    if x == [] {
      assert x + y == y;
    } else {
      assert (x + y)[1..] == x[1..] + y;
      RunAppend(taps, Feed(taps, reg, x[0]), x[1..], y);
    }
  }

  // ---------------------------------------------------------------- the parallel steps

  function HeaderStep(crc: seq<bool>, b: Byte): (next: seq<bool>)
    requires |crc| == 8
    ensures |next| == 8
  {
    var x0 := Xor(crc, ByteBits(b));
    var x := Xor(Xor(Xor(Xor(Xor(Xor(Xor(x0, Shl(x0, 1)), Shl(x0, 2)), Shl(x0, 3)), Shl(x0, 4)),
                     Shl(x0, 5)), Shl(x0, 6)), Shl(x0, 7));
    // (x & 0xFE) ^ ((x >> 8) & 0x01)
    Low(Xor(Shl(Shr(Low(x, 8), 1), 1), Low(Shr(x, 8), 1)), 8)
  }

  function DataStep(crc: seq<bool>, b: Byte): (next: seq<bool>)
    requires |crc| == 16
    ensures |next| == 16
  {
    var low := Xor(Low(crc, 8), ByteBits(b));
    Low(Xor(Xor(Xor(Xor(Xor(Xor(Shr(crc, 8), Shl(low, 8)), Shl(low, 3)), Shl(low, 12)), Shr(low, 4)),
                Low(low, 4)), Shl(Low(low, 4), 7)), 16)
  }

  // ---------------------------------------------------------------- parallel equals serial

  lemma AtFeed(taps: seq<bool>, reg: seq<bool>, bit: bool, i: int)
    ensures At(Feed(taps, reg, bit), i)
         == (0 <= i < |reg| && (At(reg, i + 1) != ((At(reg, 0) != bit) && At(taps, i))))
  {
  }

  /** The register after the first `k` bits of `s`. */
  function After(taps: seq<bool>, reg: seq<bool>, s: seq<bool>, k: nat): (next: seq<bool>)
    requires k <= |s|
    ensures |next| == |reg|
  {
    if k == 0 then reg else Feed(taps, After(taps, reg, s, k - 1), s[k - 1])
  }

  lemma {:induction false} RunIsAfter(taps: seq<bool>, reg: seq<bool>, s: seq<bool>, k: nat)
    requires k <= |s|
    ensures Run(taps, reg, s[..k]) == After(taps, reg, s, k)
  {
    hide Feed;
    if k > 0 {
      RunIsAfter(taps, reg, s, k - 1);
      assert s[..k] == s[..k - 1] + [s[k - 1]];
      RunAppend(taps, reg, s[..k - 1], [s[k - 1]]);
    }
  }

  /** Whether step `k` subtracts the taps. */
  function Out(taps: seq<bool>, reg: seq<bool>, s: seq<bool>, k: int): bool
  {
    0 <= k < |s| && (At(After(taps, reg, s, k), 0) != s[k])
  }

  /** Bit `i` after `k` steps: the shifted register plus every subtraction so far. */
  function Folded(taps: seq<bool>, reg: seq<bool>, s: seq<bool>, k: nat, i: int): bool
    requires k <= |s|
  {
    if k == 0 then At(reg, i)
    else i < |reg| && (Folded(taps, reg, s, k - 1, i + 1) != (Out(taps, reg, s, k - 1) && At(taps, i)))
  }

  lemma {:induction false} AfterIsFolded(taps: seq<bool>, reg: seq<bool>, s: seq<bool>, k: nat, i: int)
    requires k <= |s| && 0 <= i
    ensures At(After(taps, reg, s, k), i) == Folded(taps, reg, s, k, i)
  {
    hide Feed;
    if k > 0 {
      AtFeed(taps, After(taps, reg, s, k - 1), s[k - 1], i);
      AfterIsFolded(taps, reg, s, k - 1, i + 1);
    }
  }

  lemma OutOfRange(taps: seq<bool>, reg: seq<bool>, s: seq<bool>, k: int)
    requires k < 0 || k >= |s|
    ensures !Out(taps, reg, s, k)
  {
  }

  lemma {:induction false} DataFolded(reg: seq<bool>, s: seq<bool>, k: nat, i: int)
    requires |reg| == 16 && k <= |s| && 0 <= i
    ensures Folded(DataTaps(), reg, s, k, i)
         == (((At(reg, i + k) != (i <= 3 && Out(DataTaps(), reg, s, i + k - 4)))
              != (i <= 10 && Out(DataTaps(), reg, s, i + k - 11)))
             != (i <= 15 && Out(DataTaps(), reg, s, i + k - 16)))
  {
    hide Out;
    if k > 0 {
      DataFolded(reg, s, k - 1, i + 1);
    } else {
      forall j | j < 0 ensures !Out(DataTaps(), reg, s, j) { OutOfRange(DataTaps(), reg, s, j); }
    }
  }

  lemma {:induction false} HeaderFolded(reg: seq<bool>, s: seq<bool>, k: nat, i: int)
    requires |reg| == 8 && k <= |s| && 0 <= i
    ensures Folded(HeaderTaps(), reg, s, k, i)
         == ((At(reg, i + k) != (i <= 0 && Out(HeaderTaps(), reg, s, i + k - 1)))
             != (i <= 7 && Out(HeaderTaps(), reg, s, i + k - 8)))
  {
    hide Out;
    if k > 0 {
      HeaderFolded(reg, s, k - 1, i + 1);
    } else {
      forall j | j < 0 ensures !Out(HeaderTaps(), reg, s, j) { OutOfRange(HeaderTaps(), reg, s, j); }
    }
  }

  /** The feedback of a data byte, in terms of the byte added into the low half of the register. */
  lemma {:induction false} DataOut(reg: seq<bool>, s: seq<bool>, k: int)
    requires |reg| == 16 && |s| == 8 && k < 8
    ensures var low := Xor(Low(reg, 8), s);
            Out(DataTaps(), reg, s, k) == (At(low, k) != At(low, k - 4))
    decreases k
  {
    if k >= 0 {
      hide Xor, Low;
      AfterIsFolded(DataTaps(), reg, s, k, 0);
      DataFolded(reg, s, k, 0);
      OutOfRange(DataTaps(), reg, s, k - 11);
      OutOfRange(DataTaps(), reg, s, k - 16);
      AtXor(Low(reg, 8), s, k);
      AtLow(reg, 8, k);
      DataOut(reg, s, k - 4);
    } else {
      OutOfRange(DataTaps(), reg, s, k);
    }
  }

  /** The feedback of a header byte is a running parity. */
  lemma HeaderOut(reg: seq<bool>, s: seq<bool>, k: nat)
    requires |reg| == 8 && |s| == 8 && k < 8
    ensures Out(HeaderTaps(), reg, s, k) == (At(Xor(reg, s), k) != Out(HeaderTaps(), reg, s, k - 1))
  {
    hide Xor;
    AfterIsFolded(HeaderTaps(), reg, s, k, 0);
    HeaderFolded(reg, s, k, 0);
    OutOfRange(HeaderTaps(), reg, s, k - 8);
    AtXor(reg, s, k);
  }

  lemma AtDataStep(crc: seq<bool>, b: Byte, i: int)
    requires |crc| == 16 && 0 <= i < 16
    ensures var low := Xor(Low(crc, 8), ByteBits(b));
            At(DataStep(crc, b), i)
            == ((((((At(crc, i + 8) != At(low, i - 8)) != At(low, i - 3)) != At(low, i - 12)) != At(low, i + 4))
                 != (i < 4 && At(low, i))) != (i - 7 < 4 && At(low, i - 7)))
  {
    var low := Xor(Low(crc, 8), ByteBits(b));
    hide At, Shl, Shr, Xor, Low, ByteBits;
    var a1, a2, a3, a4, a5, a6, a7 := Shr(crc, 8), Shl(low, 8), Shl(low, 3), Shl(low, 12), Shr(low, 4), Low(low, 4), Shl(Low(low, 4), 7);
    AtShr(crc, 8, i);
    AtShl(low, 8, i);
    AtShl(low, 3, i);
    AtShl(low, 12, i);
    AtShr(low, 4, i);
    AtLow(low, 4, i);
    AtShl(Low(low, 4), 7, i);
    AtLow(low, 4, i - 7);
    AtXor(a1, a2, i);
    AtXor(Xor(a1, a2), a3, i);
    AtXor(Xor(Xor(a1, a2), a3), a4, i);
    AtXor(Xor(Xor(Xor(a1, a2), a3), a4), a5, i);
    AtXor(Xor(Xor(Xor(Xor(a1, a2), a3), a4), a5), a6, i);
    AtXor(Xor(Xor(Xor(Xor(Xor(a1, a2), a3), a4), a5), a6), a7, i);
    AtLow(Xor(Xor(Xor(Xor(Xor(Xor(a1, a2), a3), a4), a5), a6), a7), 16, i);
  }

  lemma AtAfterDataByte(reg: seq<bool>, s: seq<bool>, i: int)
    requires |reg| == 16 && |s| == 8 && 0 <= i < 16
    ensures var low := Xor(Low(reg, 8), s);
            At(After(DataTaps(), reg, s, 8), i)
            == (((At(reg, i + 8) != (i <= 3 && At(low, i + 4) != At(low, i)))
                 != (i <= 10 && At(low, i - 3) != At(low, i - 7))) != (At(low, i - 8) != At(low, i - 12)))
  {
    hide Out, Xor, Low, After, Folded, At;
    AfterIsFolded(DataTaps(), reg, s, 8, i);
    DataFolded(reg, s, 8, i);
    if i <= 3 { DataOut(reg, s, i + 4); }
    if i <= 10 { DataOut(reg, s, i - 3); }
    DataOut(reg, s, i - 8);
  }

  /** Consuming a data byte at once equals eight steps of the serial register. */
  lemma DataStepIsSerial(crc: seq<bool>, b: Byte)
    requires |crc| == 16
    ensures DataStep(crc, b) == Run(DataTaps(), crc, ByteBits(b))
  {
    var s := ByteBits(b);
    assert s[..8] == s;
    RunIsAfter(DataTaps(), crc, s, 8);
    hide DataStep, Xor, Low, ByteBits, After, Run;
    forall i | 0 <= i < 16 ensures At(DataStep(crc, b), i) == At(After(DataTaps(), crc, s, 8), i) {
      AtDataStep(crc, b, i);
      AtAfterDataByte(crc, s, i);
    }
    SameBits(DataStep(crc, b), After(DataTaps(), crc, s, 8));
  }

  /** Parity of the `n` bits of `x` at and below place `j`. */
  function Window(x: seq<bool>, j: int, n: nat): bool
  {
    if n == 0 then false else Window(x, j, n - 1) != At(x, j - (n - 1))
  }

  lemma {:induction false} WindowTop(x: seq<bool>, j: int, n: nat)
    requires n > 0
    ensures Window(x, j, n) == (At(x, j) != Window(x, j - 1, n - 1))
  {
    if n > 1 {
      WindowTop(x, j, n - 1);
    }
  }

  lemma {:induction false} HeaderOutIsWindow(reg: seq<bool>, s: seq<bool>, k: int)
    requires |reg| == 8 && |s| == 8 && -1 <= k < 8
    ensures Out(HeaderTaps(), reg, s, k) == Window(Xor(reg, s), k, k + 1) == Window(Xor(reg, s), k, 8)
  {
    hide Xor;
    var x := Xor(reg, s);
    if k < 0 {
      OutOfRange(HeaderTaps(), reg, s, k);
    } else {
      HeaderOut(reg, s, k);
      HeaderOutIsWindow(reg, s, k - 1);
      WindowTop(x, k, k + 1);
    }
    WindowPad(x, k, 8);
  }

  lemma {:induction false} WindowPad(x: seq<bool>, k: int, n: nat)
    requires -1 <= k < n
    ensures Window(x, k, n) == Window(x, k, k + 1)
  {
    if n > k + 1 {
      WindowPad(x, k, n - 1);
    }
  }

  lemma AtHeaderStep(crc: seq<bool>, b: Byte, i: int)
    requires |crc| == 8 && 0 <= i < 8
    ensures At(HeaderStep(crc, b), i) == Window(Xor(crc, ByteBits(b)), if i == 0 then 8 else i, 8)
  {
    var x0 := Xor(crc, ByteBits(b));
    var x := Xor(Xor(Xor(Xor(Xor(Xor(Xor(x0, Shl(x0, 1)), Shl(x0, 2)), Shl(x0, 3)), Shl(x0, 4)),
                     Shl(x0, 5)), Shl(x0, 6)), Shl(x0, 7));
    hide At, Shl, Shr, Xor, Low, ByteBits;
    AtFold(x0, if i == 0 then 8 else i);
    var even, carry := Shl(Shr(Low(x, 8), 1), 1), Low(Shr(x, 8), 1);
    AtLow(Xor(even, carry), 8, i);
    AtXor(even, carry, i);
    AtShl(Shr(Low(x, 8), 1), 1, i);
    AtShr(Low(x, 8), 1, i - 1);
    AtLow(x, 8, i);
    AtLow(Shr(x, 8), 1, i);
    AtShr(x, 8, i);
  }

  lemma AtFold(x0: seq<bool>, j: int)
    ensures var x := Xor(Xor(Xor(Xor(Xor(Xor(Xor(x0, Shl(x0, 1)), Shl(x0, 2)), Shl(x0, 3)), Shl(x0, 4)),
                             Shl(x0, 5)), Shl(x0, 6)), Shl(x0, 7));
            At(x, j) == Window(x0, j, 8)
  {
    hide At, Shl, Xor;
    assert Window(x0, j, 1) == At(x0, j);
    var y1 := Xor(x0, Shl(x0, 1));
    AddWindow(x0, x0, j, 1);
    var y2 := Xor(y1, Shl(x0, 2));
    AddWindow(x0, y1, j, 2);
    var y3 := Xor(y2, Shl(x0, 3));
    AddWindow(x0, y2, j, 3);
    var y4 := Xor(y3, Shl(x0, 4));
    AddWindow(x0, y3, j, 4);
    var y5 := Xor(y4, Shl(x0, 5));
    AddWindow(x0, y4, j, 5);
    var y6 := Xor(y5, Shl(x0, 6));
    AddWindow(x0, y5, j, 6);
    var y7 := Xor(y6, Shl(x0, 7));
    AddWindow(x0, y6, j, 7);
  }

  lemma AddWindow(x0: seq<bool>, y: seq<bool>, j: int, k: nat)
    requires At(y, j) == Window(x0, j, k)
    ensures At(Xor(y, Shl(x0, k)), j) == Window(x0, j, k + 1)
  {
    hide At, Shl, Xor;
    AtXor(y, Shl(x0, k), j);
    AtShl(x0, k, j);
  }

  lemma AtAfterHeaderByte(reg: seq<bool>, s: seq<bool>, i: int)
    requires |reg| == 8 && |s| == 8 && 0 <= i < 8
    ensures At(After(HeaderTaps(), reg, s, 8), i) == Window(Xor(reg, s), if i == 0 then 8 else i, 8)
  {
    hide Out, Xor, Low, After, Folded, At, HeaderTaps;
    AfterIsFolded(HeaderTaps(), reg, s, 8, i);
    HeaderFolded(reg, s, 8, i);
    HeaderOutIsWindow(reg, s, i);
    NoBit(reg, i + 8);
    if i == 0 {
      HeaderOutIsWindow(reg, s, 7);
      WindowTop(Xor(reg, s), 8, 8);
      NoBit(Xor(reg, s), 8);
      assert Window(Xor(reg, s), 0, 1) == At(Xor(reg, s), 0);
      assert Window(Xor(reg, s), 7, 8) == (Window(Xor(reg, s), 7, 7) != At(Xor(reg, s), 0));
    }
  }

  lemma NoBit(x: seq<bool>, i: int)
    requires i < 0 || i >= |x|
    ensures !At(x, i)
  {
  }

  /** Consuming a header byte at once equals eight steps of the serial register. */
  lemma HeaderStepIsSerial(crc: seq<bool>, b: Byte)
    requires |crc| == 8
    ensures HeaderStep(crc, b) == Run(HeaderTaps(), crc, ByteBits(b))
  {
    hide HeaderStep, Out, Xor, ByteBits, After, Run, Folded, Window, HeaderTaps;
    var s := ByteBits(b);
    assert s[..8] == s;
    RunIsAfter(HeaderTaps(), crc, s, 8);
    forall i | 0 <= i < 8 ensures At(HeaderStep(crc, b), i) == At(After(HeaderTaps(), crc, s, 8), i) {
      AtHeaderStep(crc, b, i);
      AtAfterHeaderByte(crc, s, i);
    }
    SameBits(HeaderStep(crc, b), After(HeaderTaps(), crc, s, 8));
  }

  // ---------------------------------------------------------------- the CRC functions

  /** The header CRC: the complement of the register after the header bits. */
  function HeaderCrc(data: seq<Byte>): Byte
  {
    ToByte(Not(Run(HeaderTaps(), Ones(8), WireBits(data))))
  }

  method HeaderCrc8(data: seq<Byte>) returns (hcrc: Byte)
    ensures hcrc == HeaderCrc(data)
  {
    var crc := Ones(8);
    for i := 0 to |data|
      invariant crc == Run(HeaderTaps(), Ones(8), WireBits(data[..i])) && |crc| == 8
    {
      HeaderStepIsSerial(crc, data[i]);
      RunOneMore(HeaderTaps(), Ones(8), data, i);
      crc := HeaderStep(crc, data[i]);
    }
    assert data[..|data|] == data;
    hcrc := ToByte(Not(crc));
  }

  /** The data CRC register, complemented; sent low byte first. */
  function DataCrc(data: seq<Byte>): (bits: seq<bool>)
    ensures |bits| == 16
  {
    Not(Run(DataTaps(), Ones(16), WireBits(data)))
  }

  function DataCrcBytes(data: seq<Byte>): (bytes: seq<Byte>)
    ensures |bytes| == 2 && WireBits(bytes) == DataCrc(data)
  {
    var bits := DataCrc(data);
    TwoBytes(bits);
    [ToByte(bits[..8]), ToByte(bits[8..])]
  }

  lemma TwoBytes(bits: seq<bool>)
    requires |bits| == 16
    ensures WireBits([ToByte(bits[..8]), ToByte(bits[8..])]) == bits
  {
    hide ToByte, ByteBits;
    var lo, hi := ToByte(bits[..8]), ToByte(bits[8..]);
    assert [lo, hi][1..] == [hi] && [hi][1..] == [];
    assert WireBits([hi]) == ByteBits(hi) + WireBits([]);
    assert bits == bits[..8] + bits[8..];
  }

  method DataCrc16(data: seq<Byte>) returns (dcrc: seq<bool>)
    ensures dcrc == DataCrc(data)
  {
    var crc := Ones(16);
    for i := 0 to |data|
      invariant crc == Run(DataTaps(), Ones(16), WireBits(data[..i])) && |crc| == 16
    {
      DataStepIsSerial(crc, data[i]);
      RunOneMore(DataTaps(), Ones(16), data, i);
      crc := DataStep(crc, data[i]);
    }
    assert data[..|data|] == data;
    dcrc := Not(crc);
  }

  lemma RunOneMore(taps: seq<bool>, reg: seq<bool>, data: seq<Byte>, i: nat)
    requires i < |data|
    ensures Run(taps, reg, WireBits(data[..i + 1]))
         == Run(taps, Run(taps, reg, WireBits(data[..i])), ByteBits(data[i]))
  {
    assert data[..i + 1] == data[..i] + [data[i]];
    WireBitsAppend(data[..i], [data[i]]);
    assert WireBits([data[i]]) == ByteBits(data[i]) + WireBits([]) == ByteBits(data[i]);
    RunAppend(taps, reg, WireBits(data[..i]), ByteBits(data[i]));
  }
}
