/**
 * The order of the data generator: x^16 + x^12 + x^5 + 1 divides x^d - 1 exactly when
 * 32767 divides d, so two flipped bits go unseen only at such a distance.
 */
module CrcOrder {
  import opened Bits
  import opened Crc
  import opened CrcDetection

  // ---------------------------------------------------------------- the register as a word

  type Word16 = bv16

  const UNIT: Word16 := 0x8000
  const GENERATOR: Word16 := 0x8408

  function Sum(a: Word16, b: Word16): Word16
  {
    a ^ b
  }

  function Half(n: Word16): Word16
  {
    n >> 1
  }

  function LowBit(n: Word16): bool
  {
    n & 1 == 1
  }

  function If(bit: bool, n: Word16): Word16
  {
    if bit then n else 0
  }

  /** x times a remainder; bit 15 holds the coefficient of 1 and bit 0 that of x^15. */
  function TimesX(n: Word16): Word16
  {
    if LowBit(n) then Sum(Half(n), GENERATOR) else Half(n)
  }

  lemma TimesXIs(n: Word16)
    ensures TimesX(n) == Sum(Half(n), If(LowBit(n), GENERATOR))
  {
    hide Sum, Half, LowBit;
    SumNone(Half(n));
  }

  /** x^k times a remainder. */
  function Times(n: Word16, k: nat): Word16
  {
    if k == 0 then n else TimesX(Times(n, k - 1))
  }

  /** The remainder of x^k. */
  function Power(k: nat): Word16
  {
    Times(UNIT, k)
  }

  lemma TimesXXor(a: Word16, b: Word16)
    ensures TimesX(Sum(a, b)) == Sum(TimesX(a), TimesX(b))
  {
    LowSum(a, b);
    HalfSum(a, b);
    IfSum(LowBit(a), LowBit(b), GENERATOR);
    TimesXIs(a);
    TimesXIs(b);
    TimesXIs(Sum(a, b));
    hide Sum, Half, LowBit, If, TimesX;
    SumPairs(Half(a), Half(b), If(LowBit(a), GENERATOR), If(LowBit(b), GENERATOR));
  }

  lemma LowSum(a: Word16, b: Word16)
    ensures LowBit(Sum(a, b)) == (LowBit(a) != LowBit(b))
  {
  }

  lemma HalfSum(a: Word16, b: Word16)
    ensures Half(Sum(a, b)) == Sum(Half(a), Half(b))
  {
  }

  lemma IfSum(x: bool, y: bool, n: Word16)
    ensures If(x != y, n) == Sum(If(x, n), If(y, n))
  {
    hide Sum;
    SumCancels(n, n);
    SumCancels(0, 0);
  }

  lemma SumAssoc(a: Word16, b: Word16, c: Word16)
    ensures Sum(Sum(a, b), c) == Sum(a, Sum(b, c))
  {
  }

  lemma SumComm(a: Word16, b: Word16)
    ensures Sum(a, b) == Sum(b, a)
  {
  }

  lemma SumPairs(a: Word16, b: Word16, f: Word16, g: Word16)
    ensures Sum(Sum(a, b), Sum(f, g)) == Sum(Sum(a, f), Sum(b, g))
  {
    hide Sum;
    SumAssoc(Sum(a, b), f, g);
    SumAssoc(a, b, f);
    SumComm(b, f);
    SumAssoc(a, f, b);
    SumAssoc(Sum(a, f), b, g);
  }

  lemma SumNone(a: Word16)
    ensures Sum(a, 0) == a && Sum(0, a) == a
  {
  }

  lemma SumSelf(a: Word16)
    ensures Sum(a, a) == 0
  {
  }

  lemma SumCancels(a: Word16, b: Word16)
    ensures Sum(a, 0) == a && Sum(0, a) == a && (Sum(a, b) == 0 <==> a == b)
  {
    hide Sum;
    SumNone(a);
    SumNone(b);
    SumSelf(b);
    SumAssoc(a, b, b);
  }

  /** Only 0 is sent to 0. */
  lemma TimesXKernel(a: Word16)
    ensures TimesX(a) == 0 <==> a == 0
  {
    Unshift(a);
    TimesXIs(a);
    hide Sum, Half, LowBit, TimesX;
    SumCancels(Half(a), If(LowBit(a), GENERATOR));
  }

  lemma Unshift(a: Word16)
    ensures Half(a) != GENERATOR && (Half(a) == 0 && !LowBit(a) <==> a == 0)
  {
  }

  lemma TimesXInjective(a: Word16, b: Word16)
    requires TimesX(a) == TimesX(b)
    ensures a == b
  {
    hide TimesX, Sum;
    TimesXXor(a, b);
    SumCancels(TimesX(a), TimesX(b));
    TimesXKernel(Sum(a, b));
    SumCancels(a, b);
  }

  lemma {:induction false} TimesInjective(a: Word16, b: Word16, k: nat)
    requires Times(a, k) == Times(b, k)
    ensures a == b
  {
    if k > 0 {
      TimesXInjective(Times(a, k - 1), Times(b, k - 1));
      TimesInjective(a, b, k - 1);
    }
  }

  lemma {:induction false} TimesSum(n: Word16, j: nat, k: nat)
    ensures Times(Times(n, j), k) == Times(n, j + k)
  {
    if k > 0 {
      TimesSum(n, j, k - 1);
    }
  }

  // ---------------------------------------------------------------- words as bit strings

  function Bit(q: Word16, mask: Word16): bool
  {
    q & mask != 0
  }

  function Mask(i: nat): Word16
    requires i < 16
  {
    if i == 0 then 1 else Mask(i - 1) << 1
  }

  function WordBits(n: Word16): (bits: seq<bool>)
    ensures |bits| == 16
  {
    seq(16, i requires 0 <= i < 16 => Bit(n, Mask(i)))
  }

  lemma LowMasks()
    ensures Mask(0) == 1 && Mask(1) == 2 && Mask(2) == 4 && Mask(3) == 8
    ensures Mask(4) == 0x10 && Mask(5) == 0x20 && Mask(6) == 0x40 && Mask(7) == 0x80
  {
    assert Mask(3) == 8;
    assert Mask(5) == 0x20;
  }

  lemma HighMasks()
    ensures Mask(8) == 0x100 && Mask(9) == 0x200 && Mask(10) == 0x400 && Mask(11) == 0x800
    ensures Mask(12) == 0x1000 && Mask(13) == 0x2000 && Mask(14) == 0x4000 && Mask(15) == 0x8000
  {
    LowMasks();
    assert Mask(9) == 0x200;
    assert Mask(11) == 0x800;
    assert Mask(13) == 0x2000;
  }

  lemma SameWord(a: Word16, b: Word16)
    requires WordBits(a) == WordBits(b)
    ensures a == b
  {
    LowMasks();
    HighMasks();
    forall i | 0 <= i < 16 ensures Bit(a, Mask(i)) == Bit(b, Mask(i)) {
      assert WordBits(a)[i] == WordBits(b)[i];
    }
    SameLowBits(a, b);
    SameHighBits(a, b);
    SameHalves(a, b);
  }

  lemma SameLowBits(a: Word16, b: Word16)
    requires Bit(a, 1) == Bit(b, 1) && Bit(a, 2) == Bit(b, 2) && Bit(a, 4) == Bit(b, 4) && Bit(a, 8) == Bit(b, 8)
    requires Bit(a, 0x10) == Bit(b, 0x10) && Bit(a, 0x20) == Bit(b, 0x20)
    requires Bit(a, 0x40) == Bit(b, 0x40) && Bit(a, 0x80) == Bit(b, 0x80)
    ensures a & 0xFF == b & 0xFF
  {
  }

  lemma SameHighBits(a: Word16, b: Word16)
    requires Bit(a, 0x100) == Bit(b, 0x100) && Bit(a, 0x200) == Bit(b, 0x200)
    requires Bit(a, 0x400) == Bit(b, 0x400) && Bit(a, 0x800) == Bit(b, 0x800)
    requires Bit(a, 0x1000) == Bit(b, 0x1000) && Bit(a, 0x2000) == Bit(b, 0x2000)
    requires Bit(a, 0x4000) == Bit(b, 0x4000) && Bit(a, 0x8000) == Bit(b, 0x8000)
    ensures a & 0xFF00 == b & 0xFF00
  {
  }

  lemma SameHalves(a: Word16, b: Word16)
    requires a & 0xFF == b & 0xFF && a & 0xFF00 == b & 0xFF00
    ensures a == b
  {
  }

  /** Feeding a zero to the data register multiplies it by x. */
  lemma FeedWord(n: Word16)
    ensures Feed(DataTaps(), WordBits(n), false) == WordBits(TimesX(n))
  {
    hide Feed, DataTaps, TimesX, Bit, Mask;
    var reg := WordBits(n);
    forall i | 0 <= i < 16 ensures Feed(DataTaps(), reg, false)[i] == WordBits(TimesX(n))[i] {
      AtFeed(DataTaps(), reg, false, i);
      TapAt(i);
      BitTimesX(n, i);
    }
  }

  lemma TapAt(i: nat)
    ensures At(DataTaps(), i) == (i == 3 || i == 10 || i == 15)
  {
  }

  lemma BitTimesX(n: Word16, i: nat)
    requires i < 16
    ensures Bit(TimesX(n), Mask(i)) == ((i < 15 && Bit(n, Mask(i + 1))) != (Bit(n, Mask(0)) && (i == 3 || i == 10 || i == 15)))
  {
    LowMasks();
    HighMasks();
    if i == 15 {
      TopOfTimesX(n);
    } else {
      MaskShape(i);
      hide TimesX, Bit, Mask;
      BitOfTimesX(n, Mask(i));
    }
  }

  lemma MaskShape(i: nat)
    requires i < 15
    ensures var m := Mask(i); Mask(i + 1) == m << 1 && m != 0 && m & (m - 1) == 0 && m != 0x8000
    ensures (Mask(i) == 8 <==> i == 3) && (Mask(i) == 0x400 <==> i == 10)
  {
    LowMasks();
    HighMasks();
  }

  lemma TopOfTimesX(n: Word16)
    ensures Bit(TimesX(n), 0x8000) == Bit(n, 1)
  {
    TopBit(n);
  }

  lemma TopBit(n: Word16)
    ensures (n >> 1) & 0x8000 == 0 && (((n >> 1) ^ GENERATOR) & 0x8000) != 0
  {
  }

  lemma BitOfTimesX(n: Word16, m: Word16)
    requires m != 0 && m & (m - 1) == 0 && m != 0x8000
    ensures Bit(TimesX(n), m) == (Bit(n, m << 1) != (Bit(n, 1) && (m == 8 || m == 0x400)))
  {
  }

  // ---------------------------------------------------------------- products of remainders

  function One(acc: Word16, p: Word16, bit: bool): Word16
  {
    if bit then Sum(TimesX(acc), p) else TimesX(acc)
  }

  lemma OneIs(acc: Word16, p: Word16, bit: bool)
    ensures One(acc, p, bit) == Sum(TimesX(acc), If(bit, p))
  {
    hide TimesX, Sum;
    SumCancels(TimesX(acc), 0);
  }

  /** The product of two remainders, by Horner's rule from the highest power down. */
  function Horner(acc: Word16, p: Word16, bits: seq<bool>): Word16
    decreases |bits|
  {
    if bits == [] then acc else Horner(One(acc, p, bits[0]), p, bits[1..])
  }

  lemma OneShift(acc: Word16, p: Word16, bit: bool)
    ensures One(TimesX(acc), TimesX(p), bit) == TimesX(One(acc, p, bit))
  {
    hide TimesX, Sum, One;
    OneIs(acc, p, bit);
    OneIs(TimesX(acc), TimesX(p), bit);
    TimesXXor(TimesX(acc), If(bit, p));
    TimesXKernel(0);
  }

  lemma {:induction false} HornerShift(acc: Word16, p: Word16, bits: seq<bool>)
    ensures Horner(TimesX(acc), TimesX(p), bits) == TimesX(Horner(acc, p, bits))
    decreases |bits|
  {
    hide TimesX, One;
    if bits != [] {
      OneShift(acc, p, bits[0]);
      HornerShift(One(acc, p, bits[0]), p, bits[1..]);
    }
  }

  /** One times a remainder is that remainder: its bits come back in from the top. */
  lemma {:induction false} HornerUnit(acc: Word16, bits: seq<bool>)
    requires |bits| <= 16 && forall k :: 0 <= k < |bits| ==> !WordBits(acc)[k]
    ensures WordBits(Horner(acc, UNIT, bits)) == WordBits(acc)[|bits|..] + bits
    decreases |bits|
  {
    hide One, WordBits, TimesX, Bit, Mask;
    if bits == [] {
      assert WordBits(acc)[0..] + [] == WordBits(acc);
    } else {
      var next := One(acc, UNIT, bits[0]);
      OneUnit(acc, bits[0]);
      HornerUnit(next, bits[1..]);
      ShiftIn(WordBits(acc), bits);
    }
  }

  lemma ShiftIn(w: seq<bool>, bits: seq<bool>)
    requires 0 < |bits| <= |w|
    ensures (w[1..] + [bits[0]])[|bits| - 1..] + bits[1..] == w[|bits|..] + bits
  {
  }

  lemma OneUnit(acc: Word16, bit: bool)
    requires !WordBits(acc)[0]
    ensures WordBits(One(acc, UNIT, bit)) == WordBits(acc)[1..] + [bit]
  {
    hide One, Bit, Mask;
    var next := One(acc, UNIT, bit);
    forall i | 0 <= i < 16 ensures WordBits(next)[i] == (WordBits(acc)[1..] + [bit])[i] {
      BitOneUnit(acc, bit, i);
    }
  }

  lemma BitOneUnit(acc: Word16, bit: bool, i: nat)
    requires i < 16 && !Bit(acc, Mask(0))
    ensures Bit(One(acc, UNIT, bit), Mask(i)) == if i == 15 then bit else Bit(acc, Mask(i + 1))
  {
    BitTimesX(acc, i);
    BitOfUnit(i);
    OneIs(acc, UNIT, bit);
    hide TimesX, Bit, Sum, One;
    BitSum(TimesX(acc), If(bit, UNIT), i);
    BitSum(TimesX(acc), TimesX(acc), i);
    SumCancels(TimesX(acc), TimesX(acc));
  }

  lemma BitSum(a: Word16, b: Word16, i: nat)
    requires i < 16
    ensures Bit(Sum(a, b), Mask(i)) == (Bit(a, Mask(i)) != Bit(b, Mask(i)))
  {
    LowMasks();
    HighMasks();
    hide Mask;
    BitOfSum(a, b, Mask(i));
  }

  lemma BitOfSum(a: Word16, b: Word16, m: Word16)
    requires m & (m - 1) == 0
    ensures ((a ^ b) & m != 0) == ((a & m != 0) != (b & m != 0))
  {
  }

  lemma BitOfUnit(i: nat)
    requires i < 16
    ensures Bit(UNIT, Mask(i)) == (i == 15) && !Bit(0, Mask(i))
  {
    LowMasks();
    HighMasks();
  }

  lemma MulUnit(q: Word16)
    ensures Horner(0, UNIT, WordBits(q)) == q
  {
    hide WordBits, Horner;
    ZeroWord();
    HornerUnit(0, WordBits(q));
    assert WordBits(0)[16..] == [];
    SameWord(Horner(0, UNIT, WordBits(q)), q);
  }

  lemma ZeroWord()
    ensures WordBits(0) == Zeros(16)
  {
    hide Bit, Mask;
    forall i | 0 <= i < 16 ensures WordBits(0)[i] == Zeros(16)[i] { BitOfUnit(i); }
  }

  lemma {:induction false} MulPower(k: nat, q: Word16)
    ensures Horner(0, Power(k), WordBits(q)) == Times(q, k)
  {
    hide Horner, TimesX, WordBits;
    if k == 0 {
      MulUnit(q);
    } else {
      MulPower(k - 1, q);
      TimesXKernel(0);
      HornerShift(0, Power(k - 1), WordBits(q));
    }
  }

  lemma PowerSum(j: nat, k: nat)
    ensures Power(j + k) == Horner(0, Power(k), WordBits(Power(j)))
  {
    hide Horner, Times, WordBits;
    MulPower(k, Power(j));
    TimesSum(UNIT, j, k);
  }

  // ---------------------------------------------------------------- the same product, four bits at a time

  function Four(acc: Word16, p: Word16, q: Word16): Word16
  {
    One(One(One(One(acc, p, q & 1 == 1), p, q & 2 == 2), p, q & 4 == 4), p, q & 8 == 8)
  }

  function Mul(p: Word16, q: Word16): Word16
  {
    Four(Four(Four(Four(0, p, q), p, q >> 4), p, q >> 8), p, q >> 12)
  }

  /** The four bits from place `i` are the low four of `q`. */
  predicate Nibble(bits: seq<bool>, i: nat, q: Word16)
    requires i + 4 <= |bits|
  {
    bits[i] == (q & 1 == 1) && bits[i + 1] == (q & 2 == 2) && bits[i + 2] == (q & 4 == 4) && bits[i + 3] == (q & 8 == 8)
  }

  lemma HornerFour(acc: Word16, p: Word16, bits: seq<bool>, q: Word16, i: nat)
    requires i + 4 <= |bits| && Nibble(bits, i, q)
    ensures Horner(acc, p, bits[i..]) == Horner(Four(acc, p, q), p, bits[i + 4..])
  {
    hide One, Horner;
    HornerOne(acc, p, bits, i);
    var a1 := One(acc, p, bits[i]);
    HornerOne(a1, p, bits, i + 1);
    var a2 := One(a1, p, bits[i + 1]);
    HornerOne(a2, p, bits, i + 2);
    HornerOne(One(a2, p, bits[i + 2]), p, bits, i + 3);
  }

  lemma HornerOne(acc: Word16, p: Word16, bits: seq<bool>, i: nat)
    requires i < |bits|
    ensures Horner(acc, p, bits[i..]) == Horner(One(acc, p, bits[i]), p, bits[i + 1..])
  {
    assert bits[i..][1..] == bits[i + 1..];
  }

  lemma NibbleOf(q: Word16)
    ensures var w := WordBits(q); Nibble(w, 0, q) && Nibble(w, 4, q >> 4)
  {
    LowMasks();
  }

  lemma HighNibbleOf(q: Word16)
    ensures var w := WordBits(q); Nibble(w, 8, q >> 8) && Nibble(w, 12, q >> 12)
  {
    HighMasks();
  }

  lemma HornerNibbles(p: Word16, w: seq<bool>, q0: Word16, q1: Word16, q2: Word16, q3: Word16)
    requires |w| == 16 && Nibble(w, 0, q0) && Nibble(w, 4, q1) && Nibble(w, 8, q2) && Nibble(w, 12, q3)
    ensures Horner(0, p, w) == Four(Four(Four(Four(0, p, q0), p, q1), p, q2), p, q3)
  {
    hide Horner, Four, Nibble;
    assert w[0..] == w && w[16..] == [];
    HornerFour(0, p, w, q0, 0);
    var a4 := Four(0, p, q0);
    HornerFour(a4, p, w, q1, 4);
    var a8 := Four(a4, p, q1);
    HornerFour(a8, p, w, q2, 8);
    var a12 := Four(a8, p, q2);
    HornerFour(a12, p, w, q3, 12);
    HornerEnd(Four(a12, p, q3), p);
  }

  lemma MulIsHorner(p: Word16, q: Word16)
    ensures Mul(p, q) == Horner(0, p, WordBits(q))
  {
    hide WordBits, Horner, Four, Nibble;
    NibbleOf(q);
    HighNibbleOf(q);
    HornerNibbles(p, WordBits(q), q, q >> 4, q >> 8, q >> 12);
  }

  lemma HornerEnd(acc: Word16, p: Word16)
    ensures Horner(acc, p, []) == acc
  {
  }

  lemma Multiply(j: nat, k: nat, p: Word16, q: Word16, r: Word16)
    requires Power(j) == p && Power(k) == q && Mul(q, p) == r
    ensures Power(j + k) == r
  {
    hide Mul, Horner, Power, WordBits;
    PowerSum(j, k);
    MulIsHorner(q, p);
  }

  // ---------------------------------------------------------------- the powers of x

  lemma LowSquares()
    ensures Mul(0x4000, 0x4000) == 0x2000
    ensures Mul(0x2000, 0x2000) == 0x0800
    ensures Mul(0x0800, 0x0800) == 0x0080
    ensures Mul(0x0080, 0x0080) == 0x8408
    ensures Mul(0x8408, 0x8408) == 0x0CEC
  {
  }

  lemma MiddleSquares()
    ensures Mul(0x0CEC, 0x0CEC) == 0x861D
    ensures Mul(0x861D, 0x861D) == 0x3F75
    ensures Mul(0x3F75, 0x3F75) == 0x9471
    ensures Mul(0x9471, 0x9471) == 0x3FC8
    ensures Mul(0x3FC8, 0x3FC8) == 0x236C
  {
  }

  lemma HighSquares()
    ensures Mul(0x236C, 0x236C) == 0x0ABF
    ensures Mul(0x0ABF, 0x0ABF) == 0x7955
    ensures Mul(0x7955, 0x7955) == 0x3811
    ensures Mul(0x3811, 0x3811) == 0x1A22
    ensures Mul(0x1A22, 0x1A22) == 0x4000
  {
  }

  lemma FirstPower()
    ensures Power(1) == 0x4000
  {
    assert Power(0) == UNIT;
  }

  lemma PowersTo32()
    ensures Power(2) == 0x2000 && Power(4) == 0x0800 && Power(8) == 0x0080
    ensures Power(16) == 0x8408 && Power(32) == 0x0CEC
  {
    FirstPower();
    LowSquares();
    hide *;
    Multiply(1, 1, 0x4000, 0x4000, 0x2000);
    Multiply(2, 2, 0x2000, 0x2000, 0x0800);
    Multiply(4, 4, 0x0800, 0x0800, 0x0080);
    Multiply(8, 8, 0x0080, 0x0080, 0x8408);
    Multiply(16, 16, 0x8408, 0x8408, 0x0CEC);
  }

  lemma PowersTo1024()
    requires Power(32) == 0x0CEC
    ensures Power(64) == 0x861D && Power(128) == 0x3F75 && Power(256) == 0x9471
    ensures Power(512) == 0x3FC8 && Power(1024) == 0x236C
  {
    MiddleSquares();
    hide *;
    Multiply(32, 32, 0x0CEC, 0x0CEC, 0x861D);
    Multiply(64, 64, 0x861D, 0x861D, 0x3F75);
    Multiply(128, 128, 0x3F75, 0x3F75, 0x9471);
    Multiply(256, 256, 0x9471, 0x9471, 0x3FC8);
    Multiply(512, 512, 0x3FC8, 0x3FC8, 0x236C);
  }

  lemma PowersTo32768()
    requires Power(1024) == 0x236C
    ensures Power(2048) == 0x0ABF && Power(4096) == 0x7955 && Power(8192) == 0x3811
    ensures Power(16384) == 0x1A22 && Power(32768) == 0x4000
  {
    HighSquares();
    hide *;
    Multiply(1024, 1024, 0x236C, 0x236C, 0x0ABF);
    Multiply(2048, 2048, 0x0ABF, 0x0ABF, 0x7955);
    Multiply(4096, 4096, 0x7955, 0x7955, 0x3811);
    Multiply(8192, 8192, 0x3811, 0x3811, 0x1A22);
    Multiply(16384, 16384, 0x1A22, 0x1A22, 0x4000);
  }

  lemma PowerOf217Products()
    ensures Mul(0x861D, 0x3F75) == 0xD0A6
    ensures Mul(0x8408, 0xD0A6) == 0x2DA2
    ensures Mul(0x0080, 0x2DA2) == 0x8635
    ensures Mul(0x4000, 0x8635) == 0xC712
  {
  }

  lemma PowerOf217()
    requires Power(128) == 0x3F75
    requires Power(64) == 0x861D
    requires Power(16) == 0x8408
    requires Power(8) == 0x0080
    requires Power(1) == 0x4000
    ensures Power(217) == 0xC712
  {
    PowerOf217Products();
    hide *;
    Multiply(128, 64, 0x3F75, 0x861D, 0xD0A6);
    Multiply(192, 16, 0xD0A6, 0x8408, 0x2DA2);
    Multiply(208, 8, 0x2DA2, 0x0080, 0x8635);
    Multiply(216, 1, 0x8635, 0x4000, 0xC712);
  }

  lemma PowerOf1057Products()
    ensures Mul(0x0CEC, 0x236C) == 0xE28F
    ensures Mul(0x4000, 0xE28F) == 0xF54F
  {
  }

  lemma PowerOf1057()
    requires Power(1024) == 0x236C
    requires Power(32) == 0x0CEC
    requires Power(1) == 0x4000
    ensures Power(1057) == 0xF54F
  {
    PowerOf1057Products();
    hide *;
    Multiply(1024, 32, 0x236C, 0x0CEC, 0xE28F);
    Multiply(1056, 1, 0xE28F, 0x4000, 0xF54F);
  }

  lemma PowerOf4681Products()
    ensures Mul(0x3FC8, 0x7955) == 0x052A
    ensures Mul(0x861D, 0x052A) == 0x6080
    ensures Mul(0x0080, 0x6080) == 0x8468
    ensures Mul(0x4000, 0x8468) == 0x4234
  {
  }

  lemma PowerOf4681()
    requires Power(4096) == 0x7955
    requires Power(512) == 0x3FC8
    requires Power(64) == 0x861D
    requires Power(8) == 0x0080
    requires Power(1) == 0x4000
    ensures Power(4681) == 0x4234
  {
    PowerOf4681Products();
    hide *;
    Multiply(4096, 512, 0x7955, 0x3FC8, 0x052A);
    Multiply(4608, 64, 0x052A, 0x861D, 0x6080);
    Multiply(4672, 8, 0x6080, 0x0080, 0x8468);
    Multiply(4680, 1, 0x8468, 0x4000, 0x4234);
  }

  // ---------------------------------------------------------------- the order of x

  predicate Period(m: nat)
  {
    Power(m) == UNIT
  }

  lemma Drop(m: nat, n: nat)
    requires Period(m)
    ensures Power(m + n) == Power(n)
  {
    TimesSum(UNIT, m, n);
  }

  lemma {:induction false} Repeat(m: nat, k: nat, n: nat)
    requires Period(m)
    ensures Power(m * k + n) == Power(n)
  {
    hide Power, Period;
    if k > 0 {
      Repeat(m, k - 1, n);
      Drop(m, m * (k - 1) + n);
      assert m * k + n == m + (m * (k - 1) + n);
    }
  }

  lemma KnownPeriods()
    ensures Period(32767) && !Period(217) && !Period(1057) && !Period(4681)
  {
    FirstPower();
    PowersTo32();
    PowersTo1024();
    PowersTo32768();
    PowerOf217();
    PowerOf1057();
    PowerOf4681();
    Back();
    hide Power;
  }

  lemma Back()
    requires Power(32768) == Power(1)
    ensures Period(32767)
  {
    TimesInjective(Power(32767), UNIT, 1);
    TimesSum(UNIT, 32767, 1);
  }

  lemma Prime(q: nat, r: nat)
    requires q in {7, 31, 151} && 2 <= r < q
    ensures q % r != 0
  {
    if q == 151 {
      Product151(r, 151 / r);
    }
  }

  lemma Product151(r: nat, k: nat)
    requires 2 <= r < 151
    ensures r * k != 151
  {
    if r > 12 && k > 12 {
      assert r * k >= 13 * 13 by { Grows(r, k); }
    }
  }

  lemma Grows(r: nat, k: nat)
    requires r >= 13 && k >= 13
    ensures r * k >= 13 * 13
  {
    assert r * k == 13 * k + (r - 13) * k;
  }

  /** Euclid's algorithm: a period short of a prime many `c` leads down to `c` itself. */
  lemma {:induction false} Descend(q: nat, c: nat, r: nat)
    requires q in {7, 31, 151} && Period(c * q) && 1 <= r < q && Period(c * r)
    ensures Period(c)
    decreases r
  {
    hide Power, Period;
    if r == 1 {
      assert c * r == c;
    } else {
      Prime(q, r);
      var k, rest := q / r, q % r;
      Spread(c, q, r);
      Repeat(c * r, k, c * rest);
      SamePeriod(c * q, c * rest);
      Descend(q, c, rest);
    }
  }

  lemma Spread(c: nat, n: nat, m: nat)
    requires m > 0
    ensures c * n == (c * m) * (n / m) + c * (n % m)
  {
    Distribute(c, m, n / m, n % m);
  }

  lemma Distribute(c: nat, m: nat, k: nat, rest: nat)
    ensures c * (m * k + rest) == (c * m) * k + c * rest
  {
  }

  lemma SamePeriod(m: nat, n: nat)
    requires Power(m) == Power(n)
    ensures Period(m) == Period(n)
  {
  }

  lemma PeriodHasFactor(q: nat, c: nat, d: nat)
    requires q in {7, 31, 151} && c * q == 32767 && Period(32767) && !Period(c) && Period(d)
    ensures d % q == 0
  {
    hide Power, Period;
    var k, r := d / q, d % q;
    if r != 0 {
      Repeat(d, c, 0);
      Spread(c, d, q);
      Repeat(32767, k, c * r);
      Nothing();
      SamePeriod(d * c, 0);
      SamePeriod(d * c, c * r);
      Descend(q, c, r);
    }
  }

  lemma Nothing()
    ensures Period(0)
  {
  }

  /** x^d leaves the remainder 1 exactly when 32767 divides d. */
  lemma OrderIs32767(d: nat)
    ensures Period(d) <==> d % 32767 == 0
  {
    hide Power, Period;
    KnownPeriods();
    if Period(d) {
      PeriodHasFactor(7, 4681, d);
      PeriodHasFactor(31, 1057, d);
      PeriodHasFactor(151, 217, d);
      CommonMultiple(d, d / 7, d / 31, d / 151);
    }
    if d % 32767 == 0 {
      Repeat(32767, d / 32767, 0);
      Nothing();
      SamePeriod(d, 0);
    }
  }

  lemma CommonMultiple(d: nat, a: nat, b: nat, f: nat)
    requires d == 7 * a == 31 * b == 151 * f
    ensures d % 32767 == 0
  {
    var e := 9 * b - 2 * a;
    assert a == 31 * e;
    Multiple217(d, e, f);
  }

  lemma Multiple217(d: int, e: int, f: int)
    requires d == 217 * e == 151 * f
    ensures d % 32767 == 0
  {
    var g := 135 * f - 194 * e;
    assert e == 151 * g;
    assert d == 32767 * g;
  }

  // ---------------------------------------------------------------- errors of two bits

  /** Exactly the bits `i` and `i + d` are set. */
  ghost predicate TwoBits(e: seq<bool>, i: nat, d: nat)
  {
    d > 0 && i + d < |e| && forall k :: 0 <= k < |e| ==> (e[k] <==> k == i || k == i + d)
  }

  lemma {:induction false} RunZeros(n: Word16, k: nat)
    ensures Run(DataTaps(), WordBits(n), Zeros(k)) == WordBits(Times(n, k))
  {
    hide DataTaps, WordBits, TimesX, Feed;
    if k == 0 {
      assert Zeros(0) == [];
    } else {
      RunZeros(n, k - 1);
      assert Zeros(k) == Zeros(k - 1) + [false];
      RunAppend(DataTaps(), WordBits(n), Zeros(k - 1), [false]);
      RunOne(DataTaps(), WordBits(Times(n, k - 1)), false);
      FeedWord(Times(n, k - 1));
    }
  }

  lemma RunOne(taps: seq<bool>, reg: seq<bool>, bit: bool)
    ensures Run(taps, reg, [bit]) == Feed(taps, reg, bit)
  {
    hide Feed;
    assert [bit][1..] == [];
  }

  lemma FirstBit()
    ensures Feed(DataTaps(), Zeros(16), true) == WordBits(GENERATOR)
  {
    hide Feed, DataTaps, Bit, Mask;
    forall i | 0 <= i < 16 ensures Feed(DataTaps(), Zeros(16), true)[i] == WordBits(GENERATOR)[i] {
      AtFeed(DataTaps(), Zeros(16), true, i);
      TapAt(i);
      BitOfGenerator(i);
    }
  }

  lemma BitOfGenerator(i: nat)
    requires i < 16
    ensures Bit(GENERATOR, Mask(i)) == (i == 3 || i == 10 || i == 15)
  {
    LowMasks();
    HighMasks();
  }

  /** The second bit cancels what the first has become exactly when x^d is 1. */
  lemma SecondBit(d: nat)
    requires d > 0
    ensures Feed(DataTaps(), WordBits(Times(GENERATOR, d - 1)), true) == Zeros(16) <==> Period(d)
  {
    hide Feed, DataTaps, WordBits, TimesX, Xor;
    var m := Times(GENERATOR, d - 1);
    assert Xor(WordBits(m), Zeros(16)) == WordBits(m) by { XorNothing(WordBits(m)); }
    FeedXor(DataTaps(), WordBits(m), Zeros(16), false, true);
    FeedWord(m);
    FirstBit();
    XorZero(WordBits(TimesX(m)), WordBits(GENERATOR));
    if WordBits(TimesX(m)) == WordBits(GENERATOR) {
      SameWord(TimesX(m), GENERATOR);
    }
    ComesBack(d);
  }

  lemma XorNothing(x: seq<bool>)
    ensures Xor(x, Zeros(|x|)) == x
  {
  }

  lemma ComesBack(d: nat)
    ensures Times(GENERATOR, d) == GENERATOR <==> Period(d)
  {
    PowersTo32();
    hide TimesX;
    assert GENERATOR == Times(UNIT, 16);
    TimesSum(UNIT, 16, d);
    TimesSum(UNIT, d, 16);
    if Times(GENERATOR, d) == GENERATOR {
      TimesInjective(Power(d), UNIT, 16);
    }
  }

  /** Two flipped bits are a multiple of the generator exactly when 32767 divides their distance. */
  lemma TwoBitsCancelIff(e: seq<bool>, i: nat, d: nat)
    requires TwoBits(e, i, d)
    ensures Run(DataTaps(), Zeros(16), e) == Zeros(16) <==> d % 32767 == 0
  {
    hide Run, DataTaps, Feed, Period, WordBits, Times;
    var t := |e| - i - d - 1;
    TwoBitsParts(e, i, d);
    var reg := WordBits(Times(GENERATOR, d - 1));
    RunAppend(DataTaps(), Zeros(16), Zeros(i), [true] + (Zeros(d - 1) + ([true] + Zeros(t))));
    assert DataTaps()[15] by { TopTap(); }
    ZeroTail(DataTaps(), Zeros(16), i);
    RunAppend(DataTaps(), Zeros(16), [true], Zeros(d - 1) + ([true] + Zeros(t)));
    RunOne(DataTaps(), Zeros(16), true);
    FirstBit();
    RunAppend(DataTaps(), WordBits(GENERATOR), Zeros(d - 1), [true] + Zeros(t));
    RunZeros(GENERATOR, d - 1);
    RunAppend(DataTaps(), reg, [true], Zeros(t));
    RunOne(DataTaps(), reg, true);
    ZeroTail(DataTaps(), Feed(DataTaps(), reg, true), t);
    SecondBit(d);
    OrderIs32767(d);
  }

  lemma TopTap()
    ensures DataTaps()[15]
  {
  }

  lemma TwoBitsParts(e: seq<bool>, i: nat, d: nat)
    requires TwoBits(e, i, d)
    ensures e == Zeros(i) + ([true] + (Zeros(d - 1) + ([true] + Zeros(|e| - i - d - 1))))
  {
  }

  // ---------------------------------------------------------------- errors of few bits

  /** How many bits are set. */
  function Weight(x: seq<bool>): (n: nat)
    ensures Odd(x) <==> n % 2 == 1
  {
    if x == [] then 0 else (if x[0] then 1 else 0) + Weight(x[1..])
  }

  lemma {:induction false} WeightZero(x: seq<bool>)
    ensures Weight(x) == 0 <==> forall k :: 0 <= k < |x| ==> !x[k]
  {
    if x != [] {
      WeightZero(x[1..]);
      assert forall k :: 1 <= k < |x| ==> x[k] == x[1..][k - 1];
      assert forall k :: 0 <= k < |x| - 1 ==> x[1..][k] == x[k + 1];
    }
  }

  lemma {:induction false} WeightOne(x: seq<bool>, i: nat)
    requires i < |x| && forall k :: 0 <= k < |x| ==> (x[k] <==> k == i)
    ensures Weight(x) == 1
  {
    if i == 0 {
      WeightZero(x[1..]);
    } else {
      WeightOne(x[1..], i - 1);
    }
  }

  lemma {:induction false} WeightTwo(x: seq<bool>, i: nat, d: nat)
    requires TwoBits(x, i, d)
    ensures Weight(x) == 2
  {
    if i == 0 {
      WeightOne(x[1..], d - 1);
    } else {
      WeightTwo(x[1..], i - 1, d);
    }
  }

  lemma {:induction false} TheBit(x: seq<bool>) returns (i: nat)
    requires Weight(x) == 1
    ensures i < |x| && forall k :: 0 <= k < |x| ==> (x[k] <==> k == i)
  {
    if x[0] {
      WeightZero(x[1..]);
      assert forall k :: 1 <= k < |x| ==> x[k] == x[1..][k - 1];
      i := 0;
    } else {
      var j := TheBit(x[1..]);
      assert forall k :: 1 <= k < |x| ==> x[k] == x[1..][k - 1];
      i := j + 1;
    }
  }

  lemma {:induction false} TheTwoBits(x: seq<bool>) returns (i: nat, d: nat)
    requires Weight(x) == 2
    ensures TwoBits(x, i, d)
  {
    if x[0] {
      var j := TheBit(x[1..]);
      i, d := 0, j + 1;
    } else {
      var j, e := TheTwoBits(x[1..]);
      i, d := j + 1, e;
    }
    assert forall k :: 1 <= k < |x| ==> x[k] == x[1..][k - 1];
  }

  /** One, two or three flipped bits in at most 32767 are no multiple of the generator. */
  lemma FewBitsLeaveRemainder(e: seq<bool>)
    requires 1 <= Weight(e) <= 3 && |e| <= 32767
    ensures Run(DataTaps(), Zeros(16), e) != Zeros(16)
  {
    hide Run, DataTaps, Weight, Odd, TwoBits;
    if Weight(e) == 2 {
      var i, d := TheTwoBits(e);
      assert 0 < d < |e| by { Apart(e, i, d); }
      TwoBitsCancelIff(e, i, d);
    } else {
      DataTapsOdd();
      OddLeavesRemainder(DataTaps(), e);
    }
  }

  lemma Apart(e: seq<bool>, i: nat, d: nat)
    requires TwoBits(e, i, d)
    ensures 0 < d < |e|
  {
  }
}
