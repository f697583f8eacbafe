/** Wire bytes, and bit strings with the least significant bit first (the order a UART sends them). */
module Bits {

  type Byte = n: nat | n < 256

  // ---------------------------------------------------------------- numbers as bit strings

  /** The low `width` bits of a number. */
  function BitsOf(n: nat, width: nat): (bits: seq<bool>)
    ensures |bits| == width
  {
    if width == 0 then [] else [n % 2 == 1] + BitsOf(n / 2, width - 1)
  }

  function Pow2(k: nat): (p: nat)
    ensures p >= 1
  {
    if k == 0 then 1 else 2 * Pow2(k - 1)
  }

  /** The number a bit string stands for. */
  function Number(bits: seq<bool>): (n: nat)
    ensures n < Pow2(|bits|)
  {
    if bits == [] then 0 else (if bits[0] then 1 else 0) + 2 * Number(bits[1..])
  }

  lemma {:induction false} NumberOfBits(n: nat, width: nat)
    requires n < Pow2(width)
    ensures Number(BitsOf(n, width)) == n
  {
    if width > 0 {
      NumberOfBits(n / 2, width - 1);
    }
  }

  lemma {:induction false} BitsOfNumber(bits: seq<bool>)
    ensures BitsOf(Number(bits), |bits|) == bits
  {
    if bits != [] {
      BitsOfNumber(bits[1..]);
      assert bits == [bits[0]] + bits[1..];
    }
  }

  function ByteBits(b: Byte): (bits: seq<bool>)
    ensures |bits| == 8
  {
    BitsOf(b, 8)
  }

  function ToByte(bits: seq<bool>): (b: Byte)
    requires |bits| == 8
    ensures ByteBits(b) == bits
  {
    BitsOfNumber(bits);
    assert Pow2(8) == 256;
    Number(bits)
  }

  lemma ByteBitsInjective(a: Byte, b: Byte)
    requires ByteBits(a) == ByteBits(b)
    ensures a == b
  {
    assert Pow2(8) == 256;
    NumberOfBits(a, 8);
    NumberOfBits(b, 8);
  }

  /** The big-endian 16-bit number of two bytes. */
  function Word(hi: Byte, lo: Byte): (n: nat)
    ensures n < 0x1_0000
  {
    (hi as int) * 256 + (lo as int)
  }

  function WordBytes(n: nat): (bytes: seq<Byte>)
    requires n < 0x1_0000
    ensures |bytes| == 2 && Word(bytes[0], bytes[1]) == n
  {
    [n / 256, n % 256]
  }

  lemma WordBytesOfWord(hi: Byte, lo: Byte)
    ensures WordBytes(Word(hi, lo)) == [hi, lo]
  {
  }

  // ---------------------------------------------------------------- byte strings as bit strings

  /** The bits of a byte string in wire order. */
  function WireBits(data: seq<Byte>): (bits: seq<bool>)
    ensures |bits| == 8 * |data|
  {
    if data == [] then [] else ByteBits(data[0]) + WireBits(data[1..])
  }

  lemma {:induction false} WireBitsAppend(x: seq<Byte>, y: seq<Byte>)
    ensures WireBits(x + y) == WireBits(x) + WireBits(y)
  {
    if x == [] {
      assert x + y == y;
    } else {
      assert (x + y)[1..] == x[1..] + y;
      WireBitsAppend(x[1..], y);
    }
  }

  /** Different byte strings of one length differ in some wire bit. */
  lemma {:induction false} WireBitsInjective(x: seq<Byte>, y: seq<Byte>)
    requires |x| == |y| && WireBits(x) == WireBits(y)
    ensures x == y
  {
    if x != [] {
      assert ByteBits(x[0]) == WireBits(x)[..8] == WireBits(y)[..8] == ByteBits(y[0]);
      assert WireBits(x[1..]) == WireBits(x)[8..] == WireBits(y)[8..] == WireBits(y[1..]);
      ByteBitsInjective(x[0], y[0]);
      WireBitsInjective(x[1..], y[1..]);
      assert x == [x[0]] + x[1..] && y == [y[0]] + y[1..];
    }
  }

  // ---------------------------------------------------------------- integer bit operators

  /** Bit `i` of a non-negative integer; zero past its top. */
  function At(x: seq<bool>, i: int): bool
  {
    0 <= i < |x| && x[i]
  }

  function Zeros(k: nat): (z: seq<bool>)
    ensures |z| == k && forall i :: 0 <= i < k ==> !z[i]
  {
    seq(k, _ => false)
  }

  /** `x << k` */
  function Shl(x: seq<bool>, k: nat): seq<bool>
  {
    Zeros(k) + x
  }

  /** `x >> k` */
  function Shr(x: seq<bool>, k: nat): seq<bool>
  {
    if k <= |x| then x[k..] else []
  }

  /** `x & (2^k - 1)` */
  function Low(x: seq<bool>, k: nat): (z: seq<bool>)
    ensures |z| == k
  {
    seq(k, i => At(x, i))
  }

  /** `x ^ y` */
  function Xor(x: seq<bool>, y: seq<bool>): (z: seq<bool>)
    ensures |z| == if |x| < |y| then |y| else |x|
  {
    seq(if |x| < |y| then |y| else |x|, i => At(x, i) != At(y, i))
  }

  lemma AtShl(x: seq<bool>, k: nat, i: int)
    ensures At(Shl(x, k), i) == At(x, i - k)
  {
  }

  lemma AtShr(x: seq<bool>, k: nat, i: int)
    ensures At(Shr(x, k), i) == (0 <= i && At(x, i + k))
  {
  }

  lemma AtLow(x: seq<bool>, k: nat, i: int)
    ensures At(Low(x, k), i) == (i < k && At(x, i))
  {
  }

  lemma AtXor(x: seq<bool>, y: seq<bool>, i: int)
    ensures At(Xor(x, y), i) == (At(x, i) != At(y, i))
  {
  }

  lemma SameBits(x: seq<bool>, y: seq<bool>)
    requires |x| == |y|
    requires forall i :: 0 <= i < |x| ==> At(x, i) == At(y, i)
    ensures x == y
  {
    forall i | 0 <= i < |x| ensures x[i] == y[i] {
      assert At(x, i) == At(y, i);
    }
  }
}
