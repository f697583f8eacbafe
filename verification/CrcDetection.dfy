/** What the CRCs detect, for messages of any length. */
module CrcDetection {
  import opened Bits
  import opened Crc

  // ---------------------------------------------------------------- linearity

  lemma FeedXor(taps: seq<bool>, a: seq<bool>, b: seq<bool>, x: bool, y: bool)
    requires |a| == |b|
    ensures Feed(taps, Xor(a, b), x != y) == Xor(Feed(taps, a, x), Feed(taps, b, y))
  {
    hide Feed, Xor;
    var f, g, h := Feed(taps, a, x), Feed(taps, b, y), Feed(taps, Xor(a, b), x != y);
    forall i | 0 <= i < |h| ensures At(h, i) == At(Xor(f, g), i) {
      AtFeed(taps, a, x, i);
      AtFeed(taps, b, y, i);
      AtFeed(taps, Xor(a, b), x != y, i);
      AtXor(f, g, i);
      AtXor(a, b, i + 1);
      AtXor(a, b, 0);
    }
    SameBits(h, Xor(f, g));
  }

  /** Division is linear: the register over a sum is the sum of the registers. */
  lemma {:induction false} RunXor(taps: seq<bool>, a: seq<bool>, b: seq<bool>, x: seq<bool>, y: seq<bool>)
    requires |a| == |b| && |x| == |y|
    ensures Run(taps, Xor(a, b), Xor(x, y)) == Xor(Run(taps, a, x), Run(taps, b, y))
    decreases |x|
  {
    if x == [] {
      assert Xor(x, y) == [];
    } else {
      XorHead(x, y);
      hide Feed, Xor;
      FeedXor(taps, a, b, x[0], y[0]);
      RunXor(taps, Feed(taps, a, x[0]), Feed(taps, b, y[0]), x[1..], y[1..]);
    }
  }

  lemma XorHead(x: seq<bool>, y: seq<bool>)
    requires |x| == |y| > 0
    ensures Xor(x, y)[0] == (x[0] != y[0])
    ensures Xor(x, y)[1..] == Xor(x[1..], y[1..])
  {
    assert At(x, 0) == x[0] && At(y, 0) == y[0];
    forall i | 0 <= i < |x| - 1 ensures Xor(x, y)[1..][i] == Xor(x[1..], y[1..])[i] {
      assert At(x, i + 1) == At(x[1..], i) && At(y, i + 1) == At(y[1..], i);
    }
  }

  lemma XorSelf(x: seq<bool>)
    ensures Xor(x, x) == Zeros(|x|)
  {
  }

  lemma XorZero(x: seq<bool>, y: seq<bool>)
    requires |x| == |y|
    ensures Xor(x, y) == Zeros(|x|) <==> x == y
  {
    if Xor(x, y) == Zeros(|x|) {
      forall i | 0 <= i < |x| ensures x[i] == y[i] {
        assert Xor(x, y)[i] == (At(x, i) != At(y, i));
      }
    }
  }

  // ---------------------------------------------------------------- running backwards

  /** A step lands on a register with a clear top bit only from one place. */
  lemma FeedBack(taps: seq<bool>, reg: seq<bool>, bit: bool, w: seq<bool>)
    requires |taps| == |reg| == |w| > 0 && taps[|taps| - 1] && !w[|w| - 1]
    ensures Feed(taps, reg, bit) == w <==> reg == [bit] + w[..|w| - 1]
  {
    var k := |w|;
    if Feed(taps, reg, bit) == w {
      assert w[k - 1] == (At(reg, k) != (((At(reg, 0) != bit) && At(taps, k - 1))));
      forall i | 0 <= i < k ensures reg[i] == ([bit] + w[..k - 1])[i] {
        if i > 0 {
          assert w[i - 1] == At(reg, i);
        }
      }
    }
    if reg == [bit] + w[..k - 1] {
      forall i | 0 <= i < k ensures Feed(taps, reg, bit)[i] == w[i] {
        assert At(reg, i + 1) == (i + 1 < k && w[i]);
      }
    }
  }

  /** No more bits than the register is wide: dividing them leaves nothing exactly when the register held them. */
  lemma {:induction false} Cancels(taps: seq<bool>, reg: seq<bool>, bits: seq<bool>)
    requires |taps| == |reg| > 0 && taps[|taps| - 1] && |bits| <= |reg|
    ensures Run(taps, reg, bits) == Zeros(|reg|) <==> reg == bits + Zeros(|reg| - |bits|)
    decreases |bits|
  {
    var k := |reg|;
    if bits == [] {
      assert bits + Zeros(k) == Zeros(k);
    } else {
      var rest := bits[1..];
      var w := rest + Zeros(k - |rest|);
      Cancels(taps, Feed(taps, reg, bits[0]), rest);
      FeedBack(taps, reg, bits[0], w);
      assert [bits[0]] + w[..k - 1] == bits + Zeros(k - |bits|);
    }
  }

  lemma {:induction false} ZeroTail(taps: seq<bool>, reg: seq<bool>, n: nat)
    requires |taps| == |reg| > 0 && taps[|taps| - 1]
    ensures Run(taps, reg, Zeros(n)) == Zeros(|reg|) <==> reg == Zeros(|reg|)
    decreases n
  {
    if n > 0 {
      var k := |reg|;
      assert Zeros(n)[1..] == Zeros(n - 1);
      ZeroTail(taps, Feed(taps, reg, false), n - 1);
      FeedBack(taps, reg, false, Zeros(k));
      assert [false] + Zeros(k)[..k - 1] == Zeros(k);
    }
  }

  // ---------------------------------------------------------------- error patterns

  /** Every set bit of `e` lies in the `k` places from `s`, and there is one. */
  ghost predicate Burst(e: seq<bool>, s: nat, k: nat)
  {
    && (exists i :: 0 <= i < |e| && e[i])
    && forall i :: 0 <= i < |e| && e[i] ==> s <= i < s + k
  }

  /** A burst no longer than the register is never a multiple of the generator. */
  lemma BurstLeavesRemainder(taps: seq<bool>, e: seq<bool>, s: nat)
    requires |taps| > 0 && taps[|taps| - 1] && Burst(e, s, |taps|)
    ensures Run(taps, Zeros(|taps|), e) != Zeros(|taps|)
  {
    hide Run;
    var k := |taps|;
    var burst, tail := SplitBurst(e, s, k);
    RunAppend(taps, Zeros(k), Zeros(s), burst + Zeros(tail));
    ZeroTail(taps, Zeros(k), s);
    RunAppend(taps, Zeros(k), burst, Zeros(tail));
    ZeroTail(taps, Run(taps, Zeros(k), burst), tail);
    Cancels(taps, Zeros(k), burst);
  }

  lemma SplitBurst(e: seq<bool>, s: nat, k: nat) returns (burst: seq<bool>, tail: nat)
    requires Burst(e, s, k)
    ensures |burst| <= k && burst + Zeros(k - |burst|) != Zeros(k)
    ensures e == Zeros(s) + (burst + Zeros(tail))
  {
    var i :| 0 <= i < |e| && e[i];
    var t := if s + k < |e| then s + k else |e|;
    burst, tail := e[s..t], |e| - t;
    assert e[..s] == Zeros(s);
    assert e[t..] == Zeros(tail);
    assert burst[i - s];
    assert (burst + Zeros(k - |burst|))[i - s] && !Zeros(k)[i - s];
    Rejoin(e, s, t);
  }

  lemma Rejoin(e: seq<bool>, s: nat, t: nat)
    requires s <= t <= |e|
    ensures e == e[..s] + (e[s..t] + e[t..])
  {
  }

  /** Whether an odd number of bits is set. */
  function Odd(x: seq<bool>): bool
  {
    if x == [] then false else x[0] != Odd(x[1..])
  }

  lemma {:induction false} OddXor(x: seq<bool>, y: seq<bool>)
    requires |x| == |y|
    ensures Odd(Xor(x, y)) == (Odd(x) != Odd(y))
    decreases |x|
  {
    if x != [] {
      XorHead(x, y);
      OddXor(x[1..], y[1..]);
    }
  }

  lemma {:induction false} OddAppend(x: seq<bool>, y: seq<bool>)
    ensures Odd(x + y) == (Odd(x) != Odd(y))
    decreases |x|
  {
    if x == [] {
      assert x + y == y;
    } else {
      assert (x + y)[1..] == x[1..] + y;
      OddAppend(x[1..], y);
    }
  }

  lemma {:induction false} OddZeros(n: nat)
    ensures !Odd(Zeros(n))
  {
    if n > 0 {
      assert Zeros(n)[1..] == Zeros(n - 1);
      OddZeros(n - 1);
    }
  }

  /** Taps of odd weight make the generator divisible by x + 1: each step adds the input bit to the parity. */
  lemma OddFeed(taps: seq<bool>, reg: seq<bool>, bit: bool)
    requires |taps| == |reg| > 0 && Odd(taps)
    ensures Odd(Feed(taps, reg, bit)) == (Odd(reg) != bit)
  {
    var subtract := reg[0] != bit;
    var shifted := reg[1..] + [false];
    var removed := if subtract then taps else Zeros(|taps|);
    OddAppend(reg[1..], [false]);
    OddZeros(|taps|);
    OddXor(shifted, removed);
    forall i | 0 <= i < |reg| ensures Feed(taps, reg, bit)[i] == Xor(shifted, removed)[i] {
      assert At(shifted, i) == At(reg, i + 1);
      assert At(removed, i) == (subtract && At(taps, i));
    }
    assert Feed(taps, reg, bit) == Xor(shifted, removed);
  }

  lemma {:induction false} OddRun(taps: seq<bool>, reg: seq<bool>, e: seq<bool>)
    requires |taps| == |reg| > 0 && Odd(taps)
    ensures Odd(Run(taps, reg, e)) == (Odd(reg) != Odd(e))
    decreases |e|
  {
    hide Feed;
    if e != [] {
      OddFeed(taps, reg, e[0]);
      OddRun(taps, Feed(taps, reg, e[0]), e[1..]);
    }
  }

  lemma OddLeavesRemainder(taps: seq<bool>, e: seq<bool>)
    requires |taps| > 0 && Odd(taps) && Odd(e)
    ensures Run(taps, Zeros(|taps|), e) != Zeros(|taps|)
  {
    OddRun(taps, Zeros(|taps|), e);
    OddZeros(|taps|);
  }

  lemma DataTapsOdd()
    ensures Odd(DataTaps())
  {
    var t := DataTaps();
    assert t == Zeros(3) + ([true] + (Zeros(6) + ([true] + (Zeros(4) + [true]))));
    OddAppend(Zeros(3), [true] + (Zeros(6) + ([true] + (Zeros(4) + [true]))));
    OddAppend([true], Zeros(6) + ([true] + (Zeros(4) + [true])));
    OddAppend(Zeros(6), [true] + (Zeros(4) + [true]));
    OddAppend([true], Zeros(4) + [true]);
    OddAppend(Zeros(4), [true]);
    OddZeros(3);
    OddZeros(6);
    OddZeros(4);
    assert Odd([true]);
  }

  // ---------------------------------------------------------------- accepting a message

  /** The remainder a message leaves once its complemented register is appended to it. */
  function Residue(taps: seq<bool>): seq<bool>
  {
    Run(taps, Zeros(|taps|), Ones(|taps|))
  }

  lemma NotIsXor(x: seq<bool>)
    ensures Xor(x, Ones(|x|)) == Not(x)
  {
    forall i | 0 <= i < |x| ensures Xor(x, Ones(|x|))[i] == Not(x)[i] {
      assert At(x, i) == x[i] && At(Ones(|x|), i);
    }
  }

  /** Comparing the received CRC with the computed one is the same as running on and looking for the residue. */
  lemma AcceptIsResidue(taps: seq<bool>, reg: seq<bool>, received: seq<bool>)
    requires |taps| == |reg| == |received| > 0 && taps[|taps| - 1]
    ensures received == Not(reg) <==> Run(taps, reg, received) == Residue(taps)
  {
    var k := |taps|;
    XorZero(Run(taps, reg, received), Residue(taps));
    RunXor(taps, reg, Zeros(k), received, Ones(k));
    assert Xor(reg, Zeros(k)) == reg by { SameBits(Xor(reg, Zeros(k)), reg); }
    NotIsXor(received);
    Cancels(taps, reg, Not(received));
    assert Not(received) + Zeros(0) == Not(received);
    if received == Not(reg) {
      assert Not(received) == reg;
    }
    if reg == Not(received) {
      assert received == Not(reg);
    }
  }

  /** Two messages of one length leave the same register exactly when they differ by a multiple of the generator. */
  lemma SameRegisterIff(taps: seq<bool>, reg: seq<bool>, x: seq<bool>, y: seq<bool>)
    requires |x| == |y| && |reg| == |taps|
    ensures Run(taps, reg, x) == Run(taps, reg, y) <==> Run(taps, Zeros(|taps|), Xor(x, y)) == Zeros(|taps|)
  {
    RunXor(taps, reg, reg, x, y);
    XorSelf(reg);
    XorZero(Run(taps, reg, x), Run(taps, reg, y));
  }

  // ---------------------------------------------------------------- the residues of the standard

  lemma OneMore(taps: seq<bool>, r: seq<bool>, k: nat)
    ensures Run(taps, r, Ones(k + 1)) == Run(taps, Feed(taps, r, true), Ones(k))
  {
    assert Ones(k + 1)[1..] == Ones(k);
  }

  lemma NoMore(taps: seq<bool>, r: seq<bool>)
    ensures Run(taps, r, Ones(0)) == r
  {
  }

  lemma HeaderFeedAt(r: seq<bool>, i: nat)
    requires |r| == 8 && i < 8
    ensures Feed(HeaderTaps(), r, true)[i] == ((i < 7 && r[i + 1]) != (!r[0] && (i == 0 || i == 7)))
  {
    AtFeed(HeaderTaps(), r, true, i);
    assert At(HeaderTaps(), i) == (i == 0 || i == 7);
  }

  lemma DataFeedAt(r: seq<bool>, i: nat)
    requires |r| == 16 && i < 16
    ensures Feed(DataTaps(), r, true)[i] == ((i < 15 && r[i + 1]) != (!r[0] && (i == 3 || i == 10 || i == 15)))
  {
    AtFeed(DataTaps(), r, true, i);
    assert At(DataTaps(), i) == (i == 3 || i == 10 || i == 15);
  }

  lemma HeaderOne(r: seq<bool>, n: seq<bool>, k: nat)
    requires |r| == |n| == 8
    requires n[0] == (r[1] == r[0]) && n[1] == r[2] && n[2] == r[3] && n[3] == r[4] &&
             n[4] == r[5] && n[5] == r[6] && n[6] == r[7] && n[7] == !r[0]
    ensures Run(HeaderTaps(), r, Ones(k + 1)) == Run(HeaderTaps(), n, Ones(k))
  {
    hide Feed, Run, Ones, HeaderTaps;
    OneMore(HeaderTaps(), r, k);
    forall i | 0 <= i < 8 ensures Feed(HeaderTaps(), r, true)[i] == n[i] { HeaderFeedAt(r, i); }
    assert Feed(HeaderTaps(), r, true) == n;
  }

  lemma DataLow(r: seq<bool>, n: seq<bool>)
    requires |r| == |n| == 16
    requires n[0] == r[1] && n[1] == r[2] && n[2] == r[3] && n[3] == (r[4] == r[0]) &&
             n[4] == r[5] && n[5] == r[6] && n[6] == r[7] && n[7] == r[8]
    ensures forall i :: 0 <= i < 8 ==> Feed(DataTaps(), r, true)[i] == n[i]
  {
    hide Feed, DataTaps;
    forall i | 0 <= i < 8 ensures Feed(DataTaps(), r, true)[i] == n[i] { DataFeedAt(r, i); }
  }

  lemma DataHigh(r: seq<bool>, n: seq<bool>)
    requires |r| == |n| == 16
    requires n[8] == r[9] && n[9] == r[10] && n[10] == (r[11] == r[0]) && n[11] == r[12] &&
             n[12] == r[13] && n[13] == r[14] && n[14] == r[15] && n[15] == !r[0]
    ensures forall i :: 8 <= i < 16 ==> Feed(DataTaps(), r, true)[i] == n[i]
  {
    hide Feed, DataTaps;
    forall i | 8 <= i < 16 ensures Feed(DataTaps(), r, true)[i] == n[i] { DataFeedAt(r, i); }
  }

  lemma DataOne(r: seq<bool>, n: seq<bool>, k: nat)
    requires |r| == |n| == 16
    requires n[0] == r[1] && n[1] == r[2] && n[2] == r[3] && n[3] == (r[4] == r[0]) &&
             n[4] == r[5] && n[5] == r[6] && n[6] == r[7] && n[7] == r[8]
    requires n[8] == r[9] && n[9] == r[10] && n[10] == (r[11] == r[0]) && n[11] == r[12] &&
             n[12] == r[13] && n[13] == r[14] && n[14] == r[15] && n[15] == !r[0]
    ensures Run(DataTaps(), r, Ones(k + 1)) == Run(DataTaps(), n, Ones(k))
  {
    hide Feed, Run, Ones, DataTaps;
    OneMore(DataTaps(), r, k);
    DataLow(r, n);
    DataHigh(r, n);
    assert Feed(DataTaps(), r, true) == n;
  }

  /** The header register ends on 0x55 for every header that is followed by its own CRC. */
  lemma HeaderResidue()
    ensures Residue(HeaderTaps()) == ByteBits(0x55)
  {
    Bits55();
    hide Run, HeaderTaps, Ones, ByteBits;
    var o, i := false, true;
    HeaderOne([o, o, o, o, o, o, o, o], [i, o, o, o, o, o, o, i], 7);
    HeaderOne([i, o, o, o, o, o, o, i], [o, o, o, o, o, o, i, o], 6);
    HeaderOne([o, o, o, o, o, o, i, o], [i, o, o, o, o, i, o, i], 5);
    HeaderOne([i, o, o, o, o, i, o, i], [o, o, o, o, i, o, i, o], 4);
    HeaderOne([o, o, o, o, i, o, i, o], [i, o, o, i, o, i, o, i], 3);
    HeaderOne([i, o, o, i, o, i, o, i], [o, o, i, o, i, o, i, o], 2);
    HeaderOne([o, o, i, o, i, o, i, o], [i, i, o, i, o, i, o, i], 1);
    HeaderOne([i, i, o, i, o, i, o, i], [i, o, i, o, i, o, i, o], 0);
    NoMore(HeaderTaps(), [i, o, i, o, i, o, i, o]);
    assert Zeros(8) == [o, o, o, o, o, o, o, o];
  }

  lemma Bits55()
    ensures ByteBits(0x55) == [true, false, true, false, true, false, true, false]
  {
  }

  lemma DataFirstByte(mid: seq<bool>)
    requires mid == [false, false, false, true, true, true, true, false] +
                    [true, true, true, true, false, false, false, false]
    ensures Run(DataTaps(), Zeros(16), Ones(16)) == Run(DataTaps(), mid, Ones(8))
  {
    hide Run, DataTaps, Ones;
    var o, i := false, true;
    DataOne([o, o, o, o, o, o, o, o, o, o, o, o, o, o, o, o], [o, o, o, i, o, o, o, o, o, o, i, o, o, o, o, i], 15);
    DataOne([o, o, o, i, o, o, o, o, o, o, i, o, o, o, o, i], [o, o, i, i, o, o, o, o, o, i, i, o, o, o, i, i], 14);
    DataOne([o, o, i, i, o, o, o, o, o, i, i, o, o, o, i, i], [o, i, i, i, o, o, o, o, i, i, i, o, o, i, i, i], 13);
    DataOne([o, i, i, i, o, o, o, o, i, i, i, o, o, i, i, i], [i, i, i, i, o, o, o, i, i, i, i, o, i, i, i, i], 12);
    DataOne([i, i, i, i, o, o, o, i, i, i, i, o, i, i, i, i], [i, i, i, o, o, o, i, i, i, i, o, i, i, i, i, o], 11);
    DataOne([i, i, i, o, o, o, i, i, i, i, o, i, i, i, i, o], [i, i, o, o, o, i, i, i, i, o, i, i, i, i, o, o], 10);
    DataOne([i, i, o, o, o, i, i, i, i, o, i, i, i, i, o, o], [i, o, o, o, i, i, i, i, o, i, i, i, i, o, o, o], 9);
    DataOne([i, o, o, o, i, i, i, i, o, i, i, i, i, o, o, o], [o, o, o, i, i, i, i, o, i, i, i, i, o, o, o, o], 8);
    assert Zeros(16) == [o, o, o, o, o, o, o, o, o, o, o, o, o, o, o, o];
    assert mid == [o, o, o, i, i, i, i, o, i, i, i, i, o, o, o, o];
  }

  lemma DataSecondByte(mid: seq<bool>)
    requires mid == [false, false, false, true, true, true, true, false] +
                    [true, true, true, true, false, false, false, false]
    ensures Run(DataTaps(), mid, Ones(8)) == [false, false, false, true, true, true, false, true] +
                                             [false, false, false, false, true, true, true, true]
  {
    hide Run, DataTaps, Ones;
    var o, i := false, true;
    DataOne([o, o, o, i, i, i, i, o, i, i, i, i, o, o, o, o], [o, o, i, o, i, i, o, i, i, i, o, o, o, o, o, i], 7);
    DataOne([o, o, i, o, i, i, o, i, i, i, o, o, o, o, o, i], [o, i, o, o, i, o, i, i, i, o, i, o, o, o, i, i], 6);
    DataOne([o, i, o, o, i, o, i, i, i, o, i, o, o, o, i, i], [i, o, o, o, o, i, i, i, o, i, i, o, o, i, i, i], 5);
    DataOne([i, o, o, o, o, i, i, i, o, i, i, o, o, i, i, i], [o, o, o, o, i, i, i, o, i, i, o, o, i, i, i, o], 4);
    DataOne([o, o, o, o, i, i, i, o, i, i, o, o, i, i, i, o], [o, o, o, o, i, i, o, i, i, o, i, i, i, i, o, i], 3);
    DataOne([o, o, o, o, i, i, o, i, i, o, i, i, i, i, o, i], [o, o, o, o, i, o, i, i, o, i, o, i, i, o, i, i], 2);
    DataOne([o, o, o, o, i, o, i, i, o, i, o, i, i, o, i, i], [o, o, o, o, o, i, i, o, i, o, o, i, o, i, i, i], 1);
    DataOne([o, o, o, o, o, i, i, o, i, o, o, i, o, i, i, i], [o, o, o, i, i, i, o, i, o, o, o, o, i, i, i, i], 0);
    NoMore(DataTaps(), [o, o, o, i, i, i, o, i, o, o, o, o, i, i, i, i]);
    assert mid == [o, o, o, i, i, i, i, o, i, i, i, i, o, o, o, o];
  }

  /** The data register ends on 0xF0B8, low byte first, for every payload that is followed by its own CRC. */
  lemma DataResidue()
    ensures Residue(DataTaps()) == WireBits([0xB8, 0xF0])
  {
    hide Run, DataTaps, Ones, WireBits;
    var mid := [false, false, false, true, true, true, true, false] +
               [true, true, true, true, false, false, false, false];
    BitsF0B8();
    DataFirstByte(mid);
    DataSecondByte(mid);
  }

  lemma BitsF0B8()
    ensures WireBits([0xB8, 0xF0]) ==
      [false, false, false, true, true, true, false, true] +
      [false, false, false, false, true, true, true, true]
  {
    BitsF0();
    BitsB8();
    hide ByteBits;
    assert [0xB8, 0xF0][1..] == [0xF0] && WireBits([0xF0]) == ByteBits(0xF0) + WireBits([]);
  }

  lemma BitsF0()
    ensures ByteBits(0xF0) == [false, false, false, false, true, true, true, true]
  {
  }

  lemma BitsB8()
    ensures ByteBits(0xB8) == [false, false, false, true, true, true, false, true]
  {
  }

  // ---------------------------------------------------------------- the CRC as a map

  lemma XorThrice(a: seq<bool>)
    ensures Xor(Xor(a, a), a) == a
  {
    forall i | 0 <= i < |a| ensures Xor(Xor(a, a), a)[i] == a[i] { AtXor(a, a, i); }
  }

  lemma NotThree(a: seq<bool>, b: seq<bool>, c: seq<bool>)
    requires |a| == |b| == |c|
    ensures Not(Xor(Xor(a, b), c)) == Xor(Xor(Not(a), Not(b)), Not(c))
  {
    var l, r := Not(Xor(Xor(a, b), c)), Xor(Xor(Not(a), Not(b)), Not(c));
    forall i | 0 <= i < |a| ensures l[i] == r[i] {
      assert At(a, i) == a[i] && At(b, i) == b[i] && At(c, i) == c[i];
      assert At(Not(a), i) == !a[i] && At(Not(b), i) == !b[i] && At(Not(c), i) == !c[i];
      AtXor(a, b, i);
      AtXor(Not(a), Not(b), i);
    }
  }

  lemma RunThree(taps: seq<bool>, reg: seq<bool>, x: seq<bool>, y: seq<bool>, z: seq<bool>)
    requires |x| == |y| == |z|
    ensures Run(taps, reg, Xor(Xor(x, y), z)) == Xor(Xor(Run(taps, reg, x), Run(taps, reg, y)), Run(taps, reg, z))
  {
    hide Run, Xor;
    RunXor(taps, reg, reg, x, y);
    RunXor(taps, Xor(reg, reg), reg, Xor(x, y), z);
    XorThrice(reg);
  }

  /** The complemented CRC is affine in the data: the CRC of a sum of three messages is the sum of their CRCs. */
  lemma CrcIsAffine(taps: seq<bool>, reg: seq<bool>, x: seq<bool>, y: seq<bool>, z: seq<bool>)
    requires |x| == |y| == |z|
    ensures Not(Run(taps, reg, Xor(Xor(x, y), z))) == Xor(Xor(Not(Run(taps, reg, x)), Not(Run(taps, reg, y))), Not(Run(taps, reg, z)))
  {
    hide *;
    RunThree(taps, reg, x, y, z);
    NotThree(Run(taps, reg, x), Run(taps, reg, y), Run(taps, reg, z));
  }
}
