/** The shift register behind the 16-bit frame check sequence, as words under exclusive or.
    Words are kept in a datatype so that proofs use the algebra below and not single bits. */
module ShiftRegister {
  datatype Word = Word(v: bv16)

  const POLY := Word(0x8408)

  function Xor(a: Word, b: Word): Word {
    Word(a.v ^ b.v)
  }

  function Half(a: Word): Word {
    Word(a.v >> 1)
  }

  predicate Odd(a: Word) {
    a.v & 1 == 1
  }

  /** One clock: the low bit meets the data bit, the register moves down. */
  function ShiftBit(crc: Word, bit: bool): Word {
    if Odd(crc) != bit then Xor(Half(crc), POLY) else Half(crc)
  }

  function ShiftBits(crc: Word, bits: seq<bool>): Word
    decreases |bits|
  {
    if bits == [] then crc else ShiftBits(ShiftBit(crc, bits[0]), bits[1..])
  }

  /** n clocks with no data. */
  function Clocks(n: nat, crc: Word): Word {
    if n == 0 then crc else Clocks(n - 1, ShiftBit(crc, false))
  }

  function HalfTimes(n: nat, a: Word): Word {
    if n == 0 then a else HalfTimes(n - 1, Half(a))
  }

  // ----- the algebra -----

  lemma XorSwaps(a: Word, b: Word)
    ensures Xor(a, b) == Xor(b, a)
  {
  }

  lemma XorAssociates(a: Word, b: Word, c: Word)
    ensures Xor(a, Xor(b, c)) == Xor(Xor(a, b), c)
  {
  }

  lemma XorRegroups(a: Word, b: Word, c: Word, d: Word)
    ensures Xor(Xor(a, b), c) == Xor(Xor(a, c), b)
    ensures Xor(Xor(a, b), Xor(c, d)) == Xor(Xor(a, c), Xor(b, d))
  {
    hide Xor;
    XorAssociates(a, b, c);
    XorSwaps(b, c);
    XorAssociates(a, c, b);
    XorAssociates(Xor(a, b), c, d);
    XorAssociates(Xor(a, c), b, d);
  }

  lemma HalfIsLinear(a: Word, b: Word)
    ensures Half(Xor(a, b)) == Xor(Half(a), Half(b))
    ensures Odd(Xor(a, b)) == (Odd(a) != Odd(b))
  {
  }

  /** Clocking is linear in register and data together. */
  lemma ShiftBitIsLinear(a: Word, b: Word, p: bool, q: bool)
    ensures ShiftBit(Xor(a, b), p != q) == Xor(ShiftBit(a, p), ShiftBit(b, q))
  {
    hide Xor, Half, Odd;
    HalfIsLinear(a, b);
    XorRegroups(Half(a), POLY, Half(b), POLY);
    XorAssociates(Half(a), Half(b), POLY);
    TwicePoly(Half(a), Half(b));
  }

  lemma TwicePoly(a: Word, b: Word)
    ensures Xor(Xor(a, POLY), Xor(b, POLY)) == Xor(a, b)
  {
  }

  lemma {:induction false} ClocksAreLinear(n: nat, a: Word, b: Word)
    ensures Clocks(n, Xor(a, b)) == Xor(Clocks(n, a), Clocks(n, b))
    decreases n
  {
    hide Xor, ShiftBit;
    if n > 0 {
      ShiftBitIsLinear(a, b, false, false);
      ClocksAreLinear(n - 1, ShiftBit(a, false), ShiftBit(b, false));
    }
  }

  lemma {:induction false} ShiftBitsAppend(crc: Word, a: seq<bool>, b: seq<bool>)
    ensures ShiftBits(crc, a + b) == ShiftBits(ShiftBits(crc, a), b)
    decreases |a|
  {
    hide ShiftBit;
    if a == [] {
      assert a + b == b;
    } else {
      assert (a + b)[1..] == a[1..] + b;
      ShiftBitsAppend(ShiftBit(crc, a[0]), a[1..], b);
    }
  }

  // ----- data bits may be added to the register before it is clocked -----

  /** bits are the low bits of c, least significant first, and rest is what is left of c. */
  predicate AreLowBits(bits: seq<bool>, c: Word, rest: Word)
    decreases |bits|
  {
    if bits == [] then c == rest
    else bits[0] == Odd(c) && AreLowBits(bits[1..], Half(c), rest)
  }

  lemma OddDataOnly(c: Word)
    ensures ShiftBit(c, Odd(c)) == Half(c)
  {
  }

  lemma {:induction false} DataMayBeAddedFirst(x: Word, c: Word, bits: seq<bool>, rest: Word)
    requires AreLowBits(bits, c, rest)
    ensures Xor(ShiftBits(x, bits), rest) == Clocks(|bits|, Xor(x, c))
    decreases |bits|
  {
    hide Xor, ShiftBit, Half, Odd;
    if bits != [] {
      ShiftBitIsLinear(x, c, bits[0], bits[0]);
      OddDataOnly(c);
      DataMayBeAddedFirst(ShiftBit(x, bits[0]), Half(c), bits[1..], rest);
    }
  }

  // ----- bits that are clear are not fed back -----

  predicate LowClear(n: nat, h: Word) {
    n == 0 || (!Odd(h) && LowClear(n - 1, Half(h)))
  }

  lemma {:induction false} ClearBitsOnlyMoveDown(n: nat, h: Word)
    requires LowClear(n, h)
    ensures Clocks(n, h) == HalfTimes(n, h)
    decreases n
  {
    if n > 0 {
      ClearBitsOnlyMoveDown(n - 1, Half(h));
    }
  }

  // ----- a difference between two registers -----

  const TOP := Word(0x8000)

  predicate Geq(a: Word, b: Word) {
    a.v >= b.v
  }

  lemma GeqHalf(a: Word, b: Word)
    requires Geq(a, b)
    ensures Geq(Half(a), Half(b))
  {
  }

  lemma FedBackIsTop(d: Word)
    ensures Geq(Xor(Half(d), POLY), TOP)
  {
  }

  lemma DifferenceIsZero(a: Word, b: Word)
    ensures Xor(a, b) == Word(0) <==> a == b
  {
  }

  lemma GeqTrans(a: Word, b: Word, c: Word)
    requires Geq(a, b) && Geq(b, c)
    ensures Geq(a, c)
  {
  }

  lemma HalfBelow(a: Word)
    ensures Geq(a, Half(a))
  {
  }

  /** 2^(15-k): a difference at least this large cannot die out in k more clocks. */
  function Alive(k: nat): Word {
    if k == 0 then TOP else Half(Alive(k - 1))
  }

  lemma {:induction false} AliveBelowTop(k: nat)
    ensures Geq(TOP, Alive(k))
  {
    hide Geq, Half;
    if k > 0 {
      AliveBelowTop(k - 1);
      HalfBelow(Alive(k - 1));
      GeqTrans(TOP, Alive(k - 1), Alive(k));
    } else {
      TopItself();
    }
  }

  lemma TopItself()
    ensures Geq(TOP, TOP)
  {
  }

  lemma DifferenceMovesDown(d: Word, e: bool, k: nat)
    requires Geq(d, Alive(k))
    ensures Geq(ShiftBit(d, e), Alive(k + 1))
  {
    hide Geq, Half, Xor, Odd;
    if Odd(d) != e {
      FedBackIsTop(d);
      AliveBelowTop(k + 1);
      GeqTrans(ShiftBit(d, e), TOP, Alive(k + 1));
    } else {
      GeqHalf(d, Alive(k));
    }
  }

  lemma {:induction false} BurstKeepsDifference(x: Word, y: Word, a: seq<bool>, b: seq<bool>, k: nat)
    requires |a| == |b|
    requires Geq(Xor(x, y), Alive(k))
    ensures Geq(Xor(ShiftBits(x, a), ShiftBits(y, b)), Alive(k + |a|))
    decreases |a|
  {
    hide Geq, Xor, ShiftBit, Alive;
    if a != [] {
      ShiftBitIsLinear(x, y, a[0], b[0]);
      DifferenceMovesDown(Xor(x, y), a[0] != b[0], k);
      BurstKeepsDifference(ShiftBit(x, a[0]), ShiftBit(y, b[0]), a[1..], b[1..], k + 1);
    }
  }

  lemma DifferingBitIsTop(x: Word, b: bool)
    ensures Geq(Xor(ShiftBit(x, b), ShiftBit(x, !b)), TOP)
  {
    ShiftBitIsLinear(x, x, b, !b);
    DifferenceIsZero(x, x);
    FedBackIsTop(Word(0));
    assert !Odd(Word(0));
    hide Geq, Half, Xor, Odd;
  }

  lemma SameBitKeepsDifference(x: Word, y: Word, b: bool)
    requires x != y
    ensures ShiftBit(x, b) != ShiftBit(y, b)
  {
    var d := Xor(x, y);
    DifferenceIsZero(x, y);
    NonzeroStays(d);
    ShiftBitIsLinear(x, y, b, b);
    DifferenceIsZero(ShiftBit(x, b), ShiftBit(y, b));
    hide Xor, ShiftBit;
  }

  lemma NonzeroStays(d: Word)
    requires d != Word(0)
    ensures ShiftBit(d, false) != Word(0)
  {
    FedBackIsTop(d);
    EvenNonzero(d);
    assert !Geq(Word(0), TOP);
    hide Geq, Half, Xor, Odd;
  }

  lemma EvenNonzero(d: Word)
    requires d != Word(0)
    ensures !Odd(d) ==> Half(d) != Word(0)
  {
  }

  lemma {:induction false} CommonTailKeepsDifference(x: Word, y: Word, tail: seq<bool>)
    requires x != y
    ensures ShiftBits(x, tail) != ShiftBits(y, tail)
    decreases |tail|
  {
    hide ShiftBit;
    if tail != [] {
      SameBitKeepsDifference(x, y, tail[0]);
      CommonTailKeepsDifference(ShiftBit(x, tail[0]), ShiftBit(y, tail[0]), tail[1..]);
    }
  }

  // ----- parity -----

  /** Whether an odd number of the low n bits is set. */
  predicate OddOnes(n: nat, a: Word) {
    n > 0 && Odd(a) != OddOnes(n - 1, Half(a))
  }

  predicate OddBits(bits: seq<bool>)
    decreases |bits|
  {
    bits != [] && bits[0] != OddBits(bits[1..])
  }

  lemma {:induction false} XorParity(n: nat, a: Word, b: Word)
    ensures OddOnes(n, Xor(a, b)) == (OddOnes(n, a) != OddOnes(n, b))
    decreases n
  {
    hide Xor, Half, Odd;
    if n > 0 {
      HalfIsLinear(a, b);
      XorParity(n - 1, Half(a), Half(b));
    }
  }

  lemma {:induction false} NothingAbove(n: nat, a: Word)
    requires HalfTimes(n, a) == Word(0)
    ensures OddOnes(n + 1, a) == OddOnes(n, a)
    decreases n
  {
    if n > 0 {
      hide Half, Odd;
      NothingAbove(n - 1, Half(a));
    } else {
      assert !Odd(Word(0));
    }
  }

  lemma FourHalves(n: nat, a: Word)
    ensures HalfTimes(n + 4, a) == HalfTimes(n, Word(a.v >> 4))
  {
    var b := Half(a);
    var c := Half(b);
    var d := Half(c);
    assert Half(d) == Word(a.v >> 4);
    hide Half;
    assert HalfTimes(n + 4, a) == HalfTimes(n + 3, b) == HalfTimes(n + 2, c);
    assert HalfTimes(n + 2, c) == HalfTimes(n + 1, d) == HalfTimes(n, Half(d));
  }

  lemma SixteenHalves(a: Word)
    ensures HalfTimes(16, a) == Word(0)
  {
    var b := Word(a.v >> 4);
    var c := Word(b.v >> 4);
    var d := Word(c.v >> 4);
    assert Word(d.v >> 4) == Word(0);
    FourHalves(12, a);
    FourHalves(8, b);
    FourHalves(4, c);
    FourHalves(0, d);
  }

  lemma FourBits(n: nat, a: Word)
    ensures OddOnes(n + 4, a) == (((Odd(a) != Odd(Half(a))) != (Odd(Half(Half(a))) != Odd(Half(Half(Half(a))))))
                                  != OddOnes(n, Half(Half(Half(Half(a))))))
  {
    hide Odd, Half;
    var b := Half(a);
    var c := Half(b);
    var d := Half(c);
    assert OddOnes(n + 4, a) == (Odd(a) != OddOnes(n + 3, b));
    assert OddOnes(n + 3, b) == (Odd(b) != OddOnes(n + 2, c));
    assert OddOnes(n + 2, c) == (Odd(c) != OddOnes(n + 1, d));
  }

  lemma PolyParity()
    ensures OddOnes(16, POLY)
  {
    assert !OddOnes(0, Word(0));
    hide OddOnes;
    FourBits(12, Word(0x8408));
    FourBits(8, Word(0x840));
    FourBits(4, Word(0x84));
    FourBits(0, Word(0x8));
  }

  /** x + 1 divides the polynomial: a clock changes the parity of the register by that of the data bit. */
  lemma ClockKeepsParity(crc: Word, bit: bool)
    ensures OddOnes(16, ShiftBit(crc, bit)) == (OddOnes(16, crc) != bit)
  {
    SixteenHalves(crc);
    NothingAbove(16, crc);
    XorParity(16, Half(crc), POLY);
    PolyParity();
    hide Xor, Half, Odd;
  }

  lemma {:induction false} RegisterParity(crc: Word, bits: seq<bool>)
    ensures OddOnes(16, ShiftBits(crc, bits)) == (OddOnes(16, crc) != OddBits(bits))
    decreases |bits|
  {
    if bits != [] {
      ClockKeepsParity(crc, bits[0]);
      hide ShiftBit, OddOnes;
      RegisterParity(ShiftBit(crc, bits[0]), bits[1..]);
    }
  }

  /** In how many places two bit strings differ. */
  function Differences(a: seq<bool>, b: seq<bool>): nat
    requires |a| == |b|
  {
    if a == [] then 0 else (if a[0] == b[0] then 0 else 1) + Differences(a[1..], b[1..])
  }

  lemma {:induction false} DifferencesParity(a: seq<bool>, b: seq<bool>)
    requires |a| == |b|
    ensures Differences(a, b) % 2 == (if OddBits(a) == OddBits(b) then 0 else 1)
    decreases |a|
  {
    if a != [] {
      DifferencesParity(a[1..], b[1..]);
    }
  }
}

/** The lookup table of lib/util/crc.c, and that each entry is eight clocks of the register. */
module FcsTable {
  import opened ShiftRegister

  /** Element l of a row of sixteen. */
  function Pick(l: nat, r0: bv16, r1: bv16, r2: bv16, r3: bv16, r4: bv16, r5: bv16, r6: bv16, r7: bv16,
                r8: bv16, r9: bv16, rA: bv16, rB: bv16, rC: bv16, rD: bv16, rE: bv16, rF: bv16): bv16
  {
    match l
    case 0 => r0 case 1 => r1 case 2 => r2 case 3 => r3
    case 4 => r4 case 5 => r5 case 6 => r6 case 7 => r7
    case 8 => r8 case 9 => r9 case 10 => rA case 11 => rB
    case 12 => rC case 13 => rD case 14 => rE case _ => rF
  }

  /** The entry in row h, column l. */
  function Entry(h: nat, l: nat): bv16 {
    match h
    case 0 => Pick(l, 0x0000, 0x1189, 0x2312, 0x329b, 0x4624, 0x57ad, 0x6536, 0x74bf,
                0x8c48, 0x9dc1, 0xaf5a, 0xbed3, 0xca6c, 0xdbe5, 0xe97e, 0xf8f7)
    case 1 => Pick(l, 0x1081, 0x0108, 0x3393, 0x221a, 0x56a5, 0x472c, 0x75b7, 0x643e,
                0x9cc9, 0x8d40, 0xbfdb, 0xae52, 0xdaed, 0xcb64, 0xf9ff, 0xe876)
    case 2 => Pick(l, 0x2102, 0x308b, 0x0210, 0x1399, 0x6726, 0x76af, 0x4434, 0x55bd,
                0xad4a, 0xbcc3, 0x8e58, 0x9fd1, 0xeb6e, 0xfae7, 0xc87c, 0xd9f5)
    case 3 => Pick(l, 0x3183, 0x200a, 0x1291, 0x0318, 0x77a7, 0x662e, 0x54b5, 0x453c,
                0xbdcb, 0xac42, 0x9ed9, 0x8f50, 0xfbef, 0xea66, 0xd8fd, 0xc974)
    case 4 => Pick(l, 0x4204, 0x538d, 0x6116, 0x709f, 0x0420, 0x15a9, 0x2732, 0x36bb,
                0xce4c, 0xdfc5, 0xed5e, 0xfcd7, 0x8868, 0x99e1, 0xab7a, 0xbaf3)
    case 5 => Pick(l, 0x5285, 0x430c, 0x7197, 0x601e, 0x14a1, 0x0528, 0x37b3, 0x263a,
                0xdecd, 0xcf44, 0xfddf, 0xec56, 0x98e9, 0x8960, 0xbbfb, 0xaa72)
    case 6 => Pick(l, 0x6306, 0x728f, 0x4014, 0x519d, 0x2522, 0x34ab, 0x0630, 0x17b9,
                0xef4e, 0xfec7, 0xcc5c, 0xddd5, 0xa96a, 0xb8e3, 0x8a78, 0x9bf1)
    case 7 => Pick(l, 0x7387, 0x620e, 0x5095, 0x411c, 0x35a3, 0x242a, 0x16b1, 0x0738,
                0xffcf, 0xee46, 0xdcdd, 0xcd54, 0xb9eb, 0xa862, 0x9af9, 0x8b70)
    case 8 => Pick(l, 0x8408, 0x9581, 0xa71a, 0xb693, 0xc22c, 0xd3a5, 0xe13e, 0xf0b7,
                0x0840, 0x19c9, 0x2b52, 0x3adb, 0x4e64, 0x5fed, 0x6d76, 0x7cff)
    case 9 => Pick(l, 0x9489, 0x8500, 0xb79b, 0xa612, 0xd2ad, 0xc324, 0xf1bf, 0xe036,
                0x18c1, 0x0948, 0x3bd3, 0x2a5a, 0x5ee5, 0x4f6c, 0x7df7, 0x6c7e)
    case 10 => Pick(l, 0xa50a, 0xb483, 0x8618, 0x9791, 0xe32e, 0xf2a7, 0xc03c, 0xd1b5,
                0x2942, 0x38cb, 0x0a50, 0x1bd9, 0x6f66, 0x7eef, 0x4c74, 0x5dfd)
    case 11 => Pick(l, 0xb58b, 0xa402, 0x9699, 0x8710, 0xf3af, 0xe226, 0xd0bd, 0xc134,
                0x39c3, 0x284a, 0x1ad1, 0x0b58, 0x7fe7, 0x6e6e, 0x5cf5, 0x4d7c)
    case 12 => Pick(l, 0xc60c, 0xd785, 0xe51e, 0xf497, 0x8028, 0x91a1, 0xa33a, 0xb2b3,
                0x4a44, 0x5bcd, 0x6956, 0x78df, 0x0c60, 0x1de9, 0x2f72, 0x3efb)
    case 13 => Pick(l, 0xd68d, 0xc704, 0xf59f, 0xe416, 0x90a9, 0x8120, 0xb3bb, 0xa232,
                0x5ac5, 0x4b4c, 0x79d7, 0x685e, 0x1ce1, 0x0d68, 0x3ff3, 0x2e7a)
    case 14 => Pick(l, 0xe70e, 0xf687, 0xc41c, 0xd595, 0xa12a, 0xb0a3, 0x8238, 0x93b1,
                0x6b46, 0x7acf, 0x4854, 0x59dd, 0x2d62, 0x3ceb, 0x0e70, 0x1ff9)
    case _ => Pick(l, 0xf78f, 0xe606, 0xd49d, 0xc514, 0xb1ab, 0xa022, 0x92b9, 0x8330,
                0x7bc7, 0x6a4e, 0x58d5, 0x495c, 0x3de3, 0x2c6a, 0x1ef1, 0x0f78)
  }

  /** Fcstab[16 * h + l]. */
  function TableWord(h: nat, l: nat): Word {
    Word(Entry(h, l))
  }

  function LowDigit(l: nat): Word
    requires l < 16
  {
    Word(l as bv16)
  }

  function HighDigit(h: nat): Word
    requires h < 16
  {
    Word(h as bv16 << 4)
  }

  lemma RowsAtTop(h: nat, l: nat)
    requires 0 <= h < 4 && l < 16
    ensures TableWord(h, l) == Xor(TableWord(h, 0), TableWord(0, l))
  {
    if h == 0 {
    } else if h == 1 {
    } else if h == 2 {
    } else {
    }
  }

  lemma UpperRows(h: nat, l: nat)
    requires 4 <= h < 8 && l < 16
    ensures TableWord(h, l) == Xor(TableWord(h, 0), TableWord(0, l))
  {
    if h == 4 {
    } else if h == 5 {
    } else if h == 6 {
    } else {
    }
  }

  lemma LowerRows(h: nat, l: nat)
    requires 8 <= h < 12 && l < 16
    ensures TableWord(h, l) == Xor(TableWord(h, 0), TableWord(0, l))
  {
    if h == 8 {
    } else if h == 9 {
    } else if h == 10 {
    } else {
    }
  }

  lemma RowsAtBottom(h: nat, l: nat)
    requires 12 <= h < 16 && l < 16
    ensures TableWord(h, l) == Xor(TableWord(h, 0), TableWord(0, l))
  {
    if h == 12 {
    } else if h == 13 {
    } else if h == 14 {
    } else {
    }
  }

  lemma RowIsSum(h: nat, l: nat)
    requires h < 16 && l < 16
    ensures TableWord(h, l) == Xor(TableWord(h, 0), TableWord(0, l))
  {
    hide TableWord, Xor;
    if h < 4 {
      RowsAtTop(h, l);
    } else if h < 8 {
      UpperRows(h, l);
    } else if h < 12 {
      LowerRows(h, l);
    } else {
      RowsAtBottom(h, l);
    }
  }

  /** Eight empty clocks, written out so that they can be evaluated. */
  function EightClocks(x: Word): Word {
    var y := ShiftBit(ShiftBit(ShiftBit(ShiftBit(x, false), false), false), false);
    ShiftBit(ShiftBit(ShiftBit(ShiftBit(y, false), false), false), false)
  }

  lemma EightClocksAreClocks(x: Word)
    ensures EightClocks(x) == Clocks(8, x)
  {
    hide ShiftBit;
    var y := ShiftBit(ShiftBit(ShiftBit(ShiftBit(x, false), false), false), false);
    FourClocks(x);
    FourClocks(y);
    ClocksAdd(4, 4, x);
  }

  lemma FourClocks(x: Word)
    ensures Clocks(4, x) == ShiftBit(ShiftBit(ShiftBit(ShiftBit(x, false), false), false), false)
  {
    hide ShiftBit;
    var y := ShiftBit(ShiftBit(x, false), false);
    assert Clocks(4, x) == Clocks(3, ShiftBit(x, false)) == Clocks(2, y);
    assert Clocks(2, y) == Clocks(1, ShiftBit(y, false)) == Clocks(0, ShiftBit(ShiftBit(y, false), false));
  }

  lemma {:induction false} ClocksAdd(m: nat, n: nat, x: Word)
    ensures Clocks(m + n, x) == Clocks(n, Clocks(m, x))
    decreases m
  {
    hide ShiftBit;
    if m > 0 {
      ClocksAdd(m - 1, n, ShiftBit(x, false));
    }
  }

  lemma FirstColumn(h: nat)
    requires h < 16
    ensures TableWord(h, 0) == EightClocks(HighDigit(h))
  {
    match h
    case 0 => assert Word(Entry(0, 0)) == EightClocks(Word(0x00));
    case 1 => assert Word(Entry(1, 0)) == EightClocks(Word(0x10));
    case 2 => assert Word(Entry(2, 0)) == EightClocks(Word(0x20));
    case 3 => assert Word(Entry(3, 0)) == EightClocks(Word(0x30));
    case 4 => assert Word(Entry(4, 0)) == EightClocks(Word(0x40));
    case 5 => assert Word(Entry(5, 0)) == EightClocks(Word(0x50));
    case 6 => assert Word(Entry(6, 0)) == EightClocks(Word(0x60));
    case 7 => assert Word(Entry(7, 0)) == EightClocks(Word(0x70));
    case 8 => assert Word(Entry(8, 0)) == EightClocks(Word(0x80));
    case 9 => assert Word(Entry(9, 0)) == EightClocks(Word(0x90));
    case 10 => assert Word(Entry(10, 0)) == EightClocks(Word(0xa0));
    case 11 => assert Word(Entry(11, 0)) == EightClocks(Word(0xb0));
    case 12 => assert Word(Entry(12, 0)) == EightClocks(Word(0xc0));
    case 13 => assert Word(Entry(13, 0)) == EightClocks(Word(0xd0));
    case 14 => assert Word(Entry(14, 0)) == EightClocks(Word(0xe0));
    case _ => assert Word(Entry(15, 0)) == EightClocks(Word(0xf0));
  }

  lemma FirstRow(l: nat)
    requires l < 16
    ensures TableWord(0, l) == EightClocks(LowDigit(l))
  {
    match l
    case 0 => assert Word(Entry(0, 0)) == EightClocks(Word(0));
    case 1 => assert Word(Entry(0, 1)) == EightClocks(Word(1));
    case 2 => assert Word(Entry(0, 2)) == EightClocks(Word(2));
    case 3 => assert Word(Entry(0, 3)) == EightClocks(Word(3));
    case 4 => assert Word(Entry(0, 4)) == EightClocks(Word(4));
    case 5 => assert Word(Entry(0, 5)) == EightClocks(Word(5));
    case 6 => assert Word(Entry(0, 6)) == EightClocks(Word(6));
    case 7 => assert Word(Entry(0, 7)) == EightClocks(Word(7));
    case 8 => assert Word(Entry(0, 8)) == EightClocks(Word(8));
    case 9 => assert Word(Entry(0, 9)) == EightClocks(Word(9));
    case 10 => assert Word(Entry(0, 10)) == EightClocks(Word(10));
    case 11 => assert Word(Entry(0, 11)) == EightClocks(Word(11));
    case 12 => assert Word(Entry(0, 12)) == EightClocks(Word(12));
    case 13 => assert Word(Entry(0, 13)) == EightClocks(Word(13));
    case 14 => assert Word(Entry(0, 14)) == EightClocks(Word(14));
    case _ => assert Word(Entry(0, 15)) == EightClocks(Word(15));
  }

  /** Every entry of the table is eight clocks of the register started from its index. */
  lemma TableEntry(h: nat, l: nat)
    requires h < 16 && l < 16
    ensures TableWord(h, l) == Clocks(8, Xor(HighDigit(h), LowDigit(l)))
  {
    hide EightClocks, TableWord, Xor, Clocks, HighDigit, LowDigit;
    RowIsSum(h, l);
    FirstColumn(h);
    FirstRow(l);
    EightClocksAreClocks(HighDigit(h));
    EightClocksAreClocks(LowDigit(l));
    ClocksAreLinear(8, HighDigit(h), LowDigit(l));
  }
}

/** The 16-bit frame check sequence of lib/util/crc.c (RFC 1662, Appendix C.2). */
module Crc {
  import opened ShiftRegister
  import opened FcsTable

  const FCS_START := Word(0xffff)
  const FCS_FINAL := Word(0xf0b8)

  function HighByte(crc: Word): Word {
    Word(crc.v >> 8)
  }

  function ByteWord(c: bv8): Word {
    Word(c as bv16)
  }

  /** The two hexadecimal digits of the low byte: row and column of the table. */
  function RowOf(x: Word): (h: nat)
    ensures h < 16
  {
    ((x.v & 0xff) >> 4) as nat
  }

  function ColumnOf(x: Word): (l: nat)
    ensures l < 16
  {
    ((x.v & 0xff) & 0xf) as nat
  }

  function UpperPart(x: Word): Word {
    Word(x.v & 0xff00)
  }

  /** The FCS macro: one byte through the table. */
  function FcsStep(fcs: Word, c: bv8): Word {
    var x := Xor(fcs, ByteWord(c));
    Xor(HighByte(fcs), TableWord(RowOf(x), ColumnOf(x)))
  }

  /** The running FCS after a run of bytes. */
  function Fcs(crc: Word, data: seq<bv8>): Word
    decreases |data|
  {
    if data == [] then crc else Fcs(FcsStep(crc, data[0]), data[1..])
  }

  /** The bits of a byte, least significant first, the order they are sent in. */
  function ByteBits(c: bv8): (bits: seq<bool>)
    ensures |bits| == 8
  {
    [c & 0x01 != 0, c & 0x02 != 0, c & 0x04 != 0, c & 0x08 != 0,
     c & 0x10 != 0, c & 0x20 != 0, c & 0x40 != 0, c & 0x80 != 0]
  }

  function BitsOf(data: seq<bv8>): (bits: seq<bool>)
    ensures |bits| == 8 * |data|
  {
    if data == [] then [] else ByteBits(data[0]) + BitsOf(data[1..])
  }

  // ----- the table step is eight clocks -----

  lemma NextLowBit(b: seq<bool>, k: nat, c: Word)
    requires k < |b|
    requires b[k] == Odd(c) && AreLowBits(b[k + 1..], Half(c), Word(0))
    ensures AreLowBits(b[k..], c, Word(0))
  {
    assert b[k..][1..] == b[k + 1..];
  }

  lemma ByteBit(c: bv8, d: Word, b: seq<bool>)
    requires d == ByteWord(c) && b == ByteBits(c)
    ensures b[0] == Odd(d) && b[1] == Odd(Half(d)) && b[2] == Odd(Half(Half(d)))
    ensures b[3] == Odd(Half(Half(Half(d)))) && b[4] == Odd(Half(Half(Half(Half(d)))))
    ensures b[5] == Odd(Half(Half(Half(Half(Half(d))))))
    ensures b[6] == Odd(Half(Half(Half(Half(Half(Half(d)))))))
    ensures b[7] == Odd(Half(Half(Half(Half(Half(Half(Half(d))))))))
    ensures Half(Half(Half(Half(Half(Half(Half(Half(d)))))))) == Word(0)
  {
  }

  lemma EightLowBits(b: seq<bool>, d: Word)
    requires |b| == 8
    requires b[0] == Odd(d) && b[1] == Odd(Half(d)) && b[2] == Odd(Half(Half(d)))
    requires b[3] == Odd(Half(Half(Half(d)))) && b[4] == Odd(Half(Half(Half(Half(d)))))
    requires b[5] == Odd(Half(Half(Half(Half(Half(d))))))
    requires b[6] == Odd(Half(Half(Half(Half(Half(Half(d)))))))
    requires b[7] == Odd(Half(Half(Half(Half(Half(Half(Half(d))))))))
    requires Half(Half(Half(Half(Half(Half(Half(Half(d)))))))) == Word(0)
    ensures AreLowBits(b, d, Word(0))
  {
    hide Half, Odd;
    assert AreLowBits(b[8..], Word(0), Word(0));
    hide AreLowBits;
    NextLowBit(b, 7, Half(Half(Half(Half(Half(Half(Half(d))))))));
    NextLowBit(b, 6, Half(Half(Half(Half(Half(Half(d)))))));
    NextLowBit(b, 5, Half(Half(Half(Half(Half(d))))));
    NextLowBit(b, 4, Half(Half(Half(Half(d)))));
    NextLowBit(b, 3, Half(Half(Half(d))));
    NextLowBit(b, 2, Half(Half(d)));
    NextLowBit(b, 1, Half(d));
    NextLowBit(b, 0, d);
    assert b[0..] == b;
  }

  lemma ByteBitsAreLowBits(c: bv8, d: Word, b: seq<bool>)
    requires d == ByteWord(c) && b == ByteBits(c)
    ensures AreLowBits(b, d, Word(0))
  {
    hide *;
    ByteBit(c, d, b);
    EightLowBits(b, d);
  }

  /** A word is two low hexadecimal digits and an upper part. */
  lemma Digits(x: Word)
    ensures x == Xor(Xor(HighDigit(RowOf(x)), LowDigit(ColumnOf(x))), UpperPart(x))
    ensures UpperPart(x).v & 0xff == 0
  {
  }

  /** Adding a byte leaves the upper part alone. */
  lemma UpperByte(crc: Word, c: bv8)
    ensures HighByte(UpperPart(Xor(crc, ByteWord(c)))) == HighByte(crc)
  {
  }

  lemma HighByteOnlyMovesDown(u: Word)
    requires u.v & 0xff == 0
    ensures Clocks(8, u) == HighByte(u)
  {
    HighByteIsClear(u);
    hide *;
    ClearBitsOnlyMoveDown(8, u);
  }

  lemma OneMoreClear(n: nat, h: Word, r: Word)
    requires !Odd(h) && LowClear(n, Half(h)) && HalfTimes(n, Half(h)) == r
    ensures LowClear(n + 1, h) && HalfTimes(n + 1, h) == r
  {
  }

  lemma HighByteIsClear(u: Word)
    requires u.v & 0xff == 0
    ensures LowClear(8, u)
    ensures HalfTimes(8, u) == HighByte(u)
  {
    var u1 := Half(u);
    var u2 := Half(u1);
    var u3 := Half(u2);
    var u4 := Half(u3);
    var u5 := Half(u4);
    var u6 := Half(u5);
    var u7 := Half(u6);
    var u8 := Half(u7);
    assert !Odd(u) && !Odd(u1) && !Odd(u2) && !Odd(u3) && !Odd(u4) && !Odd(u5) && !Odd(u6) && !Odd(u7);
    assert u8 == HighByte(u);
    assert LowClear(0, u8) && HalfTimes(0, u8) == u8;
    hide *;
    OneMoreClear(0, u7, u8);
    OneMoreClear(1, u6, u8);
    OneMoreClear(2, u5, u8);
    OneMoreClear(3, u4, u8);
    OneMoreClear(4, u3, u8);
    OneMoreClear(5, u2, u8);
    OneMoreClear(6, u1, u8);
    OneMoreClear(7, u, u8);
  }

  lemma XorZero(x: Word)
    ensures Xor(x, Word(0)) == x
  {
  }

  /** The table step is eight clocks of the shift register over the bits of the byte. */
  lemma TableStepIsShiftRegister(crc: Word, c: bv8)
    ensures FcsStep(crc, c) == ShiftBits(crc, ByteBits(c))
  {
    hide Xor, ByteWord, RowOf, ColumnOf, UpperPart, HighByte, TableWord, HighDigit, LowDigit,
         ShiftBits, ByteBits, Clocks, AreLowBits;
    var d, b := ByteWord(c), ByteBits(c);
    var x := Xor(crc, d);
    ByteBitsAreLowBits(c, d, b);
    DataMayBeAddedFirst(crc, d, b, Word(0));
    XorZero(ShiftBits(crc, b));
    Digits(x);
    UpperByte(crc, c);
    TableEntry(RowOf(x), ColumnOf(x));
    ClocksAreLinear(8, Xor(HighDigit(RowOf(x)), LowDigit(ColumnOf(x))), UpperPart(x));
    HighByteOnlyMovesDown(UpperPart(x));
    XorSwaps(TableWord(RowOf(x), ColumnOf(x)), HighByte(crc));
  }

  lemma {:induction false} FcsIsShiftRegister(crc: Word, data: seq<bv8>)
    ensures Fcs(crc, data) == ShiftBits(crc, BitsOf(data))
    decreases |data|
  {
    hide FcsStep, ShiftBit, ByteBits;
    if data != [] {
      TableStepIsShiftRegister(crc, data[0]);
      FcsIsShiftRegister(FcsStep(crc, data[0]), data[1..]);
      ShiftBitsAppend(crc, ByteBits(data[0]), BitsOf(data[1..]));
    }
  }

  lemma {:induction false} FcsAppend(crc: Word, a: seq<bv8>, b: seq<bv8>)
    ensures Fcs(crc, a + b) == Fcs(Fcs(crc, a), b)
    decreases |a|
  {
    hide FcsStep;
    if a == [] {
      assert a + b == b;
    } else {
      assert (a + b)[1..] == a[1..] + b;
      FcsAppend(FcsStep(crc, a[0]), a[1..], b);
    }
  }

  // ----- what crc_gen writes and crc_check accepts -----

  /** The two bytes crc_final_write stores: the complement, low byte first. */
  function FirstOut(crc: Word): bv8 {
    ((crc.v ^ 0xffff) & 0xff) as bv8
  }

  function SecondOut(crc: Word): bv8 {
    (((crc.v ^ 0xffff) >> 8) & 0xff) as bv8
  }

  function Trailer(crc: Word): (t: seq<bv8>)
    ensures |t| == 2
  {
    [FirstOut(crc), SecondOut(crc)]
  }

  predicate Passes(data: seq<bv8>) {
    Fcs(FCS_START, data) == FCS_FINAL
  }

  lemma FcsOfTwo(crc: Word, t: seq<bv8>)
    requires |t| == 2
    ensures Fcs(crc, t) == FcsStep(FcsStep(crc, t[0]), t[1])
  {
    hide FcsStep;
    assert t[1..][1..] == [];
    assert Fcs(crc, t) == Fcs(FcsStep(crc, t[0]), t[1..]);
  }

  /** The right trailer leads to FCS_FINAL. */
  lemma TrailerEndsWell(crc: Word)
    ensures Fcs(crc, Trailer(crc)) == FCS_FINAL
  {
    var t := Trailer(crc);
    FcsOfTwo(crc, t);
    FirstTrailerByte(crc);
    SecondTrailerByte(crc);
    hide *;
  }

  lemma FirstTrailerByte(crc: Word)
    ensures FcsStep(crc, Trailer(crc)[0]) == Xor(HighByte(crc), Word(0x0f78))
  {
    var x := Xor(crc, ByteWord(Trailer(crc)[0]));
    assert x.v & 0xff == 0xff;
    assert RowOf(x) == 15 && ColumnOf(x) == 15;
    assert TableWord(15, 15) == Word(0x0f78);
    hide Xor, ByteWord, RowOf, ColumnOf, TableWord, HighByte, Trailer;
  }

  lemma SecondTrailerByte(crc: Word)
    ensures FcsStep(Xor(HighByte(crc), Word(0x0f78)), Trailer(crc)[1]) == FCS_FINAL
  {
    var y := Xor(HighByte(crc), Word(0x0f78));
    var x := Xor(y, ByteWord(Trailer(crc)[1]));
    assert x.v & 0xff == 0x87;
    assert RowOf(x) == 8 && ColumnOf(x) == 7;
    assert TableWord(8, 7) == Word(0xf0b7);
    assert HighByte(y) == Word(0x0f);
    assert Xor(Word(0x0f), Word(0xf0b7)) == FCS_FINAL;
    hide Xor, ByteWord, RowOf, ColumnOf, TableWord, HighByte, Trailer;
  }

  // ----- error detection -----

  /** Two bit strings whose differences all lie in bits j to j+15, bit j included, leave
      different registers. */
  lemma BurstLeavesDifference(s: Word, a: seq<bool>, b: seq<bool>, j: nat)
    requires |a| == |b| && j < |a| && a[j] != b[j]
    requires forall i :: 0 <= i < |a| && a[i] != b[i] ==> j <= i < j + 16
    ensures ShiftBits(s, a) != ShiftBits(s, b)
  {
    hide ShiftBit, Xor, Alive, Geq;
    var e := if j + 16 <= |a| then j + 16 else |a|;
    assert a[..j] == b[..j] && a[e..] == b[e..];
    var m := ShiftBits(s, a[..j]);
    BurstWindow(m, a[j..e], b[j..e]);
    CommonTailKeepsDifference(ShiftBits(m, a[j..e]), ShiftBits(m, b[j..e]), a[e..]);
    ThreeParts(s, a, j, e);
    ThreeParts(s, b, j, e);
  }

  lemma ThreeParts(s: Word, a: seq<bool>, j: nat, e: nat)
    requires j <= e <= |a|
    ensures ShiftBits(s, a) == ShiftBits(ShiftBits(ShiftBits(s, a[..j]), a[j..e]), a[e..])
  {
    hide ShiftBits;
    assert a == a[..j] + a[j..] && a[j..] == a[j..e] + a[e..];
    ShiftBitsAppend(s, a[..j], a[j..]);
    ShiftBitsAppend(ShiftBits(s, a[..j]), a[j..e], a[e..]);
  }

  lemma BurstWindow(m: Word, a: seq<bool>, b: seq<bool>)
    requires 0 < |a| == |b| <= 16 && a[0] != b[0]
    ensures ShiftBits(m, a) != ShiftBits(m, b)
  {
    hide ShiftBit, Xor, Geq;
    DifferingBitIsTop(m, a[0]);
    assert b[0] == !a[0];
    var x, y := ShiftBit(m, a[0]), ShiftBit(m, b[0]);
    assert Alive(0) == TOP;
    BurstKeepsDifference(x, y, a[1..], b[1..], 0);
    StillAlive(|a| - 1, Xor(ShiftBits(m, a), ShiftBits(m, b)));
    DifferenceIsZero(ShiftBits(m, a), ShiftBits(m, b));
  }

  lemma StillAlive(k: nat, d: Word)
    requires k <= 15 && Geq(d, Alive(k))
    ensures d != Word(0)
  {
    assert Alive(3) == Word(0x1000) && Alive(6) == Word(0x200) && Alive(9) == Word(0x40);
    assert Alive(12) == Word(8) && Alive(15) == Word(1);
  }

  lemma BitsDetermineByte(x: bv8, y: bv8)
    requires ByteBits(x) == ByteBits(y)
    ensures x == y
  {
    var p, q := ByteBits(x), ByteBits(y);
    assert p[0] == q[0] && p[1] == q[1] && p[2] == q[2] && p[3] == q[3];
    assert p[4] == q[4] && p[5] == q[5] && p[6] == q[6] && p[7] == q[7];
  }

  lemma {:induction false} BitsDetermineBytes(a: seq<bv8>, b: seq<bv8>)
    requires |a| == |b| && BitsOf(a) == BitsOf(b)
    ensures a == b
    decreases |a|
  {
    hide ByteBits;
    if a != [] {
      assert BitsOf(a)[..8] == ByteBits(a[0]) && BitsOf(b)[..8] == ByteBits(b[0]);
      assert BitsOf(a)[8..] == BitsOf(a[1..]) && BitsOf(b)[8..] == BitsOf(b[1..]);
      BitsDetermineByte(a[0], b[0]);
      BitsDetermineBytes(a[1..], b[1..]);
    }
  }

  /** The least index at which two different bit strings differ. */
  lemma FirstDifference(a: seq<bool>, b: seq<bool>) returns (j: nat)
    requires |a| == |b| && a != b
    ensures j < |a| && a[j] != b[j] && forall i :: 0 <= i < j ==> a[i] == b[i]
  {
    j := 0;
    while j < |a| && a[j] == b[j]
      invariant j <= |a| && forall i :: 0 <= i < j ==> a[i] == b[i]
    {
      j := j + 1;
    }
  }

  /** Two distinct buffers of one length that differ only within 16 consecutive bits cannot both pass. */
  lemma BurstOfSixteenIsDetected(a: seq<bv8>, b: seq<bv8>, k: nat)
    requires |a| == |b| && a != b
    requires forall i :: 0 <= i < |BitsOf(a)| && BitsOf(a)[i] != BitsOf(b)[i] ==> k <= i < k + 16
    ensures !(Passes(a) && Passes(b))
  {
    hide ShiftBits, Fcs, BitsOf;
    var p, q := BitsOf(a), BitsOf(b);
    if p == q {
      BitsDetermineBytes(a, b);
    } else {
      var j := FirstDifference(p, q);
      BurstLeavesDifference(FCS_START, p, q, j);
      FcsIsShiftRegister(FCS_START, a);
      FcsIsShiftRegister(FCS_START, b);
    }
  }

  /** Two buffers of one length that differ in an odd number of bits cannot both pass. */
  lemma OddErrorsAreDetected(a: seq<bv8>, b: seq<bv8>)
    requires |a| == |b| && Differences(BitsOf(a), BitsOf(b)) % 2 == 1
    ensures !(Passes(a) && Passes(b))
  {
    FcsIsShiftRegister(FCS_START, a);
    FcsIsShiftRegister(FCS_START, b);
    hide ShiftBits, BitsOf, Fcs, OddOnes, OddBits, Differences;
    RegisterParity(FCS_START, BitsOf(a));
    RegisterParity(FCS_START, BitsOf(b));
    DifferencesParity(BitsOf(a), BitsOf(b));
  }

  lemma {:induction false} BitsOfAppend(a: seq<bv8>, b: seq<bv8>)
    ensures BitsOf(a + b) == BitsOf(a) + BitsOf(b)
    decreases |a|
  {
    hide ByteBits;
    if a == [] {
      assert a + b == b;
    } else {
      assert (a + b)[1..] == a[1..] + b;
      BitsOfAppend(a[1..], b);
    }
  }

  /** A buffer passes exactly when its last two bytes are the ones crc_gen would put there. */
  lemma PassesExactlyWithTrailer(data: seq<bv8>)
    requires |data| >= 2
    ensures Passes(data) <==> data[|data| - 2..] == Trailer(Fcs(FCS_START, data[..|data| - 2]))
  {
    hide Trailer, Fcs, BitsOf;
    var n := |data| - 2;
    var good := data[..n] + Trailer(Fcs(FCS_START, data[..n]));
    FcsAppend(FCS_START, data[..n], Trailer(Fcs(FCS_START, data[..n])));
    TrailerEndsWell(Fcs(FCS_START, data[..n]));
    assert data == data[..n] + data[n..];
    if data[n..] == good[n..] {
      assert data == good;
    } else {
      BitsOfAppend(data[..n], data[n..]);
      BitsOfAppend(data[..n], Trailer(Fcs(FCS_START, data[..n])));
      BurstOfSixteenIsDetected(data, good, 8 * n);
    }
  }

  // ----- known frames -----

  /** One step of the register, by the entry of the table that it takes. */
  lemma OneStep(fcs: bv16, c: bv8, x: bv16, h: nat, l: nat, entry: bv16)
    requires h < 16 && l < 16 && Xor(Word(fcs), ByteWord(c)) == Word(x)
    requires RowOf(Word(x)) == h && ColumnOf(Word(x)) == l && Entry(h, l) == entry
    ensures FcsStep(Word(fcs), c) == Xor(HighByte(Word(fcs)), Word(entry))
  {
    assert TableWord(h, l) == Word(entry) by {
      hide Entry, Xor, RowOf, ColumnOf;
    }
    hide Entry, Xor, RowOf, ColumnOf, HighByte, ByteWord, TableWord;
  }

  /** The characters 1 to 9, and what the register holds behind the first k of them. */
  const DIGITS: seq<bv8> := [0x31, 0x32, 0x33, 0x34, 0x35, 0x36, 0x37, 0x38, 0x39]

  function Behind(k: nat): Word {
    match k case 0 => Word(0xffff) case 1 => Word(0x2f8d) case 2 => Word(0x4d53) case 3 => Word(0x634b)
    case 4 => Word(0x8b13) case 5 => Word(0x44bf) case 6 => Word(0x198d) case 7 => Word(0x1ac8) case 8
    => Word(0xf795) case _ => Word(0x6f91)
  }

  lemma DigitStep(k: nat)
    requires k < 9
    ensures FcsStep(Behind(k), DIGITS[k]) == Behind(k + 1)
  {
    if k < 4 {
      EarlyDigit(k);
    } else {
      LateDigit(k);
    }
    hide *;
  }

  lemma EarlyDigit(k: nat)
    requires k < 4
    ensures FcsStep(Behind(k), DIGITS[k]) == Behind(k + 1)
  {
    match k
    case 0 => OneStep(0xffff, 0x31, 0xffce, 12, 14, 0x2f72);
    case 1 => OneStep(0x2f8d, 0x32, 0x2fbf, 11, 15, 0x4d7c);
    case 2 => OneStep(0x4d53, 0x33, 0x4d60, 6, 0, 0x6306);
    case _ => OneStep(0x634b, 0x34, 0x637f, 7, 15, 0x8b70);
  }

  lemma LateDigit(k: nat)
    requires 4 <= k < 9
    ensures FcsStep(Behind(k), DIGITS[k]) == Behind(k + 1)
  {
    match k
    case 4 => OneStep(0x8b13, 0x35, 0x8b26, 2, 6, 0x4434);
    case 5 => OneStep(0x44bf, 0x36, 0x4489, 8, 9, 0x19c9);
    case 6 => OneStep(0x198d, 0x37, 0x19ba, 11, 10, 0x1ad1);
    case 7 => OneStep(0x1ac8, 0x38, 0x1af0, 15, 0, 0xf78f);
    case _ => OneStep(0xf795, 0x39, 0xf7ac, 10, 12, 0x6f66);
  }

  lemma {:induction false} DigitsFrom(k: nat)
    requires k <= 9
    ensures Fcs(Behind(k), DIGITS[k..]) == Word(0x6f91)
    decreases 9 - k
  {
    if k < 9 {
      DigitStep(k);
      assert DIGITS[k..][1..] == DIGITS[k + 1..];
      hide FcsStep;
      DigitsFrom(k + 1);
    }
  }

  /** The check value of the code: the characters 1 to 9 pass with 6E 90 behind them, and nothing else. */
  lemma CheckValue(x: bv8, y: bv8)
    ensures Passes([0x31, 0x32, 0x33, 0x34, 0x35, 0x36, 0x37, 0x38, 0x39, x, y]) <==> x == 0x6e && y == 0x90
  {
    var data := DIGITS + [x, y];
    assert data == [0x31, 0x32, 0x33, 0x34, 0x35, 0x36, 0x37, 0x38, 0x39, x, y];
    assert data[..9] == DIGITS == DIGITS[0..] && data[9..] == [x, y];
    DigitsFrom(0);
    assert Trailer(Word(0x6f91)) == [0x6e, 0x90];
    assert Behind(0) == FCS_START;
    hide Fcs, Passes, Trailer, Behind;
    PassesExactlyWithTrailer(data);
  }

  /** A frame without data passes with two bytes of 0, and nothing else. */
  lemma EmptyFrame(x: bv8, y: bv8)
    ensures Passes([x, y]) <==> x == 0 && y == 0
  {
    assert [x, y][..0] == [] && [x, y][0..] == [x, y] && Fcs(FCS_START, []) == FCS_START;
    assert Trailer(FCS_START) == [0, 0];
    hide Fcs, Passes, Trailer;
    PassesExactlyWithTrailer([x, y]);
  }

  /** A byte of 0 put in front of a frame is detected. */
  lemma ZeroInFront(data: seq<bv8>)
    ensures !(Passes(data) && Passes([0] + data))
  {
    assert ([0] + data)[1..] == data;
    OneStep(0xffff, 0, 0xffff, 15, 15, 0x0f78);
    var s := FcsStep(FCS_START, 0);
    assert s != FCS_START;
    assert Fcs(FCS_START, [0] + data) == Fcs(s, data);
    hide *;
    FcsIsShiftRegister(FCS_START, data);
    FcsIsShiftRegister(s, data);
    CommonTailKeepsDifference(FCS_START, s, BitsOf(data));
    PassesMeans(data);
    PassesMeans([0] + data);
  }

  lemma PassesMeans(data: seq<bv8>)
    ensures Passes(data) <==> Fcs(FCS_START, data) == FCS_FINAL
  {
  }

  // ----- the routines over buffers -----

  /** crc_update over len bytes of buf. */
  method CrcUpdate(buf: array<bv8>, len: nat, crc0: Word) returns (crc: Word)
    requires len <= buf.Length
    ensures crc == Fcs(crc0, buf[..len])
  {
    hide FcsStep;
    crc := crc0;
    var i := 0;
    while i != len
      invariant 0 <= i <= len
      invariant crc == Fcs(crc0, buf[..i])
    {
      assert buf[..i + 1] == buf[..i] + [buf[i]];
      FcsAppend(crc0, buf[..i], [buf[i]]);
      assert Fcs(crc, [buf[i]]) == FcsStep(crc, buf[i]);
      crc := FcsStep(crc, buf[i]);
      i := i + 1;
    }
  }

  /** crc_gen: fill the last two of len bytes. The source computes len - 2 unsigned. */
  method CrcGen(buf: array<bv8>, len: nat)
    requires 2 <= len <= buf.Length
    modifies buf
    ensures buf[..len - 2] == old(buf[..len - 2])
    ensures buf[len..] == old(buf[len..])
    ensures Passes(buf[..len])
  {
    var crc := CrcUpdate(buf, len - 2, FCS_START);
    ghost var t := Trailer(crc);
    var lo, hi := FirstOut(crc), SecondOut(crc);
    assert t == [lo, hi];
    hide *;
    buf[len - 2] := lo;
    buf[len - 1] := hi;
    assert buf[..len][..len - 2] == buf[..len - 2];
    assert buf[..len][len - 2..] == t;
    PassesExactlyWithTrailer(buf[..len]);
  }

  /** crc_check: 0 if the buffer passes, -1 if not. */
  method CrcCheck(buf: array<bv8>, len: nat) returns (r: int)
    requires len <= buf.Length
    ensures r == if Passes(buf[..len]) then 0 else -1
  {
    hide Fcs;
    var crc := CrcUpdate(buf, len, FCS_START);
    r := if crc == FCS_FINAL then 0 else -1;
  }
}
