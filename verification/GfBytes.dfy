/** Bytes, half bytes and 32-bit words for Common/GfMul.c, whatever the width of a field element. */
module GfBytes {
  import opened GfSums

  // ---- Entries of the table of reductions ----

  function Pick(i: bv32, mask: bv32, value: bv32): bv32 { if i & mask != 0 then value else 0 }

  /** Two bytes, the low one first in memory of a big-endian word. */
  function Pair(low: bv32, high: bv32): bv32 { high | (low << 8) }

  function Bit(i: bv32, mask: bv32): bv32 { i & mask }

  function Small(i: bv32, limit: bv32): bool { i < limit }

  lemma OneBit(i: bv32)
    ensures Bit(i, 0x80) == 0 || Bit(i, 0x80) == 0x80
    ensures Bit(i, 0x40) == 0 || Bit(i, 0x40) == 0x40
    ensures Bit(i, 0x20) == 0 || Bit(i, 0x20) == 0x20
    ensures Bit(i, 0x10) == 0 || Bit(i, 0x10) == 0x10
    ensures Bit(i, 0x08) == 0 || Bit(i, 0x08) == 0x08
    ensures Bit(i, 0x04) == 0 || Bit(i, 0x04) == 0x04
    ensures Bit(i, 0x02) == 0 || Bit(i, 0x02) == 0x02
    ensures Bit(i, 0x01) == 0 || Bit(i, 0x01) == 0x01
  {
  }

  lemma SmallPair(low: bv32, high: bv32)
    requires low < 256 && high < 256
    ensures Small(Pair(low, high), 0x10000)
  {
  }

  // ---- Words in memory ----

  type Bytes = seq<bv8>

  /** bswap_32 */
  function Swap(x: bv32): bv32 {
    (((x >> 24) | (x << 8)) & 0x00ff00ff) | (((x >> 8) | (x << 24)) & 0xff00ff00)
  }

  function Word(b0: bv8, b1: bv8, b2: bv8, b3: bv8): bv32 {
    (b0 as bv32) | ((b1 as bv32) << 8) | ((b2 as bv32) << 16) | ((b3 as bv32) << 24)
  }

  function ByteOfWord(w: bv32, k: nat): bv8 {
    if k == 0 then (w & 0xff) as bv8
    else if k == 1 then ((w >> 8) & 0xff) as bv8
    else if k == 2 then ((w >> 16) & 0xff) as bv8
    else (w >> 24) as bv8
  }

  lemma SwapTwice(x: bv32)
    ensures Swap(Swap(x)) == x
  {
  }

  lemma BytesWord(w: bv32)
    ensures Word(ByteOfWord(w, 0), ByteOfWord(w, 1), ByteOfWord(w, 2), ByteOfWord(w, 3)) == w
  {
  }

  /** The word a big-endian machine reads. */
  function BigWord(b0: bv8, b1: bv8, b2: bv8, b3: bv8): bv32 {
    ((b0 as bv32) << 24) | ((b1 as bv32) << 16) | ((b2 as bv32) << 8) | (b3 as bv32)
  }

  /** A word with its bytes swapped. */
  lemma SwappedWord(b0: bv8, b1: bv8, b2: bv8, b3: bv8)
    ensures Swap(Word(b0, b1, b2, b3)) == BigWord(b0, b1, b2, b3)
  {
  }

  // ---- Shifts across words ----

  // mul_x on big-endian words: a shift to the right across the words, and the polynomial.

  function FirstHalf(x: bv32, t: bv32): bv32 { (x >> 1) ^ t }

  function NextHalf(previous: bv32, x: bv32): bv32 { (x >> 1) | (previous << 31) }

  function OddWord(x: bv32): bool { x & 1 == 1 }

  // mul_lex8 on little-endian words and mul_bex8 on big-endian words.

  function FirstLe(x: bv32, t: bv32): bv32 { (x << 8) ^ t }

  function NextLe(previous: bv32, x: bv32): bv32 { (x << 8) | (previous >> 24) }

  function LastLe(x: bv32): bv32 { x >> 24 }

  function Flip(t: bv32): bv32 { ((t & 0xff) << 8) | (t >> 8) }

  lemma FlipPair(low: bv32, high: bv32)
    requires low < 256 && high < 256
    ensures Flip(low | (high << 8)) == Pair(low, high) && low | (high << 8) < 0x10000
  {
  }

  lemma SwapParts(x: bv32, t: bv32)
    requires t < 0x10000
    ensures Swap(x << 8) == Swap(x) >> 8 && Swap(t) == Flip(t) << 16
  {
  }

  lemma SwapNext(p: bv32, x: bv32)
    ensures Swap(NextLe(p, x)) == NextBe(Swap(p), Swap(x)) && LastLe(x) == LastBe(Swap(x))
  {
  }

  lemma PairFits(low: bv32, high: bv32)
    requires low < 256 && high < 256
    ensures Pair(low, high) < 0x10000
  {
  }

  function FirstBe(x: bv32, t: bv32): bv32 { (x >> 8) ^ (t << 16) }

  function NextBe(previous: bv32, x: bv32): bv32 { (x >> 8) | (previous << 24) }

  function LastBe(x: bv32): bv32 { x & 0xff }

  /** The bits of a byte in the opposite order. */
  function Reverse8(b: bv8): bv8 {
    var b1 := ((b >> 1) & 0x55) | ((b & 0x55) << 1);
    var b2 := ((b1 >> 2) & 0x33) | ((b1 & 0x33) << 2);
    (b2 >> 4) | (b2 << 4)
  }

  function ShiftByte(b: bv8, next: bv8): bv8 { (b << 1) | (next >> 7) }

  function AddByte(b: bv8, c: bv8): bv8 { b ^ c }

  lemma AddNothing(b: bv8)
    ensures AddByte(b, 0) == b
  {
  }

  // ---- Bits of a byte ----

  /** 0x80 >> k */
  function Mask(k: nat): bv8 {
    if k == 0 then 0x80 else if k == 1 then 0x40 else if k == 2 then 0x20 else if k == 3 then 0x10
    else if k == 4 then 0x08 else if k == 5 then 0x04 else if k == 6 then 0x02 else 0x01
  }

  function Has(y: bv8, k: nat): bool { y & Mask(k) != 0 }

  lemma Carry(b: bv8)
    ensures (b & 0x80) >> 7 == b >> 7
  {
  }

  function Carried(b: bv8): bv8 { (b & 0x80) >> 7 }

  function ShiftedIn(b: bv8, x: bv8): bv8 { (b << 1) | x }

  lemma ShiftIs(b: bv8, next: bv8)
    ensures ShiftedIn(b, Carried(next)) == ShiftByte(b, next) && ShiftedIn(b, 0) == ShiftByte(b, 0)
  {
    Carry(next);
  }

  // ---- Rows of the tables ----

  /** The power of x that the first term of a row stands for. */
  function Base(r: nat): nat { 8 * (r / 2) + if r % 2 == 1 then 0 else 4 }

  lemma BaseBefore(i: nat)
    requires i >= 2
    ensures Base(i) == Base(i - 2) + 8
  {
  }

  // ---- Bits in the opposite order ----

  function Mirrored(s: Bytes): (r: Bytes)
    ensures |r| == |s|
  {
    seq(|s|, k requires 0 <= k < |s| => Reverse8(s[|s| - 1 - k]))
  }

  /** The first n bits of b, from its low end, in the opposite order. */
  function ReversedPart(b: bv8, n: nat): bv8 {
    if n == 0 || n > 8 then 0
    else if Has(b, 8 - n) then SetMask(ReversedPart(b, n - 1), n - 1)
    else ReversedPart(b, n - 1)
  }

  function SetMask(b: bv8, k: nat): bv8 { b | Mask(k) }

  function PickBit(b: bv8, mask: bv8, value: bv8): bv8 { if b & mask != 0 then value else 0 }

  lemma ReversedBits(b: bv8)
    ensures Reverse8(b) == PickBit(b, 0x01, 0x80) | PickBit(b, 0x02, 0x40) | PickBit(b, 0x04, 0x20) | PickBit(b, 0x08, 0x10)
                           | PickBit(b, 0x10, 0x08) | PickBit(b, 0x20, 0x04) | PickBit(b, 0x40, 0x02) | PickBit(b, 0x80, 0x01)
  {
    BitCases(b, 0x01);
    BitCases(b, 0x02);
    BitCases(b, 0x04);
    BitCases(b, 0x08);
    BitCases(b, 0x10);
    BitCases(b, 0x20);
    BitCases(b, 0x40);
    BitCases(b, 0x80);
    assert Reverse8(b) == ((b & 1) << 7) | ((b & 2) << 5) | ((b & 4) << 3) | ((b & 8) << 1) | ((b & 16) >> 1) | ((b & 32) >> 3) | ((b & 64) >> 5) | ((b & 128) >> 7);
  }

  lemma BitCases(b: bv8, mask: bv8)
    requires mask & (mask - 1) == 0
    ensures b & mask == 0 || b & mask == mask
  {
  }

  lemma WholeByteReversed(b: bv8)
    ensures ReversedPart(b, 8) == Reverse8(b)
  {
    ReversedBits(b);
    var p0 := ReversedPart(b, 0);
    var p1 := ReversedPart(b, 1);
    var p2 := ReversedPart(b, 2);
    var p3 := ReversedPart(b, 3);
    var p4 := ReversedPart(b, 4);
    var p5 := ReversedPart(b, 5);
    var p6 := ReversedPart(b, 6);
    var p7 := ReversedPart(b, 7);
    hide Reverse8;
    assert p1 == p0 | PickBit(b, 0x01, 0x80);
    assert p2 == p1 | PickBit(b, 0x02, 0x40);
    assert p3 == p2 | PickBit(b, 0x04, 0x20);
    assert p4 == p3 | PickBit(b, 0x08, 0x10);
    assert p5 == p4 | PickBit(b, 0x10, 0x08);
    assert p6 == p5 | PickBit(b, 0x20, 0x04);
    assert p7 == p6 | PickBit(b, 0x40, 0x02);
    assert ReversedPart(b, 8) == p7 | PickBit(b, 0x80, 0x01);
    hide ReversedPart; hide PickBit;
  }

  lemma NothingReversed(b: bv8)
    ensures ReversedPart(b, 0) == 0
  {
  }

  // ---- Half bytes ----

  lemma MirrorMirror(v: nat)
    requires v < 16
    ensures Mirrored4(Mirrored4(v)) == v
  {
    MirroredBits(v);
  }

  function LowNibble(y: bv8): nat { (y & 15) as nat }

  function HighNibble(y: bv8): nat { (y >> 4) as nat }

  lemma NibbleBits(y: bv8)
    ensures LowNibble(y) < 16 && HighNibble(y) < 16
    ensures BitOf(LowNibble(y), 0) == Has(y, 7) && BitOf(LowNibble(y), 1) == Has(y, 6)
    ensures BitOf(LowNibble(y), 2) == Has(y, 5) && BitOf(LowNibble(y), 3) == Has(y, 4)
    ensures BitOf(HighNibble(y), 0) == Has(y, 3) && BitOf(HighNibble(y), 1) == Has(y, 2)
    ensures BitOf(HighNibble(y), 2) == Has(y, 1) && BitOf(HighNibble(y), 3) == Has(y, 0)
  {
    FourBits(y & 15);
    FourBits(y >> 4);
    SameMasks(y);
    hide BitOf;
  }

  lemma SameMasks(y: bv8)
    ensures y & 15 < 16 && y >> 4 < 16
    ensures ((y & 15) & 1 != 0) == (y & 1 != 0) && ((y & 15) & 2 != 0) == (y & 2 != 0)
    ensures ((y & 15) & 4 != 0) == (y & 4 != 0) && ((y & 15) & 8 != 0) == (y & 8 != 0)
    ensures ((y >> 4) & 1 != 0) == (y & 16 != 0) && ((y >> 4) & 2 != 0) == (y & 32 != 0)
    ensures ((y >> 4) & 4 != 0) == (y & 64 != 0) && ((y >> 4) & 8 != 0) == (y & 128 != 0)
  {
  }

  lemma FourBits(z: bv8)
    ensures z < 16 ==> z as nat < 16
    ensures z < 16 ==> BitOf(z as nat, 0) == (z & 1 != 0) && BitOf(z as nat, 1) == (z & 2 != 0)
    ensures z < 16 ==> BitOf(z as nat, 2) == (z & 4 != 0) && BitOf(z as nat, 3) == (z & 8 != 0)
  {
    if z < 16 {
      if z == 0 { }
      else if z == 1 { }
      else if z == 2 { }
      else if z == 3 { }
      else if z == 4 { }
      else if z == 5 { }
      else if z == 6 { }
      else if z == 7 { }
      else if z == 8 { }
      else if z == 9 { }
      else if z == 10 { }
      else if z == 11 { }
      else if z == 12 { }
      else if z == 13 { }
      else if z == 14 { }
      else { }
    }
  }

  lemma WindowBit(v: nat, base: nat, k: nat)
    ensures Window(v, base)(base + k) == BitOf(v, k)
  {
    hide BitOf;
  }

  lemma RowsOfByte(n: nat)
    requires n < 8
    ensures Base(15 - 2 * n) == 8 * (7 - n) && Base(15 - (2 * n + 1)) == 8 * (7 - n) + 4
  {
  }

  lemma NoBits(k: nat)
    ensures !Has(0, k)
  {
    hide Mask;
  }
}
