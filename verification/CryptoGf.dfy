/** The tweaks of LRW and XTS as products in the fields of Common/GfMul.c. */
module CryptoGf {
  import opened Arithmetic
  import opened CryptoModes
  import opened CryptoSpec
  import opened CryptoNumbers
  import GfBytes
  import Sums = GfSums
  import Bits = GfBits128
  import Blocks128 = GfBlocks128
  import Gf128 = GfMul128
  import Gf64 = GfMul64

  // ---- XTS ----

  /** XTS puts the coefficient of x^0 into the first byte, GfMul.c into the last one. */
  function Flipped(s: Bytes): (r: Bytes)
    requires |s| == 16
    ensures |r| == 16
  {
    [s[15], s[14], s[13], s[12], s[11], s[10], s[9], s[8], s[7], s[6], s[5], s[4], s[3], s[2], s[1], s[0]]
  }

  function ElemOf(t: Whitening): Bits.Elem { Paired(t.high, t.low) }

  function Paired(high: bv64, low: bv64): Bits.Elem { ((high as Bits.Elem) << 64) | (low as Bits.Elem) }

  function Reduced(w: bv64): bv64 { w ^ 135 }

  function Odd(w: bv64): bv64 { w | 1 }

  /** A word shifted up, with the top bit of the one below it. */
  function CarriedUp(high: bv64, low: bv64): bv64 { (high << 1) | (low >> 63) }

  lemma CarriedUpIs(high: bv64, low: bv64)
    ensures CarriedUp(high, low) == if TopBit(low) then Odd(ShiftUp(high)) else ShiftUp(high)
  {
  }

  lemma RawTwice(high: bv64, low: bv64)
    ensures Paired((high << 1) | (low >> 63), low << 1) == Bits.Twice(Paired(high, low))
  {
  }

  lemma PairedTwice(high: bv64, low: bv64)
    ensures Paired(CarriedUp(high, low), ShiftUp(low)) == Bits.Twice(Paired(high, low))
  {
    hide Paired; hide Bits.Twice;
    RawTwice(high, low);
  }

  lemma PairedTop(high: bv64, low: bv64)
    ensures TopBit(high) <==> Bits.Top(Paired(high, low))
  {
  }

  lemma PairedReduced(high: bv64, low: bv64)
    ensures Paired(high, Reduced(low)) == Bits.Add(Paired(high, low), 0x87)
  {
  }

  lemma NextParts(t: Whitening)
    ensures NextWhitening(t).low == if TopBit(t.high) then Reduced(ShiftUp(t.low)) else ShiftUp(t.low)
    ensures NextWhitening(t).high == CarriedUp(t.high, t.low)
  {
    CarriedUpIs(t.high, t.low);
    hide TopBit; hide ShiftUp; hide CarriedUp;
  }

  lemma NextIsDouble(t: Whitening)
    ensures ElemOf(NextWhitening(t)) == Bits.Double(ElemOf(t))
  {
    hide Paired; hide TopBit; hide ShiftUp; hide Reduced; hide Odd; hide CarriedUp; hide Bits.Twice; hide Bits.Top; hide Bits.Add; hide NextWhitening;
    NextParts(t);
    PairedTwice(t.high, t.low);
    PairedTop(t.high, t.low);
    PairedReduced(NextWhitening(t).high, ShiftUp(t.low));
  }

  lemma {:induction false} WhiteningIsPower(ciphers: Ciphers, cipher: nat, ks2: Bytes, unitNo: nat, j: nat)
    ensures ElemOf(WhiteningAt(ciphers, cipher, ks2, unitNo, j))
         == Gf128.PowerD(ElemOf(WhiteningAt(ciphers, cipher, ks2, unitNo, 0)), j)
    decreases j
  {
    hide ElemOf; hide NextWhitening; hide Bits.Double;
    if j > 0 {
      WhiteningIsPower(ciphers, cipher, ks2, unitNo, j - 1);
      NextIsDouble(WhiteningAt(ciphers, cipher, ks2, unitNo, j - 1));
    }
  }

  // ---- Bytes of words ----

  function Byte(w: bv64, k: nat): bv8
    decreases k
  {
    if k == 0 then LowByte(w) else Byte(DropByte(w), k - 1)
  }

  lemma {:induction false} BytesAre(w: bv64, n: nat, k: nat)
    requires k < n
    ensures BytesOfWord(w, n)[k] == Byte(w, k)
    decreases n
  {
    hide LowByte; hide DropByte;
    if k > 0 { BytesAre(DropByte(w), n - 1, k - 1); }
  }

  /** Byte k of a word at once. */
  function Shifted(w: bv64, k: nat): bv8 {
    if k == 0 then (w & 0xff) as bv8
    else if k == 1 then ((w >> 8) & 0xff) as bv8
    else if k == 2 then ((w >> 16) & 0xff) as bv8
    else if k == 3 then ((w >> 24) & 0xff) as bv8
    else if k == 4 then ((w >> 32) & 0xff) as bv8
    else if k == 5 then ((w >> 40) & 0xff) as bv8
    else if k == 6 then ((w >> 48) & 0xff) as bv8
    else ((w >> 56) & 0xff) as bv8
  }

  lemma LowIsShifted(w: bv64)
    ensures LowByte(w) == Shifted(w, 0)
  {
  }

  lemma DropIsShifted(w: bv64, k: nat)
    requires k < 7
    ensures Shifted(DropByte(w), k) == Shifted(w, k + 1)
  {
    if k == 0 { } else if k == 1 { } else if k == 2 { } else if k == 3 { } else if k == 4 { } else if k == 5 { } else { }
  }

  lemma {:induction false} ByteIsShifted(w: bv64, k: nat)
    requires k < 8
    ensures Byte(w, k) == Shifted(w, k)
    decreases k
  {
    hide LowByte; hide DropByte; hide Shifted;
    if k == 0 {
      LowIsShifted(w);
    } else {
      ByteIsShifted(DropByte(w), k - 1);
      DropIsShifted(w, k - 1);
    }
  }

  lemma LowPart(high: bv64, low: bv64, k: nat)
    requires k < 8
    ensures Blocks128.ByteAt(Paired(high, low), 8 * k) == Shifted(low, k)
  {
    if k == 0 { } else if k == 1 { } else if k == 2 { } else if k == 3 { } else if k == 4 { } else if k == 5 { } else if k == 6 { } else { }
  }

  lemma HighPart(high: bv64, low: bv64, k: nat)
    requires k < 8
    ensures Blocks128.ByteAt(Paired(high, low), 64 + 8 * k) == Shifted(high, k)
  {
    if k == 0 { } else if k == 1 { } else if k == 2 { } else if k == 3 { } else if k == 4 { } else if k == 5 { } else if k == 6 { } else { }
  }

  lemma RawBack(n: Bits.Elem)
    ensures Blocks128.JoinBytes(((n >> 120) & 0xff) as bv8, ((n >> 112) & 0xff) as bv8, ((n >> 104) & 0xff) as bv8, ((n >> 96) & 0xff) as bv8, ((n >> 88) & 0xff) as bv8, ((n >> 80) & 0xff) as bv8, ((n >> 72) & 0xff) as bv8, ((n >> 64) & 0xff) as bv8, ((n >> 56) & 0xff) as bv8, ((n >> 48) & 0xff) as bv8, ((n >> 40) & 0xff) as bv8, ((n >> 32) & 0xff) as bv8, ((n >> 24) & 0xff) as bv8, ((n >> 16) & 0xff) as bv8, ((n >> 8) & 0xff) as bv8, (n & 0xff) as bv8) == n
  {
  }

  lemma NumberBack(n: Bits.Elem)
    ensures Blocks128.Number(Blocks128.ToBytes(n)) == n
  {
    hide Blocks128.JoinBytes;
    RawBack(n);
  }

  lemma BytesOfElem(t: Whitening)
    ensures Blocks128.ToBytes(ElemOf(t)) == Flipped(WhiteningBytes(t))
  {
    hide Byte; hide Shifted; hide Paired; hide BytesOfWord; hide Blocks128.ByteAt;
    forall k: nat | k < 8
      ensures Blocks128.ByteAt(ElemOf(t), 8 * k) == WhiteningBytes(t)[k] && Blocks128.ByteAt(ElemOf(t), 64 + 8 * k) == WhiteningBytes(t)[8 + k]
    {
      BytesAre(t.low, 8, k);
      BytesAre(t.high, 8, k);
      ByteIsShifted(t.low, k);
      ByteIsShifted(t.high, k);
      LowPart(t.high, t.low, k);
      HighPart(t.high, t.low, k);
    }
    var s := WhiteningBytes(t);
    hide WhiteningBytes; hide ElemOf;
    var n := ElemOf(t);
    assert Blocks128.ByteAt(n, 8 * 0) == s[0] && Blocks128.ByteAt(n, 8 * 1) == s[1] && Blocks128.ByteAt(n, 8 * 2) == s[2] && Blocks128.ByteAt(n, 8 * 3) == s[3];
    assert Blocks128.ByteAt(n, 8 * 4) == s[4] && Blocks128.ByteAt(n, 8 * 5) == s[5] && Blocks128.ByteAt(n, 8 * 6) == s[6] && Blocks128.ByteAt(n, 8 * 7) == s[7];
    assert Blocks128.ByteAt(n, 64 + 8 * 0) == s[8] && Blocks128.ByteAt(n, 64 + 8 * 1) == s[9] && Blocks128.ByteAt(n, 64 + 8 * 2) == s[10] && Blocks128.ByteAt(n, 64 + 8 * 3) == s[11];
    assert Blocks128.ByteAt(n, 64 + 8 * 4) == s[12] && Blocks128.ByteAt(n, 64 + 8 * 5) == s[13] && Blocks128.ByteAt(n, 64 + 8 * 6) == s[14] && Blocks128.ByteAt(n, 64 + 8 * 7) == s[15];
  }

  // ---- Multiplication by a power of x ----

  /** x^j as an operand of a product: bit j alone. */
  function PowerOf(j: nat): (s: Bytes)
    requires j < 128
    ensures |s| == 16
  {
    seq(16, i => if i == (127 - j) / 8 then GfBytes.Mask((127 - j) % 8) else 0)
  }

  lemma MaskHas(k: nat, m: nat)
    requires k < 8 && m < 8
    ensures GfBytes.Has(GfBytes.Mask(k), m) <==> k == m
    ensures !GfBytes.Has(0, m)
  {
    if k == 0 { } else if k == 1 { } else if k == 2 { } else if k == 3 { } else if k == 4 { } else if k == 5 { } else if k == 6 { } else { }
  }

  lemma BitOfPower(j: nat, i: nat)
    requires i < 128 && j < 128
    ensures Gf128.IsBitSet(i, PowerOf(j)) <==> i == j
  {
    hide GfBytes.Mask; hide GfBytes.Has;
    MaskHas((127 - j) % 8, (127 - i) % 8);
  }

  lemma SumIsPower(n: Bits.Elem, j: nat)
    requires j < 128
    ensures Sums.Sum(Gf128.G(), Gf128.TermsD(n), Gf128.BitsOf(PowerOf(j)), 0, 128) == Gf128.PowerD(n, j)
  {
    hide Gf128.PowerD; hide Sums.Lawful; hide Bits.Add; hide PowerOf; hide Gf128.IsBitSet;
    var g, f, c := Gf128.G(), Gf128.TermsD(n), Gf128.BitsOf(PowerOf(j));
    forall i: nat | i < 128 ensures c(i) <==> i == j { BitOfPower(j, i); }
    Gf128.Laws();
    Sums.SumSplit(g, f, c, 0, j + 1, 128);
    Sums.SumOfNothing(g, f, c, j + 1, 128);
    Sums.SumOfNothing(g, f, c, 0, j);
    Bits.AddLaws(Gf128.PowerD(n, j), 0);
    assert f(j) == Gf128.PowerD(n, j);
    Gf128.ZeroIs();
    Gf128.AddIsAdd(0, f(j));
    Gf128.AddIsAdd(f(j), 0);
  }

  /** The whitening of block j is that of block 0 multiplied by x^j as GfMul.c multiplies. */
  lemma WhiteningIsProduct(ciphers: Ciphers, cipher: nat, ks2: Bytes, unitNo: nat, j: nat)
    requires j < 128
    ensures Flipped(WhiteningBytes(WhiteningAt(ciphers, cipher, ks2, unitNo, j)))
         == Gf128.Product(Flipped(WhiteningBytes(WhiteningAt(ciphers, cipher, ks2, unitNo, 0))), PowerOf(j))
  {
    hide WhiteningAt; hide WhiteningBytes; hide Flipped; hide ElemOf; hide Blocks128.Number; hide Blocks128.ToBytes; hide Gf128.PowerD; hide PowerOf;
    hide Gf128.BitsOf; hide Gf128.TermsD; hide Gf128.G;
    var first, t := WhiteningAt(ciphers, cipher, ks2, unitNo, 0), WhiteningAt(ciphers, cipher, ks2, unitNo, j);
    BytesOfElem(first);
    BytesOfElem(t);
    NumberBack(ElemOf(first));
    WhiteningIsPower(ciphers, cipher, ks2, unitNo, j);
    SumIsPower(ElemOf(first), j);
  }

  // ---- The first whitening value ----

  lemma WordFrom(x: Bytes, k: nat)
    requires k < |x|
    ensures WordOf(x[k..]) == AppendByte(WordOf(x[k + 1..]), x[k])
  {
    hide AppendByte;
    assert x[k..][1..] == x[k + 1..];
  }

  lemma WordOfEight(x: Bytes)
    requires |x| == 8
    ensures WordOf(x) == Appended(x[0], x[1], x[2], x[3], x[4], x[5], x[6], x[7])
  {
    hide AppendByte;
    assert x[0..] == x;
    assert WordOf(x[8..]) == 0;
    hide WordOf;
    WordFrom(x, 0);
    WordFrom(x, 1);
    WordFrom(x, 2);
    WordFrom(x, 3);
    WordFrom(x, 4);
    WordFrom(x, 5);
    WordFrom(x, 6);
    WordFrom(x, 7);
  }

  function Appended(b0: bv8, b1: bv8, b2: bv8, b3: bv8, b4: bv8, b5: bv8, b6: bv8, b7: bv8): bv64 {
    var w := AppendByte(AppendByte(AppendByte(AppendByte(0, b7), b6), b5), b4);
    AppendByte(AppendByte(AppendByte(AppendByte(w, b3), b2), b1), b0)
  }

  lemma RawAppended(b0: bv8, b1: bv8, b2: bv8, b3: bv8, b4: bv8, b5: bv8, b6: bv8, b7: bv8)
    ensures var w := Appended(b0, b1, b2, b3, b4, b5, b6, b7);
            [Shifted(w, 0), Shifted(w, 1), Shifted(w, 2), Shifted(w, 3), Shifted(w, 4), Shifted(w, 5), Shifted(w, 6), Shifted(w, 7)]
            == [b0, b1, b2, b3, b4, b5, b6, b7]
  {
  }

  lemma BytesOfWordOf(x: Bytes)
    requires |x| == 8
    ensures BytesOfWord(WordOf(x), 8) == x
  {
    hide WordOf; hide BytesOfWord; hide Shifted; hide Appended; hide Byte;
    WordOfEight(x);
    RawAppended(x[0], x[1], x[2], x[3], x[4], x[5], x[6], x[7]);
    var w := WordOf(x);
    var y := [Shifted(w, 0), Shifted(w, 1), Shifted(w, 2), Shifted(w, 3), Shifted(w, 4), Shifted(w, 5), Shifted(w, 6), Shifted(w, 7)];
    assert x == [x[0], x[1], x[2], x[3], x[4], x[5], x[6], x[7]];
    assert y == x;
    forall k: nat | k < 8 ensures BytesOfWord(w, 8)[k] == Shifted(w, k) {
      BytesAre(w, 8, k);
      ByteIsShifted(w, k);
    }
  }

  lemma WhiteningBack(x: Bytes)
    requires |x| == 16
    ensures WhiteningBytes(WhiteningOf(x)) == x
  {
    hide WordOf; hide BytesOfWord;
    BytesOfWordOf(x[..8]);
    BytesOfWordOf(x[8..]);
  }

  /** Main result on XTS: the tweak of block j of a data unit is the encrypted number of the unit multiplied by x^j, as
      GfMul.c multiplies. */
  lemma XtsTweakIsProduct(ciphers: Ciphers, cipher: nat, ks2: Bytes, unitNo: nat, j: nat)
    requires j < BLOCKS_PER_XTS_DATA_UNIT
    requires |ciphers.encipher(cipher, ks2, LittleEndian(unitNo, 8) + LittleEndian(0, 8))| == 16
    ensures Flipped(XtsTweak(ciphers, cipher, ks2, unitNo * BLOCKS_PER_XTS_DATA_UNIT + j))
         == Gf128.Product(Flipped(ciphers.encipher(cipher, ks2, LittleEndian(unitNo, 8) + LittleEndian(0, 8))), PowerOf(j))
  {
    hide WhiteningOf; hide WhiteningBytes; hide Flipped; hide PowerOf; hide Gf128.Product; hide LittleEndian;
    var first := ciphers.encipher(cipher, ks2, LittleEndian(unitNo, 8) + LittleEndian(0, 8));
    WhiteningBack(first);
    assert WhiteningAt(ciphers, cipher, ks2, unitNo, 0) == WhiteningOf(first);
    hide WhiteningAt;
    WhiteningIsProduct(ciphers, cipher, ks2, unitNo, j);
    DivModUnique(unitNo, j, BLOCKS_PER_XTS_DATA_UNIT);
  }

  // ---- LRW ----

  /** The low bytes of numbers. */
  function AsBytes(s: seq<nat>): (r: Bytes)
    ensures |r| == |s|
  {
    seq(|s|, i requires 0 <= i < |s| => (s[i] % 256) as bv8)
  }

  /** The tables in gf_ctx have been made from k2: tweak128 and tweak64 are what Gf128MulBy64Tab and Gf64MulTab
      compute with them. */
  ghost predicate TablesOf(ci: CryptoInfo)
    requires |ci.k2| >= 16
  {
    && (forall i: seq<nat> :: |i| == 8 ==> ci.tweak128(i) == Gf128.Product(ci.k2[..16], Gf128.Operand(AsBytes(i))))
    && (forall i: seq<nat> :: |i| == 8 ==> ci.tweak64(i) == Gf64.Product(ci.k2[..8], Gf64.Operand(AsBytes(i))))
  }

  lemma {:induction false} BigEndianLength(n: nat, count: nat)
    ensures |BigEndian(n, count)| == count
    decreases count
  {
    if count > 0 { BigEndianLength(n / 256, count - 1); }
  }

  /** Leading zeros. */
  lemma {:induction false} WiderBigEndian(n: nat, count: nat, more: nat)
    requires n < Power256(count)
    ensures BigEndian(n, more + count) == BigEndian(0, more) + BigEndian(n, count)
    decreases count
  {
    if count > 0 { WiderBigEndian(n / 256, count - 1, more); }
  }

  /** Main result on LRW: the tweak of a block is the product of the second key and the block's index, as a number of
      the width of the block with the most significant byte first. */
  lemma LrwTweakIsProduct(ci: CryptoInfo, index: nat)
    requires |ci.k2| >= 16 && TablesOf(ci) && index < TWO_TO_THE_64
    ensures |BigEndian(index, 16)| == 16 && |BigEndian(index, 8)| == 8
    ensures LrwTweak(ci, 16, index) == Gf128.Product(ci.k2[..16], AsBytes(BigEndian(index, 16)))
    ensures LrwTweak(ci, 8, index) == Gf64.Product(ci.k2[..8], AsBytes(BigEndian(index, 8)))
  {
    hide *;
    BigEndianLength(index, 16);
    BigEndianLength(index, 8);
    WideIndex(index);
    Tweaks(ci, index);
  }

  lemma Tweaks(ci: CryptoInfo, index: nat)
    requires |ci.k2| >= 16 && TablesOf(ci) && |BigEndian(index, 8)| == 8
    ensures LrwTweak(ci, 16, index) == Gf128.Product(ci.k2[..16], Gf128.Operand(AsBytes(BigEndian(index, 8))))
    ensures LrwTweak(ci, 8, index) == Gf64.Product(ci.k2[..8], AsBytes(BigEndian(index, 8)))
  {
    hide BigEndian; hide Gf128.Product; hide Gf64.Product; hide AsBytes;
  }

  lemma WideIndex(index: nat)
    requires index < TWO_TO_THE_64 && |BigEndian(index, 8)| == 8
    ensures AsBytes(BigEndian(index, 16)) == Gf128.Operand(AsBytes(BigEndian(index, 8)))
  {
    assert Power256(8) == TWO_TO_THE_64;
    ZeroBytes();
    hide BigEndian; hide Power256;
    WiderBigEndian(index, 8, 8);
  }

  lemma ZeroBytes()
    ensures BigEndian(0, 8) == [0, 0, 0, 0, 0, 0, 0, 0]
  {
  }
}
