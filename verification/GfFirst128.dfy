/** Multiplication in the first order of bits: GfMul128 and GfMul128Tab of Common/GfMul.c. */
module GfFirst128 {
  import opened GfBytes
  import opened GfSums
  import opened GfBits128
  import opened GfBlocks128
  import opened GfMul128

  /** Bit i of a byte string in the first order: the highest bit of the first byte is bit 0. */
  function FirstBits(a: Bytes): nat -> bool
    requires |a| == BLOCK_LEN
  {
    (i: nat) => i < 128 && Has(a[i / 8], i % 8)
  }

  /** The product in the first order. */
  function FirstProduct(a: Bytes, b: Bytes): (p: Bytes)
    requires |a| == |b| == BLOCK_LEN
    ensures |p| == BLOCK_LEN
  {
    ToBytes(Sum(G(), TermsX(Number(b)), FirstBits(a), 0, 128))
  }

  // ---- Reversal ----

  lemma HasReversed(y: bv8, k: nat)
    requires k < 8
    ensures Has(Reverse8(y), k) == Has(y, 7 - k)
  {
    if k == 0 { assert Reverse8(y) & 0x80 != 0 <==> y & 0x01 != 0; }
    else if k == 1 { assert Reverse8(y) & 0x40 != 0 <==> y & 0x02 != 0; }
    else if k == 2 { assert Reverse8(y) & 0x20 != 0 <==> y & 0x04 != 0; }
    else if k == 3 { assert Reverse8(y) & 0x10 != 0 <==> y & 0x08 != 0; }
    else if k == 4 { assert Reverse8(y) & 0x08 != 0 <==> y & 0x10 != 0; }
    else if k == 5 { assert Reverse8(y) & 0x04 != 0 <==> y & 0x20 != 0; }
    else if k == 6 { assert Reverse8(y) & 0x02 != 0 <==> y & 0x40 != 0; }
    else { assert Reverse8(y) & 0x01 != 0 <==> y & 0x80 != 0; }
  }

  lemma MirroredBit(a: Bytes, i: nat)
    requires |a| == BLOCK_LEN && i < 128
    ensures FirstBits(Mirrored(a))(i) == BitsOf(a)(i)
  {
    hide Has; hide Reverse8;
    BitPlaces(i);
    HasReversed(a[BLOCK_LEN - 1 - i / 8], i % 8);
  }

  /** MirrorBits128 takes one multiplication to the other. */
  lemma MirroredProduct(a: Bytes, b: Bytes)
    requires |a| == |b| == BLOCK_LEN
    ensures Mirrored(FirstProduct(Mirrored(b), Mirrored(a))) == Product(a, b)
  {
    hide Mirrored; hide Number; hide ToBytes; hide Reverse; hide TermsX; hide TermsD; hide Has; hide FirstBits; hide BitsOf; hide G;
    var x, c := Number(Mirrored(a)), FirstBits(Mirrored(b));
    MirroredNumber(a);
    ReverseTwice(Number(a));
    ReversedSum(x, c, 0, 128);
    forall i: nat | i < 128 ensures c(i) == BitsOf(b)(i) { MirroredBit(b, i); }
    SumSame(G(), TermsD(Number(a)), c, BitsOf(b), 0, 128);
    var p := FirstProduct(Mirrored(b), Mirrored(a));
    NumberOfBytes(Sum(G(), TermsX(x), c, 0, 128));
    MirroredNumber(p);
    ToBytesBack(Mirrored(p));
  }

  lemma NumberOfBytes(n: Elem)
    ensures Number(ToBytes(n)) == n
  {
    hide JoinBytes; hide ByteAt;
    JoinSplit(n);
  }

  // ---- GfMul128 ----

  /** The value of a block in big-endian words. */
  function BigValue(b: Block): Elem { Join(b.w0, b.w1, b.w2, b.w3) }

  /** bsw_32 */
  function SwapBlock(b: Block): Block { Block(Swap(b.w0), Swap(b.w1), Swap(b.w2), Swap(b.w3)) }

  lemma Swapped(b: Block)
    ensures BigValue(SwapBlock(b)) == Value(b) && SwapBlock(SwapBlock(b)) == b
  {
    SwapTwice(b.w0);
    SwapTwice(b.w1);
    SwapTwice(b.w2);
    SwapTwice(b.w3);
    hide Swap; hide Join;
  }

  lemma BigXor(a: Block, b: Block)
    ensures BigValue(XorBlock(a, b)) == Add(BigValue(a), BigValue(b))
  {
    JoinXor(a.w0, a.w1, a.w2, a.w3, b.w0, b.w1, b.w2, b.w3);
    hide Join; hide Add;
  }

  /** One line of the loop that fills p. */
  method HalveBig(b: Block) returns (r: Block)
    ensures BigValue(r) == TimesX(BigValue(b))
  {
    JoinHalf(b.w0, b.w1, b.w2, b.w3, if OddWord(b.w3) then 0xe1000000 else 0);
    PolyAtTop();
    AddNothingElem(Half(Join(b.w0, b.w1, b.w2, b.w3)));
    hide Join; hide Half; hide Odd; hide OddWord; hide Add; hide AtTop; hide FirstHalf; hide NextHalf;
    r := Block(FirstHalf(b.w0, if OddWord(b.w3) then 0xe1000000 else 0), NextHalf(b.w0, b.w1), NextHalf(b.w1, b.w2), NextHalf(b.w2, b.w3));
  }

  /** mul_bex8 */
  method MulBigX8(b: Block) returns (r: Block)
    ensures BigValue(r) == TimesX8(BigValue(b))
  {
    var t := LastBe(b.w3);
    BexStep(b.w0, b.w1, b.w2, b.w3);
    hide Join; hide TimesX8; hide GftBe; hide FirstBe; hide NextBe; hide LastBe;
    r := Block(FirstBe(b.w0, GftBe(t)), NextBe(b.w0, b.w1), NextBe(b.w1, b.w2), NextBe(b.w2, b.w3));
  }

  lemma BexStep(w0: bv32, w1: bv32, w2: bv32, w3: bv32)
    ensures Join(FirstBe(w0, GftBe(LastBe(w3))), NextBe(w0, w1), NextBe(w1, w2), NextBe(w2, w3)) == TimesX8(Join(w0, w1, w2, w3))
  {
    hide Join; hide TimesX8; hide GftBe; hide ReductionLow; hide ReductionHigh; hide Place; hide Add; hide DropByte;
    hide FirstBe; hide NextBe; hide LastBe; hide LowByte; hide Widen;
    var t := LastBe(w3);
    JoinBe(w0, w1, w2, w3, 0);
    GftIsReduction(t);
    JoinBe(w0, w1, w2, w3, GftBe(t));
    ByteShift(Join(w0, w1, w2, w3), t);
  }

  /** The bits of a from byte 15 - i on. */
  function TailBits(a: Bytes, i: nat): nat -> bool
    requires |a| == BLOCK_LEN && i < 16
  {
    (j: nat) => FirstBits(a)(j + 8 * (15 - i))
  }

  lemma {:induction false} SumTimesX8(x: Elem, c: nat -> bool, c': nat -> bool, start: nat, end: nat)
    requires forall j: nat, k: nat :: start <= j < end && k == j + 8 ==> c'(k) == c(j)
    ensures TimesX8(Sum(G(), TermsX(x), c, start, end)) == Sum(G(), TermsX(x), c', start + 8, end + 8)
    decreases end
  {
    hide TimesX8; hide Add; hide PowerX;
    if end > start {
      SumTimesX8(x, c, c', start, end - 1);
      var s, u := Sum(G(), TermsX(x), c, start, end - 1), PowerX(x, end - 1);
      EightPowers(x, end - 1);
      TimesX8Add(s, u);
      AddIsAdd(s, u);
      AddIsAdd(TimesX8(s), TimesX8(u));
      assert TermsX(x)(end - 1) == u && TermsX(x)(end + 7) == PowerX(x, end + 7);
      assert c'(end + 7) == c(end - 1);
    } else {
      TimesX8Add(0, 0);
      ZeroIs();
    }
  }

  /** r after k bits of byte 15 - i have been added to what was there before. */
  function Partial(a: Bytes, x: Elem, i: nat, k: nat): Elem
    requires |a| == BLOCK_LEN && i < 16 && k <= 8
  {
    Add(Sum(G(), TermsX(x), TailBits(a, i), 8, 8 * (i + 1)), Sum(G(), TermsX(x), TailBits(a, i), 0, k))
  }

  lemma PartialBit(a: Bytes, x: Elem, i: nat, k: nat)
    requires |a| == BLOCK_LEN && i < 16 && k < 8
    ensures Partial(a, x, i, k + 1) == if Has(a[15 - i], k) then Add(Partial(a, x, i, k), PowerX(x, k)) else Partial(a, x, i, k)
  {
    hide Add; hide Has; hide PowerX; hide G;
    var c := TailBits(a, i);
    var j: nat := k + 8 * (15 - i);
    assert j / 8 == 15 - i && j % 8 == k;
    assert c(k) == FirstBits(a)(j) == Has(a[j / 8], j % 8);
    var s, u := Sum(G(), TermsX(x), c, 8, 8 * (i + 1)), Sum(G(), TermsX(x), c, 0, k);
    AddIsAdd(u, PowerX(x, k));
    AddAssoc(s, u, PowerX(x, k));
  }

  lemma PartialStart(a: Bytes, x: Elem, i: nat)
    requires |a| == BLOCK_LEN && i < 15
    ensures Partial(a, x, i + 1, 0) == TimesX8(Partial(a, x, i, 8))
  {
    hide Add; hide TimesX8; hide FirstBits; hide Lawful; hide TermsX; hide Sum;
    var c, c' := TailBits(a, i), TailBits(a, i + 1);
    var s, u := Sum(G(), TermsX(x), c, 8, 8 * (i + 1)), Sum(G(), TermsX(x), c, 0, 8);
    Laws();
    SumSplit(G(), TermsX(x), c, 0, 8, 8 * (i + 1));
    AddIsAdd(u, s);
    AddLaws(u, s);
    forall j: nat, k: nat | 0 <= j < 8 * (i + 1) && k == j + 8 ensures c'(k) == c(j) {
      assert k + 8 * (15 - (i + 1)) == j + 8 * (15 - i);
    }
    SumTimesX8(x, c, c', 0, 8 * (i + 1));
    NoTerms(x, c');
    AddNothingElem(Sum(G(), TermsX(x), c', 8, 8 * (i + 2)));
  }

  lemma NoTerms(x: Elem, c: nat -> bool)
    ensures Sum(G(), TermsX(x), c, 0, 0) == 0 && Sum(G(), TermsX(x), c, 8, 8) == 0
  {
    ZeroIs();
  }

  lemma FirstPartial(a: Bytes, x: Elem)
    requires |a| == BLOCK_LEN
    ensures Partial(a, x, 0, 0) == 0
  {
    hide Add; hide Sum;
    NoTerms(x, TailBits(a, 0));
    AddNothingElem(0);
  }

  lemma LastPartial(a: Bytes, x: Elem)
    requires |a| == BLOCK_LEN
    ensures Partial(a, x, 15, 8) == Sum(G(), TermsX(x), FirstBits(a), 0, 128)
  {
    hide Add; hide FirstBits; hide Lawful; hide TermsX; hide Sum;
    var c := TailBits(a, 15);
    var s, u := Sum(G(), TermsX(x), c, 8, 128), Sum(G(), TermsX(x), c, 0, 8);
    Laws();
    SumSplit(G(), TermsX(x), c, 0, 8, 128);
    AddIsAdd(u, s);
    AddLaws(u, s);
    SumSame(G(), TermsX(x), c, FirstBits(a), 0, 128);
  }

  /** The eight bits of byte 15 - i. */
  method AddByteBits(a: array<bv8>, p: seq<Block>, i: nat, r: Block, ghost x: Elem) returns (r': Block)
    requires a.Length == BLOCK_LEN && i < 16 && |p| == 8 && forall k: nat :: k < 8 ==> BigValue(p[k]) == PowerX(x, k)
    requires BigValue(r) == Partial(a[..], x, i, 0)
    ensures BigValue(r') == Partial(a[..], x, i, 8)
  {
    hide BigValue; hide Partial; hide PowerX; hide Has; hide Add; hide XorBlock;
    r' := r;
    var k: nat := 0;
    while k < 8
      invariant k <= 8 && BigValue(r') == Partial(a[..], x, i, k)
    {
      PartialBit(a[..], x, i, k);
      BigXor(r', p[k]);
      if Has(a[15 - i], k) { r' := XorBlock(r', p[k]); }
      k := k + 1;
    }
  }

  /** GfMul128: byte after byte from the last one, eight multiples of b, and multiplication by x^8 between bytes. */
  method Multiply(a: array<bv8>, b: array<bv8>)
    requires a.Length == b.Length == BLOCK_LEN
    modifies a
    ensures a[..] == FirstProduct(old(a[..]), old(b[..]))
  {
    hide BigValue; hide Partial; hide PowerX; hide Number; hide Value; hide BlockOf; hide BytesOf; hide SwapBlock; hide TimesX8; hide TimesX; hide Sum; hide ToBytes; hide FirstBits;
    ghost var s := a[..];
    ghost var x := Number(b[..]);
    ValueOfBytes(b[..]);
    Swapped(BlockOf(b[..]));
    var p := [SwapBlock(BlockOf(b[..]))];
    PowerOf0(x);
    while |p| < 8
      invariant a[..] == s && 1 <= |p| <= 8 && forall k: nat :: k < |p| ==> BigValue(p[k]) == PowerX(x, k)
    {
      NextPower(x, |p| - 1);
      var next := HalveBig(p[|p| - 1]);
      p := p + [next];
    }
    var r := Block(0, 0, 0, 0);
    ZeroBig();
    FirstPartial(s, x);
    var i: nat := 0;
    while i < 16
      invariant i <= 16 && a[..] == s
      invariant BigValue(r) == if i == 0 then Partial(s, x, 0, 0) else Partial(s, x, i - 1, 8)
    {
      if i > 0 {
        PartialStart(s, x, i - 1);
        r := MulBigX8(r);
      }
      r := AddByteBits(a, p, i, r, x);
      i := i + 1;
    }
    LastPartial(s, x);
    Swapped(SwapBlock(r));
    Swapped(r);
    ToBytesValue(SwapBlock(r));
    var bytes := BytesOf(SwapBlock(r));
    forall k | 0 <= k < BLOCK_LEN { a[k] := bytes[k]; }
    assert a[..] == bytes;
  }

  lemma PowerOf0(x: Elem)
    ensures PowerX(x, 0) == x
  {
  }

  lemma ZeroBig()
    ensures BigValue(Block(0, 0, 0, 0)) == 0
  {
  }

  // ---- GfMul128Tab ----

  /** Half of a byte chooses a sum of four powers. */
  lemma HalfByte(a: Bytes, x: Elem, i: nat, low: bool)
    requires |a| == BLOCK_LEN && i < 16
    ensures var base, v := 8 * i + (if low then 4 else 0), if low then LowNibble(a[i]) else HighNibble(a[i]);
            v < 16 && Entry(G(), TermsX(x), base, v) == Sum(G(), TermsX(x), FirstBits(a), base, base + 4)
  {
    hide FirstBits; hide Sum; hide G; hide TermsX; hide Window; hide LowNibble; hide HighNibble; hide Mirrored4;
    var base, v := 8 * i + (if low then 4 else 0), if low then LowNibble(a[i]) else HighNibble(a[i]);
    NibbleBits(a[i]);
    var m := Mirrored4(v);
    forall j: nat | base <= j < base + 4 ensures Window(m, base)(j) == FirstBits(a)(j) { HalfByteBit(a, i, low, v, j - base); }
    SumSame(G(), TermsX(x), Window(m, base), FirstBits(a), base, base + 4);
  }

  lemma HalfByteBit(a: Bytes, i: nat, low: bool, v: nat, k: nat)
    requires |a| == BLOCK_LEN && i < 16 && k < 4 && v < 16 && v == if low then LowNibble(a[i]) else HighNibble(a[i])
    ensures var base := 8 * i + (if low then 4 else 0); Window(Mirrored4(v), base)(base + k) == FirstBits(a)(base + k)
  {
    hide LowNibble; hide HighNibble; hide Mirrored4; hide Has; hide BitOf; hide Window;
    NibbleBits(a[i]);
    MirroredBitsOf(v, k);
    var base := 8 * i + (if low then 4 else 0);
    WindowBit(Mirrored4(v), base, k);
    assert (base + k) / 8 == i && (base + k) % 8 == (if low then 4 + k else k);
    if k == 0 { } else if k == 1 { } else if k == 2 { } else { }
  }

  lemma MirroredBitsOf(v: nat, k: nat)
    requires v < 16 && k < 4
    ensures BitOf(Mirrored4(v), k) == BitOf(v, 3 - k)
  {
    hide Mirrored4;
    MirroredBits(v);
    if k == 0 { } else if k == 1 { } else if k == 2 { } else { }
  }

  /** Main result: GfMul128Tab with the table compile_8k_table makes of b computes what GfMul128 does. */
  method MultiplyTab(a: array<bv8>, t: array2<Block>, ghost b: Bytes)
    requires a.Length == BLOCK_LEN && |b| == BLOCK_LEN && Sized(t) && forall r: nat :: r < ROWS ==> RowDone(t, r, Number(b))
    modifies a
    ensures a[..] == FirstProduct(old(a[..]), b)
  {
    hide Value; hide Number; hide LowNibble; hide HighNibble; hide XorBlock; hide BytesOf; hide IsRow; hide Sum; hide ToBytes; hide FirstBits; hide TermsX; hide G;
    ghost var s, x := a[..], Number(b);
    NibbleBits(a[0]);
    var r := t[0, LowNibble(a[0])];
    ValueXor(r, t[1, HighNibble(a[0])]);
    FirstTwo(s, x, t);
    r := XorBlock(r, t[1, HighNibble(a[0])]);
    var i: nat := 1;
    while i < 16
      invariant 1 <= i <= 16 && a[..] == s
      invariant Value(r) == Sum(G(), TermsX(x), FirstBits(s), 0, 8 * i)
    {
      NibbleBits(a[i]);
      NextTwo(s, x, t, i, r);
      r := XorBlock(r, t[i + i, LowNibble(a[i])]);
      r := XorBlock(r, t[i + i + 1, HighNibble(a[i])]);
      i := i + 1;
    }
    ToBytesValue(r);
    var bytes := BytesOf(r);
    forall k | 0 <= k < BLOCK_LEN { a[k] := bytes[k]; }
    assert a[..] == bytes;
  }

  lemma BasesOfByte(i: nat)
    ensures Base(i + i) == 8 * i + 4 && Base(i + i + 1) == 8 * i
  {
  }

  /** Both halves of byte i together. */
  lemma BothHalves(s: Bytes, x: Elem, t: array2<Block>, i: nat)
    requires |s| == BLOCK_LEN && i < 16 && Sized(t) && forall r: nat :: r < ROWS ==> RowDone(t, r, x)
    ensures LowNibble(s[i]) < 16 && HighNibble(s[i]) < 16
    ensures Add(Value(t[i + i, LowNibble(s[i])]), Value(t[i + i + 1, HighNibble(s[i])])) == Sum(G(), TermsX(x), FirstBits(s), 8 * i, 8 * i + 8)
  {
    hide Value; hide LowNibble; hide HighNibble; hide IsRow; hide Sum; hide FirstBits; hide TermsX; hide Add; hide Lawful; hide Entry; hide G; hide Base; hide RowDone;
    var lo, hi := LowNibble(s[i]), HighNibble(s[i]);
    HalfByte(s, x, i, true);
    HalfByte(s, x, i, false);
    BasesOfByte(i);
    EntryOfRow(t, i + i, x, lo);
    EntryOfRow(t, i + i + 1, x, hi);
    Laws();
    SumSplit(G(), TermsX(x), FirstBits(s), 8 * i, 8 * i + 4, 8 * i + 8);
    AddIsAdd(Value(t[i + i + 1, hi]), Value(t[i + i, lo]));
    AddLaws(Value(t[i + i + 1, hi]), Value(t[i + i, lo]));
  }

  lemma FirstTwo(s: Bytes, x: Elem, t: array2<Block>)
    requires |s| == BLOCK_LEN && Sized(t) && forall r: nat :: r < ROWS ==> RowDone(t, r, x)
    ensures LowNibble(s[0]) < 16 && HighNibble(s[0]) < 16
    ensures Add(Value(t[0, LowNibble(s[0])]), Value(t[1, HighNibble(s[0])])) == Sum(G(), TermsX(x), FirstBits(s), 0, 8)
  {
    hide Value; hide LowNibble; hide HighNibble; hide RowDone; hide Sum; hide FirstBits; hide TermsX; hide Add; hide G;
    BothHalves(s, x, t, 0);
  }

  lemma NextTwo(s: Bytes, x: Elem, t: array2<Block>, i: nat, r: Block)
    requires |s| == BLOCK_LEN && i < 16 && Sized(t) && forall r: nat :: r < ROWS ==> RowDone(t, r, x)
    requires Value(r) == Sum(G(), TermsX(x), FirstBits(s), 0, 8 * i)
    ensures LowNibble(s[i]) < 16 && HighNibble(s[i]) < 16
    ensures Value(XorBlock(XorBlock(r, t[i + i, LowNibble(s[i])]), t[i + i + 1, HighNibble(s[i])])) == Sum(G(), TermsX(x), FirstBits(s), 0, 8 * (i + 1))
  {
    hide Value; hide LowNibble; hide HighNibble; hide RowDone; hide Sum; hide FirstBits; hide TermsX; hide Add; hide XorBlock; hide Lawful;
    BothHalves(s, x, t, i);
    var u, v := t[i + i, LowNibble(s[i])], t[i + i + 1, HighNibble(s[i])];
    ValueXor(r, u);
    ValueXor(XorBlock(r, u), v);
    AddAssoc(Value(r), Value(u), Value(v));
    Laws();
    SumSplit(G(), TermsX(x), FirstBits(s), 0, 8 * i, 8 * i + 8);
    AddIsAdd(Value(r), Sum(G(), TermsX(x), FirstBits(s), 8 * i, 8 * i + 8));
  }
}
