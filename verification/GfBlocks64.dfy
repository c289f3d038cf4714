/** Elements of GF(2^64) in memory: as bytes and as the words the machine reads and writes. */
module GfBlocks64 {
  import opened GfBytes
  import opened GfBits64
  import Words

  const BLOCK_LEN := 8

  /** A block as little-endian words. */
  datatype Block = Block(w0: bv32, w1: bv32)

  function Join(w0: bv32, w1: bv32): Elem {
    ((w0 as Elem) << 32) | (w1 as Elem)
  }

  /** The element whose bytes a block holds, the byte at the lowest address in the highest place. */
  function Value(b: Block): Elem { Join(Swap(b.w0), Swap(b.w1)) }

  function JoinBytes(b0: bv8, b1: bv8, b2: bv8, b3: bv8, b4: bv8, b5: bv8, b6: bv8, b7: bv8): Elem {
    ((b0 as Elem) << 56) | ((b1 as Elem) << 48) | ((b2 as Elem) << 40) | ((b3 as Elem) << 32) | ((b4 as Elem) << 24) | ((b5 as Elem) << 16) | ((b6 as Elem) << 8) | (b7 as Elem)
  }

  /** Bytes as an element, the first byte in the highest place. */
  function Number(s: Bytes): Elem
    requires |s| == BLOCK_LEN
  {
    JoinBytes(s[0], s[1], s[2], s[3], s[4], s[5], s[6], s[7])
  }

  /** What memcpy into a block leaves there. */
  function BlockOf(s: Bytes): Block
    requires |s| == BLOCK_LEN
  {
    Block(Word(s[0], s[1], s[2], s[3]), Word(s[4], s[5], s[6], s[7]))
  }

  /** The bytes of a block in memory. */
  function BytesOf(b: Block): (s: Bytes)
    ensures |s| == BLOCK_LEN
  {
    [ByteOfWord(b.w0, 0), ByteOfWord(b.w0, 1), ByteOfWord(b.w0, 2), ByteOfWord(b.w0, 3), ByteOfWord(b.w1, 0), ByteOfWord(b.w1, 1), ByteOfWord(b.w1, 2), ByteOfWord(b.w1, 3)]
  }

  lemma BlockBack(b: Block)
    ensures BlockOf(BytesOf(b)) == b
  {
    hide Word; hide ByteOfWord;
    BytesWord(b.w0);
    BytesWord(b.w1);
  }

  lemma RawValue(b0: bv8, b1: bv8, b2: bv8, b3: bv8, b4: bv8, b5: bv8, b6: bv8, b7: bv8)
    ensures (((((b0 as bv32) << 24) | ((b1 as bv32) << 16) | ((b2 as bv32) << 8) | (b3 as bv32)) as Elem) << 32) | ((((b4 as bv32) << 24) | ((b5 as bv32) << 16) | ((b6 as bv32) << 8) | (b7 as bv32)) as Elem)
         == ((b0 as Elem) << 56) | ((b1 as Elem) << 48) | ((b2 as Elem) << 40) | ((b3 as Elem) << 32) | ((b4 as Elem) << 24) | ((b5 as Elem) << 16) | ((b6 as Elem) << 8) | (b7 as Elem)
  {
  }

  lemma JoinIs(w0: bv32, w1: bv32, v0: bv32, v1: bv32)
    requires w0 == v0 && w1 == v1
    ensures Join(w0, w1) == ((v0 as Elem) << 32) | (v1 as Elem)
  {
  }

  /** The value of a block is the number its bytes make. */
  lemma ValueOfBytes(s: Bytes)
    requires |s| == BLOCK_LEN
    ensures Value(BlockOf(s)) == Number(s)
  {
    var b0, b1, b2, b3, b4, b5, b6, b7 := s[0], s[1], s[2], s[3], s[4], s[5], s[6], s[7];
    ValueOfWords(b0, b1, b2, b3, b4, b5, b6, b7);
    hide JoinBytes; hide Swap; hide Word; hide Join;
  }

  lemma ValueOfWords(b0: bv8, b1: bv8, b2: bv8, b3: bv8, b4: bv8, b5: bv8, b6: bv8, b7: bv8)
    ensures Join(Swap(Word(b0, b1, b2, b3)), Swap(Word(b4, b5, b6, b7))) == JoinBytes(b0, b1, b2, b3, b4, b5, b6, b7)
  {
    hide JoinBytes; hide Swap; hide Word; hide Join; hide BigWord;
    SwappedWord(b0, b1, b2, b3);
    SwappedWord(b4, b5, b6, b7);
    JoinOfBytes(b0, b1, b2, b3, b4, b5, b6, b7);
  }

  lemma JoinOfBytes(b0: bv8, b1: bv8, b2: bv8, b3: bv8, b4: bv8, b5: bv8, b6: bv8, b7: bv8)
    ensures Join(BigWord(b0, b1, b2, b3), BigWord(b4, b5, b6, b7)) == JoinBytes(b0, b1, b2, b3, b4, b5, b6, b7)
  {
    RawValue(b0, b1, b2, b3, b4, b5, b6, b7);
    calc {
      Join(BigWord(b0, b1, b2, b3), BigWord(b4, b5, b6, b7));
      (((((b0 as bv32) << 24) | ((b1 as bv32) << 16) | ((b2 as bv32) << 8) | (b3 as bv32)) as Elem) << 32) | ((((b4 as bv32) << 24) | ((b5 as bv32) << 16) | ((b6 as bv32) << 8) | (b7 as bv32)) as Elem);
      ((b0 as Elem) << 56) | ((b1 as Elem) << 48) | ((b2 as Elem) << 40) | ((b3 as Elem) << 32) | ((b4 as Elem) << 24) | ((b5 as Elem) << 16) | ((b6 as Elem) << 8) | (b7 as Elem);
      JoinBytes(b0, b1, b2, b3, b4, b5, b6, b7);
    }
  }

  lemma ValueIsNumber(b: Block)
    ensures Number(BytesOf(b)) == Value(b)
  {
    BlockBack(b);
    ValueOfBytes(BytesOf(b));
    hide Number; hide Value; hide BlockOf; hide BytesOf;
  }

  // ---- Operations ----

  function XorBlock(a: Block, b: Block): Block {
    Block(Words.Xor(a.w0, b.w0), Words.Xor(a.w1, b.w1))
  }

  lemma SwapXor(x: bv32, y: bv32)
    ensures Swap(Words.Xor(x, y)) == Words.Xor(Swap(x), Swap(y))
  {
  }

  lemma RawJoinXor(w0: bv32, w1: bv32, v0: bv32, v1: bv32)
    ensures ((((w0 ^ v0) as Elem) << 32) | ((w1 ^ v1) as Elem)) == (((w0 as Elem) << 32) | (w1 as Elem)) ^ (((v0 as Elem) << 32) | (v1 as Elem))
  {
  }

  lemma JoinXor(w0: bv32, w1: bv32, v0: bv32, v1: bv32)
    ensures Join(Words.Xor(w0, v0), Words.Xor(w1, v1)) == Add(Join(w0, w1), Join(v0, v1))
  {
    Words.XorIs(w0, v0);
    Words.XorIs(w1, v1);
    hide Join; hide Words.Xor; hide Add;
    RawJoinXor(w0, w1, v0, v1);
    JoinIs(Words.Xor(w0, v0), Words.Xor(w1, v1), w0 ^ v0, w1 ^ v1);
    JoinIs(w0, w1, w0, w1);
    JoinIs(v0, v1, v0, v1);
    AddIs(Join(w0, w1), Join(v0, v1));
  }

  lemma ValueXor(a: Block, b: Block)
    ensures Value(XorBlock(a, b)) == Add(Value(a), Value(b))
  {
    SwapXor(a.w0, b.w0);
    SwapXor(a.w1, b.w1);
    JoinXor(Swap(a.w0), Swap(a.w1), Swap(b.w0), Swap(b.w1));
    hide Swap; hide Words.Xor; hide Join; hide Add;
  }

  lemma ZeroValue()
    ensures Value(Block(0, 0)) == 0
  {
  }

  // mul_x on big-endian words: a shift to the right across the words, and the polynomial.

  function AtTop(t: bv32): Elem { (t as Elem) << 32 }

  lemma JoinHalf(w0: bv32, w1: bv32, t: bv32)
    ensures Join(FirstHalf(w0, t), NextHalf(w0, w1)) == Add(Half(Join(w0, w1)), AtTop(t))
    ensures Odd(Join(w0, w1)) <==> OddWord(w1)
  {
  }

  lemma PolyAtTop()
    ensures AtTop(0xd8000000) == POLY && AtTop(0) == 0
  {
  }

  lemma JoinLe(w0: bv32, w1: bv32, low: bv32, high: bv32)
    requires low < 256 && high < 256
    ensures Join(Swap(FirstLe(w0, low | (high << 8))), Swap(NextLe(w0, w1))) == Add(DropByte(Join(Swap(w0), Swap(w1))), Place(Pair(low, high)))
    ensures LowByte(Join(Swap(w0), Swap(w1))) == Widen(LastLe(w1)) && LastLe(w1) < 256
  {
    FlipPair(low, high);
    SwapFirst(w0, low, high);
    SwapNext(w0, w1);
    PairFits(low, high);
    hide Swap; hide FirstLe; hide NextLe; hide LastLe; hide Pair; hide FirstBe; hide NextBe; hide LastBe; hide Join; hide Add; hide DropByte; hide Place; hide LowByte; hide Widen;
    JoinBe(Swap(w0), Swap(w1), Pair(low, high));
  }

  lemma SwapFirst(x: bv32, low: bv32, high: bv32)
    requires low < 256 && high < 256 && low | (high << 8) < 0x10000
    ensures Swap(FirstLe(x, low | (high << 8))) == FirstBe(Swap(x), Pair(low, high))
  {
    FlipFirst(x, low | (high << 8));
    FlipPair(low, high);
    hide Swap; hide FirstLe; hide FirstBe; hide Pair; hide Flip;
  }

  lemma FlipFirst(x: bv32, t: bv32)
    requires t < 0x10000
    ensures Swap(FirstLe(x, t)) == FirstBe(Swap(x), Flip(t))
  {
    SwapXor(x << 8, t);
    SwapParts(x, t);
    FirstParts(x, t, Swap(x), Flip(t));
    hide Swap; hide Flip; hide FirstLe; hide FirstBe; hide Words.Xor;
  }

  lemma FirstParts(x: bv32, t: bv32, y: bv32, u: bv32)
    ensures FirstLe(x, t) == Words.Xor(x << 8, t) && FirstBe(y, u) == Words.Xor(y >> 8, u << 16)
  {
  }

  lemma JoinBe(w0: bv32, w1: bv32, t: bv32)
    requires t < 0x10000
    ensures Join(FirstBe(w0, t), NextBe(w0, w1)) == Add(DropByte(Join(w0, w1)), Place(t))
    ensures LowByte(Join(w0, w1)) == Widen(LastBe(w1)) && LastBe(w1) < 256
  {
  }

  // ---- Operations on bytes ----

  lemma ReversedBytes(n: Elem)
    ensures ByteAt(Reverse(n), 56) == Reverse8(ByteAt(n, 0)) && ByteAt(Reverse(n), 48) == Reverse8(ByteAt(n, 8)) && ByteAt(Reverse(n), 40) == Reverse8(ByteAt(n, 16)) && ByteAt(Reverse(n), 32) == Reverse8(ByteAt(n, 24)) && ByteAt(Reverse(n), 24) == Reverse8(ByteAt(n, 32)) && ByteAt(Reverse(n), 16) == Reverse8(ByteAt(n, 40)) && ByteAt(Reverse(n), 8) == Reverse8(ByteAt(n, 48)) && ByteAt(Reverse(n), 0) == Reverse8(ByteAt(n, 56))
  {
  }

  lemma ReverseBytes(b0: bv8, b1: bv8, b2: bv8, b3: bv8, b4: bv8, b5: bv8, b6: bv8, b7: bv8)
    ensures JoinBytes(Reverse8(b7), Reverse8(b6), Reverse8(b5), Reverse8(b4), Reverse8(b3), Reverse8(b2), Reverse8(b1), Reverse8(b0)) == Reverse(JoinBytes(b0, b1, b2, b3, b4, b5, b6, b7))
  {
    var n := JoinBytes(b0, b1, b2, b3, b4, b5, b6, b7);
    SplitBytes(b0, b1, b2, b3, b4, b5, b6, b7);
    ReversedBytes(n);
    JoinSplit(Reverse(n));
    hide Reverse; hide Reverse8; hide JoinBytes; hide ByteAt;
    assert ByteAt(n, 56) == b0;
    assert ByteAt(n, 48) == b1;
    assert ByteAt(n, 40) == b2;
    assert ByteAt(n, 32) == b3;
    assert ByteAt(n, 24) == b4;
    assert ByteAt(n, 16) == b5;
    assert ByteAt(n, 8) == b6;
    assert ByteAt(n, 0) == b7;
  }

  lemma ShiftBytes(b0: bv8, b1: bv8, b2: bv8, b3: bv8, b4: bv8, b5: bv8, b6: bv8, b7: bv8)
    ensures JoinBytes(ShiftByte(b0, b1), ShiftByte(b1, b2), ShiftByte(b2, b3), ShiftByte(b3, b4), ShiftByte(b4, b5), ShiftByte(b5, b6), ShiftByte(b6, b7), ShiftByte(b7, 0)) == Twice(JoinBytes(b0, b1, b2, b3, b4, b5, b6, b7))
    ensures Top(JoinBytes(b0, b1, b2, b3, b4, b5, b6, b7)) <==> b0 & 0x80 != 0
  {
  }

  lemma AddBytes(b0: bv8, b1: bv8, b2: bv8, b3: bv8, b4: bv8, b5: bv8, b6: bv8, b7: bv8, c0: bv8, c1: bv8, c2: bv8, c3: bv8, c4: bv8, c5: bv8, c6: bv8, c7: bv8)
    ensures JoinBytes(AddByte(b0, c0), AddByte(b1, c1), AddByte(b2, c2), AddByte(b3, c3), AddByte(b4, c4), AddByte(b5, c5), AddByte(b6, c6), AddByte(b7, c7)) == Add(JoinBytes(b0, b1, b2, b3, b4, b5, b6, b7), JoinBytes(c0, c1, c2, c3, c4, c5, c6, c7))
  {
  }

  lemma AddLast(b0: bv8, b1: bv8, b2: bv8, b3: bv8, b4: bv8, b5: bv8, b6: bv8, b7: bv8, c: bv8)
    ensures JoinBytes(b0, b1, b2, b3, b4, b5, b6, AddByte(b7, c)) == Add(JoinBytes(b0, b1, b2, b3, b4, b5, b6, b7), c as Elem)
  {
    AddBytes(b0, b1, b2, b3, b4, b5, b6, b7, 0, 0, 0, 0, 0, 0, 0, c);
    AddNothing(b0);
    AddNothing(b1);
    AddNothing(b2);
    AddNothing(b3);
    AddNothing(b4);
    AddNothing(b5);
    AddNothing(b6);
    JoinLast(c);
    hide AddByte; hide JoinBytes; hide Add;
  }

  lemma JoinLast(c: bv8)
    ensures JoinBytes(0, 0, 0, 0, 0, 0, 0, c) == c as Elem
  {
  }

  function ByteAt(n: Elem, shift: nat): bv8
    requires shift < 64
  {
    if shift == 56 then ((n >> 56) & 0xff) as bv8
    else if shift == 48 then ((n >> 48) & 0xff) as bv8
    else if shift == 40 then ((n >> 40) & 0xff) as bv8
    else if shift == 32 then ((n >> 32) & 0xff) as bv8
    else if shift == 24 then ((n >> 24) & 0xff) as bv8
    else if shift == 16 then ((n >> 16) & 0xff) as bv8
    else if shift == 8 then ((n >> 8) & 0xff) as bv8
    else (n & 0xff) as bv8
  }

  /** The bytes of an element. */
  function ToBytes(n: Elem): (s: Bytes)
    ensures |s| == BLOCK_LEN
  {
    [ByteAt(n, 56), ByteAt(n, 48), ByteAt(n, 40), ByteAt(n, 32), ByteAt(n, 24), ByteAt(n, 16), ByteAt(n, 8), ByteAt(n, 0)]
  }

  lemma SplitBytes(b0: bv8, b1: bv8, b2: bv8, b3: bv8, b4: bv8, b5: bv8, b6: bv8, b7: bv8)
    ensures ByteAt(JoinBytes(b0, b1, b2, b3, b4, b5, b6, b7), 56) == b0 && ByteAt(JoinBytes(b0, b1, b2, b3, b4, b5, b6, b7), 48) == b1 && ByteAt(JoinBytes(b0, b1, b2, b3, b4, b5, b6, b7), 40) == b2 && ByteAt(JoinBytes(b0, b1, b2, b3, b4, b5, b6, b7), 32) == b3 && ByteAt(JoinBytes(b0, b1, b2, b3, b4, b5, b6, b7), 24) == b4 && ByteAt(JoinBytes(b0, b1, b2, b3, b4, b5, b6, b7), 16) == b5 && ByteAt(JoinBytes(b0, b1, b2, b3, b4, b5, b6, b7), 8) == b6 && ByteAt(JoinBytes(b0, b1, b2, b3, b4, b5, b6, b7), 0) == b7
  {
  }

  lemma JoinSplit(n: Elem)
    ensures JoinBytes(ByteAt(n, 56), ByteAt(n, 48), ByteAt(n, 40), ByteAt(n, 32), ByteAt(n, 24), ByteAt(n, 16), ByteAt(n, 8), ByteAt(n, 0)) == n
  {
  }

  /** Different bytes make different elements. */
  lemma ToBytesBack(s: Bytes)
    requires |s| == BLOCK_LEN
    ensures ToBytes(Number(s)) == s
  {
    SplitBytes(s[0], s[1], s[2], s[3], s[4], s[5], s[6], s[7]);
    hide JoinBytes; hide ByteAt;
    var t := ToBytes(Number(s));
    assert t[0] == s[0] && t[1] == s[1] && t[2] == s[2] && t[3] == s[3] && t[4] == s[4] && t[5] == s[5] && t[6] == s[6] && t[7] == s[7];
  }
}
