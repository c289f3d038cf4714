/** Bit-level facts about elements of GF(2^64) for Common/GfMul.c.  The functions have names so that
    proofs elsewhere can take these facts as given. */
module GfBits64 {
  import opened GfBytes
  import Words

  type Elem = bv64

  function Add(n: Elem, m: Elem): Elem { n ^ m }

  lemma AddLaws(n: Elem, m: Elem)
    ensures Add(n, m) == Add(m, n) && Add(n, 0) == n && Add(0, n) == n && Add(n, n) == 0
  {
  }

  lemma AddAssoc(n: Elem, m: Elem, k: Elem)
    ensures Add(Add(n, m), k) == Add(n, Add(m, k))
  {
    calc {
      Add(Add(n, m), k);
      Add(n ^ m, k);
      (n ^ m) ^ k;
      n ^ (m ^ k);
      Add(n, m ^ k);
      Add(n, Add(m, k));
    }
  }

  /** What is added to one or to both of two summands. */
  lemma AddThird(n: Elem, m: Elem, c: Elem)
    ensures Add(Add(n, c), m) == Add(Add(n, m), c) && Add(n, Add(m, c)) == Add(Add(n, m), c)
    ensures Add(Add(n, c), Add(m, c)) == Add(n, m)
  {
    AddLaws(n, c);
    AddLaws(m, c);
    AddLaws(c, c);
    AddLaws(n, 0);
    AddLaws(0, m);
    AddAssoc(n, c, m);
    AddAssoc(n, m, c);
    AddAssoc(n, c, Add(c, m));
    AddAssoc(c, c, m);
    hide Add;
  }

  // ---- The two orders of bits ----

  // In the first order (mul_x, the tables while they are built) the coefficient of x^0 is the highest
  // bit; in the second one (GfMul64Basic, the finished tables) it is the lowest bit.

  function Half(n: Elem): Elem { n >> 1 }

  function Odd(n: Elem): bool { n & 1 == 1 }

  const POLY: Elem := 0xd800000000000000

  /** Multiplication by x in the first order. */
  function TimesX(n: Elem): Elem { if Odd(n) then Add(Half(n), POLY) else Half(n) }

  function Twice(n: Elem): Elem { n << 1 }

  function Top(n: Elem): bool { n & 0x8000000000000000 != 0 }

  /** Multiplication by x in the second order. */
  function Double(n: Elem): Elem { if Top(n) then Add(Twice(n), 0x1b) else Twice(n) }

  /** All bits in the opposite order. */
  function Reverse(n: Elem): Elem {
    var n1 := ((n >> 1) & 0x5555555555555555) | ((n & 0x5555555555555555) << 1);
    var n2 := ((n1 >> 2) & 0x3333333333333333) | ((n1 & 0x3333333333333333) << 2);
    var n3 := ((n2 >> 4) & 0x0f0f0f0f0f0f0f0f) | ((n2 & 0x0f0f0f0f0f0f0f0f) << 4);
    var n4 := ((n3 >> 8) & 0x00ff00ff00ff00ff) | ((n3 & 0x00ff00ff00ff00ff) << 8);
    var n5 := ((n4 >> 16) & 0x0000ffff0000ffff) | ((n4 & 0x0000ffff0000ffff) << 16);
    (n5 >> 32) | (n5 << 32)
  }

  lemma ReverseTwice(n: Elem)
    ensures Reverse(Reverse(n)) == n
  {
  }

  lemma ReverseAdd(n: Elem, m: Elem)
    ensures Reverse(Add(n, m)) == Add(Reverse(n), Reverse(m))
  {
  }

  lemma ReverseHalf(n: Elem)
    ensures Reverse(Half(n)) == Twice(Reverse(n))
    ensures Odd(n) <==> Top(Reverse(n))
    ensures Reverse(POLY) == 0x1b && Reverse(0) == 0
  {
  }

  /** Reversal takes one multiplication by x to the other. */
  lemma ReverseTimesX(n: Elem)
    ensures Reverse(TimesX(n)) == Double(Reverse(n))
  {
    hide Reverse; hide Add; hide Half; hide Odd; hide Twice; hide Top;
    ReverseHalf(n);
    ReverseAdd(Half(n), POLY);
  }

  lemma HalfAdd(n: Elem, m: Elem)
    ensures Half(Add(n, m)) == Add(Half(n), Half(m))
    ensures Odd(Add(n, m)) <==> Odd(n) != Odd(m)
    ensures Half(0) == 0 && !Odd(0)
  {
  }

  lemma TimesXAdd(n: Elem, m: Elem)
    ensures TimesX(Add(n, m)) == Add(TimesX(n), TimesX(m)) && TimesX(0) == 0
  {
    hide Half; hide Odd; hide Add;
    HalfAdd(n, m);
    AddThird(Half(n), Half(m), POLY);
  }

  // ---- Multiplication by x^8 ----

  function TimesX8(n: Elem): Elem { TimesX(TimesX(TimesX(TimesX(TimesX(TimesX(TimesX(TimesX(n)))))))) }

  lemma TimesX8Add(n: Elem, m: Elem)
    ensures TimesX8(Add(n, m)) == Add(TimesX8(n), TimesX8(m)) && TimesX8(0) == 0
  {
    hide TimesX; hide Add;
    TimesXAdd(n, m);
    var n1, m1 := TimesX(n), TimesX(m);
    TimesXAdd(n1, m1);
    var n2, m2 := TimesX(n1), TimesX(m1);
    TimesXAdd(n2, m2);
    var n3, m3 := TimesX(n2), TimesX(m2);
    TimesXAdd(n3, m3);
    var n4, m4 := TimesX(n3), TimesX(m3);
    TimesXAdd(n4, m4);
    var n5, m5 := TimesX(n4), TimesX(m4);
    TimesXAdd(n5, m5);
    var n6, m6 := TimesX(n5), TimesX(m5);
    TimesXAdd(n6, m6);
    var n7, m7 := TimesX(n6), TimesX(m6);
    TimesXAdd(n7, m7);
  }

  function LowByte(n: Elem): Elem { n & 0xff }

  function WithoutByte(n: Elem): Elem { n ^ LowByte(n) }

  function DropByte(n: Elem): Elem { n >> 8 }

  /** The low byte taken out, an element is what eight doublings make of the rest. */
  lemma HighBytes(n: Elem)
    ensures WithoutByte(n) == Twice(Twice(Twice(Twice(Twice(Twice(Twice(Twice(DropByte(n)))))))))
  {
    var p := n >> 8;
    calc {
      WithoutByte(n);
      n ^ (n & 0xff);
      ((((((((n >> 8) << 1) << 1) << 1) << 1) << 1) << 1) << 1) << 1;
      Twice(Twice(Twice(Twice(Twice(Twice(Twice(Twice(DropByte(n)))))))));
    }
  }

  function Below(n: Elem, limit: Elem): bool { n < limit }

  lemma SmallRest(n: Elem)
    ensures Below(DropByte(n), 0x100000000000000)
  {
  }

  lemma Halved(p: Elem, limit: Elem, next: Elem)
    requires Below(p, limit) && limit <= 0x4000000000000000 && next == limit << 1
    ensures TimesX(Twice(p)) == p && Below(Twice(p), next)
  {
  }

  lemma EightSteps(p0: Elem, p1: Elem, p2: Elem, p3: Elem, p4: Elem, p5: Elem, p6: Elem, p7: Elem, p8: Elem)
    requires TimesX(p8) == p7 && TimesX(p7) == p6 && TimesX(p6) == p5 && TimesX(p5) == p4
    requires TimesX(p4) == p3 && TimesX(p3) == p2 && TimesX(p2) == p1 && TimesX(p1) == p0
    ensures TimesX8(p8) == p0
  {
    hide TimesX;
  }

  /** Eight halvings of an element whose low byte is zero do not need the polynomial. */
  lemma EightHalves(n: Elem)
    ensures TimesX8(WithoutByte(n)) == DropByte(n)
  {
    HighBytes(n);
    SmallRest(n);
    hide TimesX; hide TimesX8; hide Twice; hide DropByte; hide WithoutByte; hide Below;
    var p := DropByte(n);
    var p1 := Twice(p);
    var p2 := Twice(p1);
    var p3 := Twice(p2);
    var p4 := Twice(p3);
    var p5 := Twice(p4);
    var p6 := Twice(p5);
    var p7 := Twice(p6);
    Halved(p, 0x100000000000000, 0x200000000000000);
    Halved(p1, 0x200000000000000, 0x400000000000000);
    Halved(p2, 0x400000000000000, 0x800000000000000);
    Halved(p3, 0x800000000000000, 0x1000000000000000);
    Halved(p4, 0x1000000000000000, 0x2000000000000000);
    Halved(p5, 0x2000000000000000, 0x4000000000000000);
    Halved(p6, 0x4000000000000000, 0x8000000000000000);
    HalvedLast(p7, 0x8000000000000000);
    EightSteps(p, p1, p2, p3, p4, p5, p6, p7, Twice(p7));
  }

  lemma HalvedLast(p: Elem, limit: Elem)
    requires Below(p, limit) && limit == 0x8000000000000000
    ensures TimesX(Twice(p)) == p
  {
  }

  /** One entry of gft_64: the two bytes that eight multiplications of a byte bring in, as the macro xp gives them. */
  function ReductionLow(i: bv32): bv32 {
    Sum8(Pick(i, 0x80, 0xd8), Pick(i, 0x40, 0x6c), Pick(i, 0x20, 0x36), Pick(i, 0x10, 0x1b),
         Pick(i, 0x08, 0x0d), Pick(i, 0x04, 0x06), Pick(i, 0x02, 0x03), Pick(i, 0x01, 0x01))
  }

  function ReductionHigh(i: bv32): bv32 {
    Sum8(Pick(i, 0x80, 0x00), Pick(i, 0x40, 0x00), Pick(i, 0x20, 0x00), Pick(i, 0x10, 0x00),
         Pick(i, 0x08, 0x80), Pick(i, 0x04, 0xc0), Pick(i, 0x02, 0x60), Pick(i, 0x01, 0xb0))
  }

  // ---- The table of reductions ----

  function GftLe(i: bv32): bv32 { ReductionLow(i) | (ReductionHigh(i) << 8) }

  function GftBe(i: bv32): bv32 { Pair(ReductionLow(i), ReductionHigh(i)) }

  function Place(t: bv32): Elem { (t as Elem) << 48 }

  function Widen(i: bv32): Elem { i as Elem }

  function Sum8(t: bv32, u: bv32, v: bv32, w: bv32, x: bv32, y: bv32, z: bv32, s: bv32): bv32 {
    Words.Xor(Words.Xor(Words.Xor(Words.Xor(Words.Xor(Words.Xor(Words.Xor(t, u), v), w), x), y), z), s)
  }

  function AddAll(t: Elem, u: Elem, v: Elem, w: Elem, x: Elem, y: Elem, z: Elem, s: Elem): Elem {
    Add(Add(Add(Add(Add(Add(Add(t, u), v), w), x), y), z), s)
  }

  lemma ByteIsBits(i: bv32)
    requires i < 256
    ensures Widen(i) == AddAll(Widen(Bit(i, 0x80)), Widen(Bit(i, 0x40)), Widen(Bit(i, 0x20)), Widen(Bit(i, 0x10)), Widen(Bit(i, 0x08)), Widen(Bit(i, 0x04)), Widen(Bit(i, 0x02)), Widen(Bit(i, 0x01)))
  {
  }

  lemma PairsPlaced(l: bv32, h: bv32, l': bv32, h': bv32)
    requires Small(h, 256) && Small(h', 256)
    ensures Place(Pair(Words.Xor(l, l'), Words.Xor(h, h'))) == Add(Place(Pair(l, h)), Place(Pair(l', h'))) && Small(Words.Xor(h, h'), 256)
  {
    WordsPlaced(l, h, l', h');
    PairIs(Words.Xor(l, l'), Words.Xor(h, h'), l ^ l', h ^ h');
    PairIs(l, h, l, h);
    PairIs(l', h', l', h');
    hide Small; hide Place; hide Pair; hide Words.Xor;
    AddIs(Place(Pair(l, h)), Place(Pair(l', h')));
  }

  lemma AddIs(n: Elem, m: Elem)
    ensures Add(n, m) == n ^ m
  {
  }

  lemma PairIs(l: bv32, h: bv32, l': bv32, h': bv32)
    requires l == l' && h == h'
    ensures Place(Pair(l, h)) == ((h' | (l' << 8)) as Elem) << 48
  {
  }

  lemma WordsPlaced(l: bv32, h: bv32, l': bv32, h': bv32)
    requires Small(h, 256) && Small(h', 256)
    ensures (((h ^ h') | ((l ^ l') << 8)) as Elem) << 48
         == (((h | (l << 8)) as Elem) << 48) ^ (((h' | (l' << 8)) as Elem) << 48)
    ensures Small(Words.Xor(h, h'), 256)
  {
    RawPlaced(l, h, l', h');
  }

  lemma RawPlaced(l: bv32, h: bv32, l': bv32, h': bv32)
    requires h < 256 && h' < 256
    ensures (((h ^ h') | ((l ^ l') << 8)) as Elem) << 48
         == (((h | (l << 8)) as Elem) << 48) ^ (((h' | (l' << 8)) as Elem) << 48)
    ensures h ^ h' < 256
  {
  }

  lemma SumsPlaced(l0: bv32, l1: bv32, l2: bv32, l3: bv32, l4: bv32, l5: bv32, l6: bv32, l7: bv32, h0: bv32, h1: bv32, h2: bv32, h3: bv32, h4: bv32, h5: bv32, h6: bv32, h7: bv32)
    requires Small(h0, 256) && Small(h1, 256) && Small(h2, 256) && Small(h3, 256) && Small(h4, 256) && Small(h5, 256) && Small(h6, 256) && Small(h7, 256)
    ensures Place(Pair(Sum8(l0, l1, l2, l3, l4, l5, l6, l7), Sum8(h0, h1, h2, h3, h4, h5, h6, h7))) == AddAll(Place(Pair(l0, h0)), Place(Pair(l1, h1)), Place(Pair(l2, h2)), Place(Pair(l3, h3)), Place(Pair(l4, h4)), Place(Pair(l5, h5)), Place(Pair(l6, h6)), Place(Pair(l7, h7)))
  {
    hide Place; hide Pair; hide Words.Xor; hide Add; hide Small;
    PairsPlaced(l0, h0, l1, h1);
    var x1, y1 := Words.Xor(l0, l1), Words.Xor(h0, h1);
    PairsPlaced(x1, y1, l2, h2);
    var x2, y2 := Words.Xor(x1, l2), Words.Xor(y1, h2);
    PairsPlaced(x2, y2, l3, h3);
    var x3, y3 := Words.Xor(x2, l3), Words.Xor(y2, h3);
    PairsPlaced(x3, y3, l4, h4);
    var x4, y4 := Words.Xor(x3, l4), Words.Xor(y3, h4);
    PairsPlaced(x4, y4, l5, h5);
    var x5, y5 := Words.Xor(x4, l5), Words.Xor(y4, h5);
    PairsPlaced(x5, y5, l6, h6);
    var x6, y6 := Words.Xor(x5, l6), Words.Xor(y5, h6);
    PairsPlaced(x6, y6, l7, h7);
    var x7, y7 := Words.Xor(x6, l7), Words.Xor(y6, h7);
  }

  lemma SumsFit(l0: bv32, l1: bv32, l2: bv32, l3: bv32, l4: bv32, l5: bv32, l6: bv32, l7: bv32)
    requires l0 < 256 && l1 < 256 && l2 < 256 && l3 < 256 && l4 < 256 && l5 < 256 && l6 < 256 && l7 < 256
    ensures Sum8(l0, l1, l2, l3, l4, l5, l6, l7) < 256
  {
    assert l0 ^ l1 ^ l2 ^ l3 ^ l4 ^ l5 ^ l6 ^ l7 < 256;
  }

  lemma TimesX8Sum(t: Elem, u: Elem, v: Elem, w: Elem, x: Elem, y: Elem, z: Elem, s: Elem)
    ensures TimesX8(AddAll(t, u, v, w, x, y, z, s))
         == AddAll(TimesX8(t), TimesX8(u), TimesX8(v), TimesX8(w), TimesX8(x), TimesX8(y), TimesX8(z), TimesX8(s))
  {
    hide TimesX8; hide Add;
    var r := Add(t, u);
    TimesX8Add(t, u);
    TimesX8Add(r, v);
    r := Add(r, v);
    TimesX8Add(r, w);
    r := Add(r, w);
    TimesX8Add(r, x);
    r := Add(r, x);
    TimesX8Add(r, y);
    r := Add(r, y);
    TimesX8Add(r, z);
    r := Add(r, z);
    TimesX8Add(r, s);
  }

  lemma Basis()
    ensures TimesX8(Widen(0x80)) == Place(Pair(0xd8, 0x00))
    ensures TimesX8(Widen(0x40)) == Place(Pair(0x6c, 0x00))
    ensures TimesX8(Widen(0x20)) == Place(Pair(0x36, 0x00))
    ensures TimesX8(Widen(0x10)) == Place(Pair(0x1b, 0x00))
    ensures TimesX8(Widen(0x08)) == Place(Pair(0x0d, 0x80))
    ensures TimesX8(Widen(0x04)) == Place(Pair(0x06, 0xc0))
    ensures TimesX8(Widen(0x02)) == Place(Pair(0x03, 0x60))
    ensures TimesX8(Widen(0x01)) == Place(Pair(0x01, 0xb0))
  {
  }

  lemma BitPlaced(i: bv32, mask: bv32, low: bv32, high: bv32)
    requires TimesX8(Widen(mask)) == Place(Pair(low, high)) && (Bit(i, mask) == 0 || Bit(i, mask) == mask)
    ensures TimesX8(Widen(Bit(i, mask))) == Place(Pair(Pick(i, mask, low), Pick(i, mask, high)))
  {
    hide TimesX8;
    TimesX8Add(0, 0);
    if Bit(i, mask) == 0 { PlacedZero(); }
  }

  lemma PlacedZero()
    ensures Place(Pair(0, 0)) == 0 && Widen(0) == 0
  {
  }

  lemma BitsPlaced(i: bv32)
    ensures TimesX8(Widen(Bit(i, 0x80))) == Place(Pair(Pick(i, 0x80, 0xd8), Pick(i, 0x80, 0x00)))
    ensures TimesX8(Widen(Bit(i, 0x40))) == Place(Pair(Pick(i, 0x40, 0x6c), Pick(i, 0x40, 0x00)))
    ensures TimesX8(Widen(Bit(i, 0x20))) == Place(Pair(Pick(i, 0x20, 0x36), Pick(i, 0x20, 0x00)))
    ensures TimesX8(Widen(Bit(i, 0x10))) == Place(Pair(Pick(i, 0x10, 0x1b), Pick(i, 0x10, 0x00)))
    ensures TimesX8(Widen(Bit(i, 0x08))) == Place(Pair(Pick(i, 0x08, 0x0d), Pick(i, 0x08, 0x80)))
    ensures TimesX8(Widen(Bit(i, 0x04))) == Place(Pair(Pick(i, 0x04, 0x06), Pick(i, 0x04, 0xc0)))
    ensures TimesX8(Widen(Bit(i, 0x02))) == Place(Pair(Pick(i, 0x02, 0x03), Pick(i, 0x02, 0x60)))
    ensures TimesX8(Widen(Bit(i, 0x01))) == Place(Pair(Pick(i, 0x01, 0x01), Pick(i, 0x01, 0xb0)))
  {
    hide TimesX8; hide Place; hide Widen; hide Bit; hide Pick; hide Pair;
    Basis();
    OneBit(i);
    BitPlaced(i, 0x80, 0xd8, 0x00);
    BitPlaced(i, 0x40, 0x6c, 0x00);
    BitPlaced(i, 0x20, 0x36, 0x00);
    BitPlaced(i, 0x10, 0x1b, 0x00);
    BitPlaced(i, 0x08, 0x0d, 0x80);
    BitPlaced(i, 0x04, 0x06, 0xc0);
    BitPlaced(i, 0x02, 0x03, 0x60);
    BitPlaced(i, 0x01, 0x01, 0xb0);
  }

  /** The table holds what eight multiplications by x make of a byte. */
  lemma GftIsReduction(i: bv32)
    requires i < 256
    ensures Small(GftBe(i), 0x10000) && Small(ReductionLow(i), 256) && Small(ReductionHigh(i), 256)
    ensures Place(GftBe(i)) == TimesX8(Widen(i))
  {
    ByteIsBits(i);
    PicksFit(i);
    SumsFit(Pick(i, 0x80, 0xd8), Pick(i, 0x40, 0x6c), Pick(i, 0x20, 0x36), Pick(i, 0x10, 0x1b), Pick(i, 0x08, 0x0d), Pick(i, 0x04, 0x06), Pick(i, 0x02, 0x03), Pick(i, 0x01, 0x01));
    SumsFit(Pick(i, 0x80, 0x00), Pick(i, 0x40, 0x00), Pick(i, 0x20, 0x00), Pick(i, 0x10, 0x00), Pick(i, 0x08, 0x80), Pick(i, 0x04, 0xc0), Pick(i, 0x02, 0x60), Pick(i, 0x01, 0xb0));
    hide TimesX8; hide Place; hide Widen; hide Bit; hide Pick; hide AddAll; hide Sum8; hide Pair;
    TimesX8Sum(Widen(Bit(i, 0x80)), Widen(Bit(i, 0x40)), Widen(Bit(i, 0x20)), Widen(Bit(i, 0x10)), Widen(Bit(i, 0x08)), Widen(Bit(i, 0x04)), Widen(Bit(i, 0x02)), Widen(Bit(i, 0x01)));
    BitsPlaced(i);
    SumsPlaced(Pick(i, 0x80, 0xd8), Pick(i, 0x40, 0x6c), Pick(i, 0x20, 0x36), Pick(i, 0x10, 0x1b), Pick(i, 0x08, 0x0d), Pick(i, 0x04, 0x06), Pick(i, 0x02, 0x03), Pick(i, 0x01, 0x01), Pick(i, 0x80, 0x00), Pick(i, 0x40, 0x00), Pick(i, 0x20, 0x00), Pick(i, 0x10, 0x00), Pick(i, 0x08, 0x80), Pick(i, 0x04, 0xc0), Pick(i, 0x02, 0x60), Pick(i, 0x01, 0xb0));
    SmallPair(ReductionLow(i), ReductionHigh(i));
  }

  lemma PicksFit(i: bv32)
    ensures Small(Pick(i, 0x80, 0xd8), 256) && Small(Pick(i, 0x80, 0x00), 256)
    ensures Small(Pick(i, 0x40, 0x6c), 256) && Small(Pick(i, 0x40, 0x00), 256)
    ensures Small(Pick(i, 0x20, 0x36), 256) && Small(Pick(i, 0x20, 0x00), 256)
    ensures Small(Pick(i, 0x10, 0x1b), 256) && Small(Pick(i, 0x10, 0x00), 256)
    ensures Small(Pick(i, 0x08, 0x0d), 256) && Small(Pick(i, 0x08, 0x80), 256)
    ensures Small(Pick(i, 0x04, 0x06), 256) && Small(Pick(i, 0x04, 0xc0), 256)
    ensures Small(Pick(i, 0x02, 0x03), 256) && Small(Pick(i, 0x02, 0x60), 256)
    ensures Small(Pick(i, 0x01, 0x01), 256) && Small(Pick(i, 0x01, 0xb0), 256)
  {
  }

  /** A shift by a byte, with the reduction of the byte that is shifted out, multiplies by x^8. */
  lemma ByteShift(n: Elem, i: bv32)
    requires i < 256 && LowByte(n) == Widen(i)
    ensures Add(DropByte(n), Place(GftBe(i))) == TimesX8(n)
  {
    GftIsReduction(i);
    EightHalves(n);
    TimesX8Add(WithoutByte(n), LowByte(n));
    ByteParts(n);
    hide TimesX8; hide GftBe; hide Place; hide Widen; hide LowByte; hide WithoutByte; hide DropByte; hide Add;
  }

  lemma ByteParts(n: Elem)
    ensures n == Add(WithoutByte(n), LowByte(n))
  {
    assert n == (n ^ (n & 0xff)) ^ (n & 0xff);
  }
}
