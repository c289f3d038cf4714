/** Multiplication in GF(2^128) with tables, Common/GfMul.c. */
module GfMul128 {
  import opened GfBytes
  import opened GfSums
  import opened GfBits128
  import opened GfBlocks128

  const ROWS := 32 // of the table while it is built

  function G(): Group<Elem> { Group(0, Add) }

  lemma ZeroLaw(x: Elem)
    ensures G().add(x, G().zero) == x && G().add(G().zero, x) == x
  {
    ZeroIs();
    hide Add; hide G;
    AddIsAdd(x, 0);
    AddIsAdd(0, x);
    AddLaws(x, 0);
  }

  lemma AssocLaw(x: Elem, y: Elem, z: Elem)
    ensures G().add(G().add(x, y), z) == G().add(x, G().add(y, z))
  {
    hide Add; hide G;
    AddIsAdd(x, y);
    AddIsAdd(Add(x, y), z);
    AddIsAdd(y, z);
    AddIsAdd(x, Add(y, z));
    AddAssoc(x, y, z);
  }

  lemma ZeroLaws()
    ensures HasZero(G())
  {
    hide Add; hide G;
    forall x: Elem ensures G().add(x, G().zero) == x && G().add(G().zero, x) == x { ZeroLaw(x); }
  }

  lemma AssocLaws()
    ensures Associative(G())
  {
    hide Add; hide G;
    forall x: Elem, y: Elem, z: Elem ensures G().add(G().add(x, y), z) == G().add(x, G().add(y, z)) { AssocLaw(x, y, z); }
  }

  lemma Laws()
    ensures Lawful(G())
  {
    hide HasZero; hide Associative; hide G;
    ZeroLaws();
    AssocLaws();
  }

  lemma AddIsAdd(x: Elem, y: Elem)
    ensures G().add(x, y) == Add(x, y)
  {
    hide Add;
  }

  /** a multiplied by x n times, in the first order of bits. */
  function PowerX(a: Elem, n: nat): Elem { if n == 0 then a else TimesX(PowerX(a, n - 1)) }

  function TermsX(a: Elem): nat -> Elem { (n: nat) => PowerX(a, n) }

  /** The same in the second order. */
  function PowerD(a: Elem, n: nat): Elem { if n == 0 then a else Double(PowerD(a, n - 1)) }

  function TermsD(a: Elem): nat -> Elem { (n: nat) => PowerD(a, n) }

  // ---- Bits of a byte string ----

  /** IsBitSet128: bit 0 is the lowest bit of the last byte. */
  function IsBitSet(bit: nat, a: Bytes): bool
    requires |a| == BLOCK_LEN && bit < 128
  {
    Has(a[(127 - bit) / 8], (127 - bit) % 8)
  }

  function BitsOf(a: Bytes): nat -> bool
    requires |a| == BLOCK_LEN
  {
    (i: nat) => i < 128 && IsBitSet(i, a)
  }

  /** The product of a and b: the sum of the a x^i for which bit i of b is set. */
  function Product(a: Bytes, b: Bytes): (p: Bytes)
    requires |a| == |b| == BLOCK_LEN
    ensures |p| == BLOCK_LEN
  {
    ToBytes(Sum(G(), TermsD(Number(a)), BitsOf(b), 0, 128))
  }

  // ---- Shift and reduce ----

  lemma NumberAdd(s: Bytes, t: Bytes, u: Bytes)
    requires |s| == |t| == |u| == BLOCK_LEN && forall i :: 0 <= i < BLOCK_LEN ==> u[i] == AddByte(s[i], t[i])
    ensures Number(u) == Add(Number(s), Number(t))
  {
    AddBytes(s[0], s[1], s[2], s[3], s[4], s[5], s[6], s[7], s[8], s[9], s[10], s[11], s[12], s[13], s[14], s[15], t[0], t[1], t[2], t[3], t[4], t[5], t[6], t[7], t[8], t[9], t[10], t[11], t[12], t[13], t[14], t[15]);
    hide JoinBytes; hide Add; hide AddByte;
  }

  /** xor128 */
  method Xor(a: array<bv8>, b: array<bv8>)
    requires a.Length == b.Length == BLOCK_LEN && a != b
    modifies a
    ensures Number(a[..]) == Add(old(Number(a[..])), Number(b[..]))
  {
    hide Number; hide Add; hide AddByte;
    ghost var before := a[..];
    forall i | 0 <= i < BLOCK_LEN { a[i] := AddByte(a[i], b[i]); }
    NumberAdd(before, b[..], a[..]);
  }

  lemma NumberShift(s: Bytes, u: Bytes)
    requires |s| == |u| == BLOCK_LEN
    requires forall i :: 0 <= i < BLOCK_LEN - 1 ==> u[i] == ShiftByte(s[i], s[i + 1])
    requires u[BLOCK_LEN - 1] == ShiftByte(s[BLOCK_LEN - 1], 0)
    ensures Number(u) == Twice(Number(s)) && (Top(Number(s)) <==> s[0] & 0x80 != 0)
  {
    hide ShiftByte; hide JoinBytes; hide Twice; hide Top;
    ShiftBytes(s[0], s[1], s[2], s[3], s[4], s[5], s[6], s[7], s[8], s[9], s[10], s[11], s[12], s[13], s[14], s[15]);
    assert u[0] == ShiftByte(s[0], s[1]) && u[1] == ShiftByte(s[1], s[2]) && u[2] == ShiftByte(s[2], s[3]) && u[3] == ShiftByte(s[3], s[4]) && u[4] == ShiftByte(s[4], s[5]) && u[5] == ShiftByte(s[5], s[6]) && u[6] == ShiftByte(s[6], s[7]) && u[7] == ShiftByte(s[7], s[8]) && u[8] == ShiftByte(s[8], s[9]) && u[9] == ShiftByte(s[9], s[10]) && u[10] == ShiftByte(s[10], s[11]) && u[11] == ShiftByte(s[11], s[12]) && u[12] == ShiftByte(s[12], s[13]) && u[13] == ShiftByte(s[13], s[14]) && u[14] == ShiftByte(s[14], s[15]) && u[15] == ShiftByte(s[15], 0);
  }

  /** shl128 */
  method Shl(a: array<bv8>)
    requires a.Length == BLOCK_LEN
    modifies a
    ensures Number(a[..]) == Twice(old(Number(a[..])))
  {
    hide Number; hide Twice; hide ShiftByte; hide ShiftedIn; hide Carried;
    ghost var before := a[..];
    var x: bv8 := 0;
    var i := BLOCK_LEN;
    while i > 0
      invariant 0 <= i <= BLOCK_LEN
      invariant x == (if i == BLOCK_LEN then 0 else Carried(before[i]))
      invariant forall j :: 0 <= j < i ==> a[j] == before[j]
      invariant forall j :: i <= j < BLOCK_LEN - 1 ==> a[j] == ShiftByte(before[j], before[j + 1])
      invariant i < BLOCK_LEN ==> a[BLOCK_LEN - 1] == ShiftByte(before[BLOCK_LEN - 1], 0)
    {
      i := i - 1;
      var xx := Carried(a[i]);
      ShiftIs(before[i], if i + 1 < BLOCK_LEN then before[i + 1] else 0);
      a[i] := ShiftedIn(a[i], x);
      x := xx;
    }
    NumberShift(before, a[..]);
  }

  lemma TopOf(s: Bytes)
    requires |s| == BLOCK_LEN
    ensures Top(Number(s)) <==> s[0] & 0x80 != 0
  {
    ShiftBytes(s[0], s[1], s[2], s[3], s[4], s[5], s[6], s[7], s[8], s[9], s[10], s[11], s[12], s[13], s[14], s[15]);
    hide JoinBytes; hide Top;
  }

  lemma LastByte(s: Bytes, u: Bytes, c: bv8)
    requires |s| == |u| == BLOCK_LEN && u == s[BLOCK_LEN - 1 := AddByte(s[BLOCK_LEN - 1], c)]
    ensures Number(u) == Add(Number(s), c as Elem)
  {
    AddLast(s[0], s[1], s[2], s[3], s[4], s[5], s[6], s[7], s[8], s[9], s[10], s[11], s[12], s[13], s[14], s[15], c);
    hide JoinBytes; hide Add; hide AddByte;
  }

  lemma DoubleIs(n: Elem)
    ensures Double(n) == if Top(n) then Add(Twice(n), 0x87) else Twice(n)
  {
  }

  lemma ZeroNumber(s: Bytes)
    requires |s| == BLOCK_LEN && forall i :: 0 <= i < BLOCK_LEN ==> s[i] == 0
    ensures Number(s) == 0
  {
    assert JoinBytes(0, 0, 0, 0, 0, 0, 0, 0, 0, 0, 0, 0, 0, 0, 0, 0) == 0;
    hide JoinBytes;
  }

  /** One bit of GfMul128Basic: la is multiplied by x. */
  method DoubleInPlace(la: array<bv8>)
    requires la.Length == BLOCK_LEN
    modifies la
    ensures Number(la[..]) == Double(old(Number(la[..])))
  {
    hide Number; hide Double; hide Twice; hide Top; hide Add;
    TopOf(la[..]);
    DoubleIs(Number(la[..]));
    if la[0] & 0x80 != 0 {
      Shl(la);
      ghost var shifted := la[..];
      la[BLOCK_LEN - 1] := AddByte(la[BLOCK_LEN - 1], 0x87);
      LastByte(shifted, la[..], 0x87);
    } else {
      Shl(la);
    }
  }

  /** GfMul128Basic */
  method GfMulBasic(a: array<bv8>, b: array<bv8>, p: array<bv8>)
    requires a.Length == b.Length == p.Length == BLOCK_LEN && p != a && p != b
    modifies p
    ensures p[..] == Product(old(a[..]), old(b[..]))
  {
    hide Number; hide Double; hide Add; hide ToBytes; hide G; hide IsBitSet;
    var la := new bv8[BLOCK_LEN](i requires 0 <= i < a.Length reads a => a[i]);
    ghost var n := Number(a[..]);
    assert la[..] == a[..];
    forall i | 0 <= i < BLOCK_LEN { p[i] := 0; }
    ZeroNumber(p[..]);
    ZeroIs();
    assert la[..] == old(a[..]) && PowerD(n, 0) == n;
    var i: nat := 0;
    while i < 128
      invariant i <= 128 && a[..] == old(a[..]) && b[..] == old(b[..])
      invariant Number(la[..]) == PowerD(n, i)
      invariant Number(p[..]) == Sum(G(), TermsD(n), BitsOf(b[..]), 0, i)
    {
      SumStep(n, b[..], i);
      if IsBitSet(i, b[..]) { Xor(p, la); }
      DoubleInPlace(la);
      i := i + 1;
    }
    ToBytesBack(p[..]);
  }

  lemma ZeroIs()
    ensures G().zero == 0
  {
  }

  lemma SumStep(n: Elem, b: Bytes, i: nat)
    requires |b| == BLOCK_LEN && i < 128
    ensures var s := Sum(G(), TermsD(n), BitsOf(b), 0, i);
            Sum(G(), TermsD(n), BitsOf(b), 0, i + 1) == if IsBitSet(i, b) then Add(s, PowerD(n, i)) else s
  {
    hide Add; hide IsBitSet;
    AddIsAdd(Sum(G(), TermsD(n), BitsOf(b), 0, i), PowerD(n, i));
  }

  // ---- Building the table ----

  /** mul_x */
  method MulX(b: Block) returns (r: Block)
    ensures Value(r) == TimesX(Value(b))
  {
    var x0, x1, x2, x3 := Swap(b.w0), Swap(b.w1), Swap(b.w2), Swap(b.w3);
    JoinHalf(x0, x1, x2, x3, if OddWord(x3) then 0xe1000000 else 0);
    PolyAtTop();
    AddNothingElem(Half(Join(x0, x1, x2, x3)));
    hide Swap; hide Join; hide Half; hide Odd; hide OddWord; hide Add; hide AtTop; hide FirstHalf; hide NextHalf;
    var t := if OddWord(x3) then 0xe1000000 else 0; // gf_poly
    x3 := NextHalf(x2, x3);
    x2 := NextHalf(x1, x2);
    x1 := NextHalf(x0, x1);
    x0 := FirstHalf(x0, t);
    SwapTwice(x0);
    SwapTwice(x1);
    SwapTwice(x2);
    SwapTwice(x3);
    r := Block(Swap(x0), Swap(x1), Swap(x2), Swap(x3));
  }

  lemma AddNothingElem(n: Elem)
    ensures Add(n, 0) == n
  {
  }

  /** mul_lex8 */
  method MulX8(b: Block) returns (r: Block)
    ensures Value(r) == TimesX8(Value(b))
  {
    var w0, w1, w2, w3 := b.w0, b.w1, b.w2, b.w3;
    var t := LastLe(w3);
    LexStep(w0, w1, w2, w3);
    hide Swap; hide Join; hide TimesX8; hide GftLe; hide FirstLe; hide NextLe; hide LastLe;
    w3 := NextLe(w2, w3);
    w2 := NextLe(w1, w2);
    w1 := NextLe(w0, w1);
    w0 := FirstLe(w0, GftLe(t));
    r := Block(w0, w1, w2, w3);
  }

  lemma LexStep(w0: bv32, w1: bv32, w2: bv32, w3: bv32)
    ensures var t := LastLe(w3); Join(Swap(FirstLe(w0, GftLe(t))), Swap(NextLe(w0, w1)), Swap(NextLe(w1, w2)), Swap(NextLe(w2, w3))) == TimesX8(Join(Swap(w0), Swap(w1), Swap(w2), Swap(w3)))
  {
    hide Swap; hide Join; hide TimesX8; hide GftLe; hide GftBe; hide ReductionLow; hide ReductionHigh; hide Place; hide Add; hide DropByte;
    hide FirstLe; hide NextLe; hide LastLe; hide Pair; hide Small; hide LowByte; hide Widen;
    var t := LastLe(w3);
    JoinLe(w0, w1, w2, w3, 0, 0);
    GftIsReduction(t);
    LeIs(t);
    JoinLe(w0, w1, w2, w3, ReductionLow(t), ReductionHigh(t));
    ByteShift(Join(Swap(w0), Swap(w1), Swap(w2), Swap(w3)), t);
  }

  lemma LeIs(t: bv32)
    requires Small(ReductionLow(t), 256) && Small(ReductionHigh(t), 256)
    ensures GftLe(t) == ReductionLow(t) | (ReductionHigh(t) << 8) && GftBe(t) == Pair(ReductionLow(t), ReductionHigh(t))
    ensures ReductionLow(t) < 256 && ReductionHigh(t) < 256
  {
    hide ReductionLow; hide ReductionHigh;
  }

  predicate Sized(t: array2<Block>) { t.Length0 == ROWS && t.Length1 == 16 }

  function RowOf(t: array2<Block>, r: nat): (s: seq<Block>)
    requires Sized(t) && r < ROWS
    reads t
    ensures |s| == 16 && forall j: nat :: j < 16 ==> s[j] == t[r, j]
  {
    seq(16, j requires 0 <= j < 16 reads t => t[r, j])
  }

  /** All entries of row r of a table for x. */
  predicate IsRow(s: seq<Block>, r: nat, x: Elem)
    requires |s| == 16
  {
    forall j: nat :: j < 16 ==> Value(s[j]) == Entry(G(), TermsX(x), Base(r), j)
  }

  /** Entries 0, 1, 2, 4 and 8. */
  predicate HasSingles(s: seq<Block>, r: nat, x: Elem)
    requires |s| == 16
  {
    && Value(s[0]) == 0
    && Value(s[8]) == PowerX(x, Base(r)) && Value(s[4]) == PowerX(x, Base(r) + 1)
    && Value(s[2]) == PowerX(x, Base(r) + 2) && Value(s[1]) == PowerX(x, Base(r) + 3)
  }

  predicate RowDone(t: array2<Block>, r: nat, x: Elem)
    requires Sized(t) && r < ROWS
    reads t
  {
    IsRow(RowOf(t, r), r, x)
  }

  predicate SinglesDone(t: array2<Block>, r: nat, x: Elem)
    requires Sized(t) && r < ROWS
    reads t
  {
    HasSingles(RowOf(t, r), r, x)
  }

  lemma RowFrom(t: array2<Block>, r: nat, x: Elem)
    requires Sized(t) && r < ROWS && forall j: nat :: j < 16 ==> Value(t[r, j]) == Entry(G(), TermsX(x), Base(r), j)
    ensures RowDone(t, r, x)
  {
    hide Value; hide Entry; hide G; hide Base; hide TermsX;
    var s := RowOf(t, r);
    forall j: nat | j < 16 ensures Value(s[j]) == Entry(G(), TermsX(x), Base(r), j) { assert s[j] == t[r, j]; }
  }

  lemma EntryOfRow(t: array2<Block>, r: nat, x: Elem, j: nat)
    requires Sized(t) && r < ROWS && j < 16 && RowDone(t, r, x)
    ensures Value(t[r, j]) == Entry(G(), TermsX(x), Base(r), j)
  {
    hide Value; hide Entry; hide G; hide Base; hide TermsX;
    var s := RowOf(t, r);
    assert s[j] == t[r, j];
  }

  lemma SinglesOf(t: array2<Block>, r: nat, x: Elem)
    requires Sized(t) && r < ROWS
    ensures var n := Base(r);
            SinglesDone(t, r, x) <==>
            && Value(t[r, 0]) == 0
            && Value(t[r, 8]) == PowerX(x, n) && Value(t[r, 4]) == PowerX(x, n + 1)
            && Value(t[r, 2]) == PowerX(x, n + 2) && Value(t[r, 1]) == PowerX(x, n + 3)
  {
    hide Value; hide PowerX; hide Base;
    var s := RowOf(t, r);
    assert s[0] == t[r, 0] && s[1] == t[r, 1] && s[2] == t[r, 2] && s[4] == t[r, 4] && s[8] == t[r, 8];
  }

  twostate predicate OtherRows(t: array2<Block>, r: nat)
    requires Sized(t)
    reads t
  {
    forall i: nat, j: nat :: i < ROWS && i != r && j < 16 ==> t[i, j] == old(t[i, j])
  }

  lemma NextPower(x: Elem, n: nat)
    ensures PowerX(x, n + 1) == TimesX(PowerX(x, n))
  {
  }

  lemma EightPowers(x: Elem, n: nat)
    ensures PowerX(x, n + 8) == TimesX8(PowerX(x, n))
  {
    hide TimesX;
    assert PowerX(x, n + 1) == TimesX(PowerX(x, n));
    assert PowerX(x, n + 2) == TimesX(PowerX(x, n + 1));
    assert PowerX(x, n + 3) == TimesX(PowerX(x, n + 2));
    assert PowerX(x, n + 4) == TimesX(PowerX(x, n + 3));
    assert PowerX(x, n + 5) == TimesX(PowerX(x, n + 4));
    assert PowerX(x, n + 6) == TimesX(PowerX(x, n + 5));
    assert PowerX(x, n + 7) == TimesX(PowerX(x, n + 6));
  }

  /** Copies an entry to half its index, multiplied by x, from index 8 down to 1. */
  method Halvings(t: array2<Block>, r: nat, ghost x: Elem)
    requires Sized(t) && r < ROWS && Value(t[r, 8]) == PowerX(x, Base(r)) && Value(t[r, 0]) == 0
    modifies t
    ensures OtherRows(t, r) && SinglesDone(t, r, x)
  {
    hide Value; hide TimesX; hide PowerX; hide Base; hide SinglesDone;
    ghost var n := Base(r);
    NextPower(x, n);
    NextPower(x, n + 1);
    NextPower(x, n + 2);
    var j := 4;
    while j > 0
      invariant j == 4 || j == 2 || j == 1 || j == 0
      invariant OtherRows(t, r) && Value(t[r, 0]) == 0 && Value(t[r, 8]) == PowerX(x, n)
      invariant j < 4 ==> Value(t[r, 4]) == PowerX(x, n + 1)
      invariant j < 2 ==> Value(t[r, 2]) == PowerX(x, n + 2)
      invariant j < 1 ==> Value(t[r, 1]) == PowerX(x, n + 3)
    {
      t[r, j] := t[r, j + j];
      t[r, j] := MulX(t[r, j]);
      j := j / 2;
    }
    SinglesOf(t, r, x);
  }

  /** Row i from row i - 2, multiplied by x^8. */
  method FromRowBefore(t: array2<Block>, i: nat, ghost x: Elem)
    requires Sized(t) && 2 <= i < ROWS && RowDone(t, i - 2, x) && Value(t[i, 0]) == 0
    modifies t
    ensures OtherRows(t, i) && SinglesDone(t, i, x)
  {
    hide Value; hide TimesX8; hide PowerX; hide Base; hide Entry; hide G; hide SinglesDone; hide RowDone;
    ghost var n := Base(i - 2);
    BaseBefore(i);
    RowSingles(t, i - 2, x);
    SinglesOf(t, i - 2, x);
    var j := 8;
    while j > 0
      invariant j == 8 || j == 4 || j == 2 || j == 1 || j == 0
      invariant OtherRows(t, i) && Value(t[i, 0]) == 0
      invariant j < 8 ==> Value(t[i, 8]) == PowerX(x, n + 8)
      invariant j < 4 ==> Value(t[i, 4]) == PowerX(x, n + 9)
      invariant j < 2 ==> Value(t[i, 2]) == PowerX(x, n + 10)
      invariant j < 1 ==> Value(t[i, 1]) == PowerX(x, n + 11)
    {
      NextEntry(t, i, j, x, if j == 8 then n else if j == 4 then n + 1 else if j == 2 then n + 2 else n + 3);
      j := j / 2;
    }
    SinglesOf(t, i, x);
  }

  /** Entry j of row i, from entry j of row i - 2. */
  method NextEntry(t: array2<Block>, i: nat, j: nat, ghost x: Elem, ghost n: nat)
    requires Sized(t) && 2 <= i < ROWS && j < 16 && Value(t[i - 2, j]) == PowerX(x, n)
    modifies t
    ensures Value(t[i, j]) == PowerX(x, n + 8)
    ensures forall r: nat, k: nat :: r < ROWS && k < 16 && !(r == i && k == j) ==> t[r, k] == old(t[r, k])
  {
    hide Value; hide TimesX8; hide PowerX;
    EightPowers(x, n);
    t[i, j] := t[i - 2, j];
    t[i, j] := MulX8(t[i, j]);
  }

  lemma RowSingles(t: array2<Block>, r: nat, x: Elem)
    requires Sized(t) && r < ROWS && RowDone(t, r, x)
    ensures SinglesDone(t, r, x)
  {
    Singles(x, r);
    ZeroIs();
    SinglesOf(t, r, x);
    EntryOfRow(t, r, x, 0);
    EntryOfRow(t, r, x, 1);
    EntryOfRow(t, r, x, 2);
    EntryOfRow(t, r, x, 4);
    EntryOfRow(t, r, x, 8);
    hide Value; hide G; hide Entry; hide PowerX; hide Base; hide SinglesDone; hide TermsX;
  }

  lemma Singles(x: Elem, r: nat)
    ensures Entry(G(), TermsX(x), Base(r), 0) == G().zero
    ensures Entry(G(), TermsX(x), Base(r), 8) == PowerX(x, Base(r)) && Entry(G(), TermsX(x), Base(r), 4) == PowerX(x, Base(r) + 1)
    ensures Entry(G(), TermsX(x), Base(r), 2) == PowerX(x, Base(r) + 2) && Entry(G(), TermsX(x), Base(r), 1) == PowerX(x, Base(r) + 3)
  {
    hide Entry; hide G; hide PowerX; hide Base; hide Lawful;
    Laws();
    SingleEntries(G(), TermsX(x), Base(r));
    var f, n := TermsX(x), Base(r);
    assert f(n) == PowerX(x, n) && f(n + 1) == PowerX(x, n + 1) && f(n + 2) == PowerX(x, n + 2) && f(n + 3) == PowerX(x, n + 3);
  }

  lemma Closure(x: Elem, r: nat, j: nat, k: nat)
    requires (j == 2 || j == 4 || j == 8) && 0 < k < j
    ensures Entry(G(), TermsX(x), Base(r), j + k) == Add(Entry(G(), TermsX(x), Base(r), j), Entry(G(), TermsX(x), Base(r), k))
  {
    hide Entry; hide Add; hide Base; hide Lawful; hide TermsX;
    Laws();
    EntryClosure(G(), TermsX(x), Base(r), j, k);
    AddIsAdd(Entry(G(), TermsX(x), Base(r), j), Entry(G(), TermsX(x), Base(r), k));
  }

  /** Entry j + k from entries j and k. */
  method AddEntry(t: array2<Block>, i: nat, j: nat, k: nat, ghost x: Elem)
    requires Sized(t) && i < ROWS && (j == 2 || j == 4 || j == 8) && 0 < k < j
    requires Value(t[i, j]) == Entry(G(), TermsX(x), Base(i), j) && Value(t[i, k]) == Entry(G(), TermsX(x), Base(i), k)
    modifies t
    ensures Value(t[i, j + k]) == Entry(G(), TermsX(x), Base(i), j + k)
    ensures forall r: nat, v: nat :: r < ROWS && v < 16 && !(r == i && v == j + k) ==> t[r, v] == old(t[r, v])
  {
    hide Value; hide Entry; hide G; hide Base; hide Add; hide XorBlock; hide TermsX;
    Closure(x, i, j, k);
    ValueXor(t[i, j], t[i, k]);
    t[i, j + k] := XorBlock(t[i, j], t[i, k]);
  }

  /** All sums of the four entries of a row. */
  method CloseRow(t: array2<Block>, i: nat, ghost x: Elem)
    requires Sized(t) && i < ROWS && SinglesDone(t, i, x)
    modifies t
    ensures OtherRows(t, i) && RowDone(t, i, x)
  {
    hide Value; hide Entry; hide G; hide PowerX; hide Base; hide Add; hide XorBlock; hide TermsX; hide SinglesDone; hide RowDone;
    Singles(x, i);
    ZeroIs();
    SinglesOf(t, i, x);
    var j: nat := 2;
    while j < 16
      invariant j == 2 || j == 4 || j == 8 || j == 16
      invariant OtherRows(t, i)
      invariant forall v: nat :: v < j && v < 16 ==> Value(t[i, v]) == Entry(G(), TermsX(x), Base(i), v)
      invariant forall v: nat :: v == 4 || v == 8 ==> Value(t[i, v]) == Entry(G(), TermsX(x), Base(i), v)
      invariant Value(t[i, 2]) == Entry(G(), TermsX(x), Base(i), 2)
    {
      var k: nat := 1;
      while k < j
        invariant 1 <= k <= j
        invariant OtherRows(t, i)
        invariant forall v: nat :: v < j + k ==> Value(t[i, v]) == Entry(G(), TermsX(x), Base(i), v)
        invariant forall v: nat :: v == 4 || v == 8 ==> Value(t[i, v]) == Entry(G(), TermsX(x), Base(i), v)
      {
        AddEntry(t, i, j, k, x);
        k := k + 1;
      }
      j := j + j;
    }
    RowFrom(t, i, x);
  }

  /** compile_8k_table */
  method CompileTable(a: array<bv8>, t: array2<Block>)
    requires a.Length == BLOCK_LEN && Sized(t)
    modifies t
    ensures forall r: nat :: r < ROWS ==> RowDone(t, r, Number(a[..]))
  {
    hide Value; hide Number; hide PowerX; hide Base; hide BlockOf; hide IsRow; hide HasSingles; hide TimesX;
    ghost var s := a[..];
    ghost var x := Number(s);
    forall i, j | 0 <= i < ROWS && 0 <= j < 16 { t[i, j] := Block(0, 0, 0, 0); }
    ZeroValue();
    var i: nat := 0;
    while i < ROWS
      invariant i <= ROWS && a[..] == s
      invariant forall r: nat :: r < i ==> RowDone(t, r, x)
      invariant forall r: nat :: i <= r < ROWS && (r > 1 || i == 0) ==> Value(t[r, 0]) == 0
      invariant i == 1 ==> SinglesDone(t, 1, x)
    {
      ghost var before := seq(ROWS, r requires 0 <= r < ROWS reads t => RowOf(t, r));
      forall r: nat | r < i ensures IsRow(before[r], r, x) { assert RowDone(t, r, x); }
      if i == 0 {
        FirstRows(a, t, x);
      } else if i > 1 {
        FromRowBefore(t, i, x);
      }
      ghost var first := RowOf(t, 1);
      CloseRow(t, i, x);
      assert i == 0 ==> RowOf(t, 1) == first;
      forall r: nat | r < i ensures RowDone(t, r, x) { assert RowOf(t, r) == before[r]; }
      i := i + 1;
    }
  }

  /** The entries of rows 1 and 0 from which everything else is made. */
  method FirstRows(a: array<bv8>, t: array2<Block>, ghost x: Elem)
    requires a.Length == BLOCK_LEN && Sized(t) && x == Number(a[..]) && Value(t[0, 0]) == 0 && Value(t[1, 0]) == 0
    modifies t
    ensures SinglesDone(t, 0, x) && SinglesDone(t, 1, x)
    ensures forall i: nat, j: nat :: 2 <= i < ROWS && j < 16 ==> t[i, j] == old(t[i, j])
  {
    hide Value; hide Number; hide TimesX; hide BlockOf;
    ValueOfBytes(a[..]);
    FirstBases(x);
    hide Base; hide PowerX; hide HasSingles;
    t[1, 8] := BlockOf(a[..]);
    Halvings(t, 1, x);
    SinglesOf(t, 1, x);
    SecondRow(t, x);
  }

  method SecondRow(t: array2<Block>, ghost x: Elem)
    requires Sized(t) && Value(t[0, 0]) == 0 && SinglesDone(t, 1, x)
    modifies t
    ensures SinglesDone(t, 0, x) && SinglesDone(t, 1, x)
    ensures forall i: nat, j: nat :: 2 <= i < ROWS && j < 16 ==> t[i, j] == old(t[i, j])
  {
    hide Value; hide TimesX; hide HasSingles;
    SinglesOf(t, 1, x);
    FirstBases(x);
    hide Base; hide PowerX;
    ghost var first := RowOf(t, 1);
    t[0, 8] := t[1, 1];
    t[0, 8] := MulX(t[0, 8]);
    Halvings(t, 0, x);
    assert RowOf(t, 1) == first;
  }

  lemma FirstBases(x: Elem)
    ensures Base(1) == 0 && Base(0) == 4 && PowerX(x, 0) == x && PowerX(x, 4) == TimesX(PowerX(x, 3))
  {
    hide TimesX;
  }

  // ---- Bits in the opposite order ----

  /** MirrorBits128 */
  method MirrorBits(a: array<bv8>)
    requires a.Length == BLOCK_LEN
    modifies a
    ensures a[..] == Mirrored(old(a[..]))
  {
    hide Reverse8; hide Has; hide SetMask; hide ReversedPart; hide IsBitSet;
    ghost var before := a[..];
    var t := new bv8[BLOCK_LEN](_ => 0);
    assert ReversedPart(before[BLOCK_LEN - 1], 0) == 0 by { NothingReversed(before[BLOCK_LEN - 1]); }
    var i: nat := 0;
    while i < 128
      invariant i <= 128 && a[..] == before
      invariant forall q: nat :: q < i / 8 ==> t[q] == Reverse8(before[BLOCK_LEN - 1 - q])
      invariant i < 128 ==> t[i / 8] == ReversedPart(before[BLOCK_LEN - 1 - i / 8], i % 8)
      invariant forall q: nat :: i / 8 < q < BLOCK_LEN ==> t[q] == 0
    {
      BitPlaces(i);
      MirrorStep(before, i);
      if IsBitSet(i, a[..]) { t[i / 8] := SetMask(t[i / 8], i % 8); }
      i := i + 1;
    }
    forall q | 0 <= q < BLOCK_LEN { a[q] := t[q]; }
    assert a[..] == Mirrored(before);
  }

  lemma MirrorStep(a: Bytes, i: nat)
    requires |a| == BLOCK_LEN && i < 128
    ensures var b, k := a[BLOCK_LEN - 1 - i / 8], i % 8;
            && ReversedPart(b, k + 1) == (if IsBitSet(i, a) then SetMask(ReversedPart(b, k), k) else ReversedPart(b, k))
            && ReversedPart(b, 8) == Reverse8(b)
    ensures i / 8 + 1 < BLOCK_LEN ==> ReversedPart(a[BLOCK_LEN - 1 - (i / 8 + 1)], 0) == 0
  {
    hide Has; hide SetMask; hide Reverse8;
    BitPlaces(i);
    WholeByteReversed(a[BLOCK_LEN - 1 - i / 8]);
  }

  lemma BitPlaces(i: nat)
    requires i < 128
    ensures (127 - i) / 8 == BLOCK_LEN - 1 - i / 8 && (127 - i) % 8 == 7 - i % 8
    ensures if i % 8 < 7 then (i + 1) / 8 == i / 8 && (i + 1) % 8 == i % 8 + 1 else (i + 1) / 8 == i / 8 + 1 && (i + 1) % 8 == 0
  {
  }

  lemma MirroredNumber(s: Bytes)
    requires |s| == BLOCK_LEN
    ensures Number(Mirrored(s)) == Reverse(Number(s))
  {
    hide Reverse; hide Reverse8; hide JoinBytes;
    ReverseBytes(s[0], s[1], s[2], s[3], s[4], s[5], s[6], s[7], s[8], s[9], s[10], s[11], s[12], s[13], s[14], s[15]);
    var m := Mirrored(s);
    assert m[0] == Reverse8(s[15]) && m[1] == Reverse8(s[14]) && m[2] == Reverse8(s[13]) && m[3] == Reverse8(s[12]) && m[4] == Reverse8(s[11]) && m[5] == Reverse8(s[10]) && m[6] == Reverse8(s[9]) && m[7] == Reverse8(s[8]) && m[8] == Reverse8(s[7]) && m[9] == Reverse8(s[6]) && m[10] == Reverse8(s[5]) && m[11] == Reverse8(s[4]) && m[12] == Reverse8(s[3]) && m[13] == Reverse8(s[2]) && m[14] == Reverse8(s[1]) && m[15] == Reverse8(s[0]);
  }

  /** Reversal takes a sum over one order of bits to that over the other. */
  lemma {:induction false} ReversedSum(x: Elem, chosen: nat -> bool, start: nat, end: nat)
    ensures Reverse(Sum(G(), TermsX(x), chosen, start, end)) == Sum(G(), TermsD(Reverse(x)), chosen, start, end)
    decreases end
  {
    hide Reverse; hide Add; hide TermsX; hide TermsD;
    if end > start {
      ReversedSum(x, chosen, start, end - 1);
      var s, u := Sum(G(), TermsX(x), chosen, start, end - 1), TermsX(x)(end - 1);
      ReversedTerm(x, end - 1);
      ReverseAdd(s, u);
      AddIsAdd(s, u);
      AddIsAdd(Reverse(s), Reverse(u));
    } else {
      ReverseZero();
    }
  }

  lemma ReversedTerm(x: Elem, i: nat)
    ensures Reverse(TermsX(x)(i)) == TermsD(Reverse(x))(i)
  {
    hide Reverse; hide PowerX; hide PowerD;
    ReversedPower(x, i);
  }

  lemma ReverseZero()
    ensures Reverse(0) == 0
  {
  }

  lemma {:induction false} ReversedPower(x: Elem, n: nat)
    ensures Reverse(PowerX(x, n)) == PowerD(Reverse(x), n)
  {
    hide Reverse; hide TimesX; hide Double;
    if n > 0 {
      ReversedPower(x, n - 1);
      ReverseTimesX(PowerX(x, n - 1));
    }
  }

  // ---- The finished table ----

  /** Row m holds the multiples of a by the four bits of one half of a byte. */
  predicate HoldsTable(t: array2<Block>, a: Bytes)
    requires |a| == BLOCK_LEN
    reads t
  {
    && t.Length0 == t.Length1 == 16
    && forall m: nat, v: nat :: m < 16 && v < 16 ==> Value(t[m, v]) == Nibble(G(), TermsD(Number(a)), Base(15 - m), v)
  }

  lemma MirroredEntry(e: Block, x: Elem, a: Bytes, base: nat, j: nat)
    requires |a| == BLOCK_LEN && j < 16 && x == Reverse(Number(a)) && Value(e) == Entry(G(), TermsX(x), base, j)
    ensures Value(BlockOf(Mirrored(BytesOf(e)))) == Nibble(G(), TermsD(Number(a)), base, Mirrored4(j))
  {
    hide Value; hide Reverse; hide Number; hide BlockOf; hide BytesOf; hide Mirrored; hide Sum; hide TermsX; hide TermsD; hide G; hide Window; hide Mirrored4;
    var s := BytesOf(e);
    ValueOfBytes(Mirrored(s));
    MirroredNumber(s);
    ValueIsNumber(e);
    ReverseTwice(Number(a));
    ReversedSum(x, Window(Mirrored4(j), base), base, base + 4);
  }

  /** Row m of the finished table. */
  predicate FinishedRow(t: array2<Block>, m: nat, a: Bytes)
    requires |a| == BLOCK_LEN && t.Length0 == t.Length1 == 16 && m < 16
    reads t
  {
    forall v: nat :: v < 16 ==> Value(t[m, v]) == Nibble(G(), TermsD(Number(a)), Base(15 - m), v)
  }

  /** One row of the finished table from one row of the other, both indices and entries mirrored. */
  method MirrorRow(rows: array2<Block>, r: nat, t: array2<Block>, m: nat, ghost x: Elem, ghost a: Bytes)
    requires |a| == BLOCK_LEN && x == Reverse(Number(a)) && t.Length0 == t.Length1 == 16 && m < 16
    requires Sized(rows) && r == 15 - m && RowDone(rows, r, x) && rows != t
    modifies t
    ensures FinishedRow(t, m, a)
    ensures forall i: nat, v: nat :: i < 16 && v < 16 && i != m ==> t[i, v] == old(t[i, v])
  {
    hide Value; hide Reverse; hide Number; hide BlockOf; hide BytesOf; hide Mirrored; hide Nibble; hide Entry; hide TermsX; hide TermsD; hide G; hide Mirrored4; hide Base; hide IsRow;
    var j: nat := 0;
    while j < 16
      invariant j <= 16
      invariant forall i: nat, v: nat :: i < 16 && v < 16 && i != m ==> t[i, v] == old(t[i, v])
      invariant forall k: nat :: k < j ==> Value(t[m, Mirrored4(k)]) == Nibble(G(), TermsD(Number(a)), Base(r), Mirrored4(k))
    {
      var jm := Mirrored4(j);
      var entry := rows[r, j];
      EntryOfRow(rows, r, x, j);
      var bytes := new bv8[BLOCK_LEN](k requires 0 <= k < BLOCK_LEN => BytesOf(entry)[k]);
      assert bytes[..] == BytesOf(entry);
      MirrorBits(bytes);
      MirroredEntry(entry, x, a, Base(r), j);
      MirrorMirror(j);
      forall k: nat | k < j ensures Mirrored4(k) != jm { MirrorMirror(k); }
      t[m, jm] := BlockOf(bytes[..]);
      j := j + 1;
    }
    forall v: nat | v < 16 ensures Value(t[m, v]) == Nibble(G(), TermsD(Number(a)), Base(r), v) {
      MirrorMirror(v);
      var k := Mirrored4(v);
      assert k < 16 && Mirrored4(k) == v;
    }
  }

  /** Gf128Tab64Init; allocation does not fail. */
  method TabInit(a: array<bv8>, t: array2<Block>)
    requires a.Length == BLOCK_LEN && t.Length0 == t.Length1 == 16
    modifies t
    ensures HoldsTable(t, a[..])
  {
    hide Value; hide Reverse; hide Number; hide Mirrored; hide Nibble; hide TermsD; hide G; hide Base; hide IsRow;
    var am := new bv8[BLOCK_LEN](i requires 0 <= i < a.Length reads a => a[i]);
    assert am[..] == a[..];
    MirrorBits(am);
    MirroredNumber(a[..]);
    ghost var mirrored := am[..];
    ghost var x := Number(mirrored);
    var rows := new Block[ROWS, 16];
    CompileTable(am, rows);
    assert am[..] == mirrored;
    var i: nat := 16;
    ghost var s := a[..];
    while i < 32
      invariant 16 <= i <= 32 && a[..] == s
      invariant forall r: nat :: r < ROWS ==> RowDone(rows, r, x)
      invariant forall m: nat :: m < i - 16 ==> FinishedRow(t, m, s)
    {
      ghost var before := seq(16, m requires 0 <= m < 16 reads t => FinishedRow(t, m, s));
      MirrorRow(rows, 31 - i, t, i - 16, x, s);
      forall m: nat | m < i - 16 ensures FinishedRow(t, m, s) { assert before[m]; }
      i := i + 1;
    }
    forall m: nat, v: nat | m < 16 && v < 16 ensures Value(t[m, v]) == Nibble(G(), TermsD(Number(s)), Base(15 - m), v) {
      assert FinishedRow(t, m, s);
    }
  }

  // ---- Multiplication with the table ----

  /** Eight bytes as an operand of sixteen, the high ones zero. */
  function Operand(b: Bytes): (s: Bytes)
    requires |b| == 8
    ensures |s| == BLOCK_LEN
  {
    [0, 0, 0, 0, 0, 0, 0, 0] + b
  }

  /** What byte n of b contributes to the product. */
  function ByteSum(a: Bytes, b: Bytes, n: nat): Elem
    requires |a| == BLOCK_LEN && |b| == 8 && n < 8
  {
    Sum(G(), TermsD(Number(a)), BitsOf(Operand(b)), 8 * (7 - n), 8 * (8 - n))
  }

  lemma OperandBits(b: Bytes, n: nat, k: nat)
    requires |b| == 8 && n < 8 && k < 8
    ensures BitsOf(Operand(b))(8 * (7 - n) + k) == Has(b[n], 7 - k)
  {
    hide Has;
    var i := 8 * (7 - n) + k;
    assert 127 - i == 8 * (BLOCK_LEN - 8 + n) + (7 - k);
    assert (127 - i) / 8 == BLOCK_LEN - 8 + n && (127 - i) % 8 == 7 - k;
  }

  lemma NibbleBit(b: Bytes, n: nat, v: nat, low: bool, k: nat)
    requires |b| == 8 && n < 8 && k < 4 && v == if low then LowNibble(b[n]) else HighNibble(b[n])
    ensures var base := 8 * (7 - n) + if low then 0 else 4;
            Window(v, base)(base + k) == BitsOf(Operand(b))(base + k)
  {
    hide Operand; hide BitsOf; hide Has; hide BitOf; hide LowNibble; hide HighNibble; hide Window;
    NibbleBits(b[n]);
    if low {
      WindowBit(v, 8 * (7 - n), k);
      OperandBits(b, n, k);
    } else {
      WindowBit(v, 8 * (7 - n) + 4, k);
      OperandBits(b, n, k + 4);
    }
    if k == 0 { } else if k == 1 { } else if k == 2 { } else { }
  }

  lemma NibbleOfByte(f: nat -> Elem, b: Bytes, n: nat, v: nat, low: bool)
    requires |b| == 8 && n < 8 && v == if low then LowNibble(b[n]) else HighNibble(b[n])
    ensures var base := 8 * (7 - n) + if low then 0 else 4;
            Nibble(G(), f, base, v) == Sum(G(), f, BitsOf(Operand(b)), base, base + 4)
  {
    hide Operand; hide BitsOf; hide Has; hide BitOf; hide LowNibble; hide HighNibble; hide Sum; hide G;
    var base := 8 * (7 - n) + if low then 0 else 4;
    forall i: nat | base <= i < base + 4 ensures Window(v, base)(i) == BitsOf(Operand(b))(i) { NibbleBit(b, n, v, low, i - base); }
    hide Window;
    SumSame(G(), f, Window(v, base), BitsOf(Operand(b)), base, base + 4);
  }

  lemma ByteSumIs(a: Bytes, b: Bytes, n: nat)
    requires |a| == BLOCK_LEN && |b| == 8 && n < 8
    ensures var lo, hi := LowNibble(b[n]), HighNibble(b[n]);
            ByteSum(a, b, n)
            == Add(Nibble(G(), TermsD(Number(a)), Base(15 - 2 * n), lo), Nibble(G(), TermsD(Number(a)), Base(15 - (2 * n + 1)), hi))
  {
    hide Number; hide TermsD; hide Operand; hide BitsOf; hide LowNibble; hide HighNibble; hide Add; hide Sum; hide Lawful; hide Base; hide Nibble; hide G;
    var f, base := TermsD(Number(a)), 8 * (7 - n);
    RowsOfByte(n);
    NibbleOfByte(f, b, n, LowNibble(b[n]), true);
    NibbleOfByte(f, b, n, HighNibble(b[n]), false);
    Laws();
    SumSplit(G(), f, BitsOf(Operand(b)), base, base + 4, base + 8);
    AddIsAdd(Nibble(G(), f, base, LowNibble(b[n])), Nibble(G(), f, base + 4, HighNibble(b[n])));
  }

  /** Adds both halves of byte n. */
  method XorByte(r: Block, t: array2<Block>, n: nat, b: array<bv8>, ghost a: Bytes) returns (r': Block)
    requires |a| == BLOCK_LEN && HoldsTable(t, a) && n < 8 && b.Length == 8
    ensures Value(r') == Add(Value(r), ByteSum(a, b[..], n))
  {
    hide Value; hide Number; hide TermsD; hide Nibble; hide Base; hide ByteSum; hide LowNibble; hide HighNibble; hide XorBlock; hide Add; hide G;
    var lo, hi := LowNibble(b[n]), HighNibble(b[n]);
    NibbleBits(b[n]);
    ByteSumIs(a, b[..], n);
    var x, y := t[2 * n, lo], t[2 * n + 1, hi];
    ValueXor(r, x);
    ValueXor(XorBlock(r, x), y);
    AddAssoc(Value(r), Value(x), Value(y));
    r' := XorBlock(XorBlock(r, x), y);
  }

  /** The bytes up to n that have been added, besides byte 7. */
  function Added(a: Bytes, b: Bytes, n: nat): Elem
    requires |a| == BLOCK_LEN && |b| == 8 && n <= 7
  {
    Add(ByteSum(a, b, 7), Sum(G(), TermsD(Number(a)), BitsOf(Operand(b)), 8 * (8 - n), 64))
  }

  lemma NothingAdded(a: Bytes, b: Bytes)
    requires |a| == BLOCK_LEN && |b| == 8
    ensures Added(a, b, 0) == ByteSum(a, b, 7)
  {
    AddLaws(ByteSum(a, b, 7), 0);
    hide Add; hide ByteSum;
  }

  lemma NextAdded(a: Bytes, b: Bytes, n: nat)
    requires |a| == BLOCK_LEN && |b| == 8 && n < 7
    ensures Add(Added(a, b, n), ByteSum(a, b, n)) == Added(a, b, n + 1)
  {
    hide Add; hide Number; hide TermsD; hide BitsOf; hide Operand; hide Sum; hide Lawful;
    Laws();
    SumSplit(G(), TermsD(Number(a)), BitsOf(Operand(b)), 8 * (7 - n), 8 * (8 - n), 64);
    var s, rest := ByteSum(a, b, n), Sum(G(), TermsD(Number(a)), BitsOf(Operand(b)), 8 * (8 - n), 64);
    AddIsAdd(s, rest);
    AddAssoc(ByteSum(a, b, 7), rest, s);
    AddLaws(rest, s);
  }

  /** A byte that is zero contributes nothing. */
  lemma ZeroByte(a: Bytes, b: Bytes, n: nat)
    requires |a| == BLOCK_LEN && |b| == 8 && n < 8 && b[n] == 0
    ensures ByteSum(a, b, n) == 0
  {
    hide Number; hide TermsD; hide BitsOf; hide Operand; hide Has;
    forall i: nat | 8 * (7 - n) <= i < 8 * (8 - n) ensures !BitsOf(Operand(b))(i) {
      OperandBits(b, n, i - 8 * (7 - n));
      NoBits(7 - (i - 8 * (7 - n)));
    }
    ZeroIs();
    SumOfNothing(G(), TermsD(Number(a)), BitsOf(Operand(b)), 8 * (7 - n), 8 * (8 - n));
  }

  lemma SkippedByte(a: Bytes, b: Bytes, n: nat)
    requires |a| == BLOCK_LEN && |b| == 8 && n < 7 && b[n] == 0
    ensures Added(a, b, n + 1) == Added(a, b, n)
  {
    hide Add; hide ByteSum; hide Added;
    ZeroByte(a, b, n);
    NextAdded(a, b, n);
    AddNothingElem(Added(a, b, n));
  }

  lemma AllAdded(a: Bytes, b: Bytes)
    requires |a| == BLOCK_LEN && |b| == 8
    ensures ToBytes(Added(a, b, 7)) == Product(a, Operand(b))
  {
    hide Add; hide Number; hide TermsD; hide BitsOf; hide Operand; hide Sum; hide ToBytes; hide Lawful;
    Laws();
    var f, c := TermsD(Number(a)), BitsOf(Operand(b));
    SumSplit(G(), f, c, 0, 8, 64);
    SumSplit(G(), f, c, 0, 64, 128);
    AddIsAdd(Sum(G(), f, c, 0, 8), Sum(G(), f, c, 8, 64));
    AddIsAdd(Sum(G(), f, c, 0, 64), Sum(G(), f, c, 64, 128));
    forall i: nat | 64 <= i < 128 ensures !c(i) { HighBitsClear(b, i); }
    SumOfNothing(G(), f, c, 64, 128);
    ZeroIs();
    AddNothingElem(Sum(G(), f, c, 0, 64));
  }

  lemma HighBitsClear(b: Bytes, i: nat)
    requires |b| == 8 && 64 <= i < 128
    ensures !BitsOf(Operand(b))(i)
  {
    assert (127 - i) / 8 < 8;
    NoBits((127 - i) % 8);
    hide Has;
  }

  lemma ToBytesValue(b: Block)
    ensures ToBytes(Value(b)) == BytesOf(b)
  {
    ValueIsNumber(b);
    ToBytesBack(BytesOf(b));
    hide Value; hide BytesOf; hide Number; hide ToBytes;
  }

  /** Main result: Gf128MulBy64Tab with a table for a computes the product that shift and reduce gives, for all operands. */
  method MulTab(b: array<bv8>, p: array<bv8>, t: array2<Block>, ghost a: Bytes)
    requires |a| == BLOCK_LEN && HoldsTable(t, a) && b.Length == 8 && p.Length == BLOCK_LEN && p != b
    modifies p
    ensures p[..] == Product(a, Operand(old(b[..])))
  {
    hide Value; hide Number; hide TermsD; hide Nibble; hide Base; hide ByteSum; hide Added; hide LowNibble; hide HighNibble; hide Add; hide G;
    hide HoldsTable; hide BytesOf; hide Product; hide Operand; hide ToBytes;
    ghost var s := b[..];
    NothingAdded(a, s);
    var r := FirstByte(t, b, a);
    r := HighBytes3(r, t, b, a);
    r := AddByteOnce(r, t, 3, b, a);
    r := AddByteOnce(r, t, 4, b, a);
    r := AddByteOnce(r, t, 5, b, a);
    r := AddByteOnce(r, t, 6, b, a);
    ToBytesValue(r);
    AllAdded(a, s);
    var bytes := BytesOf(r);
    forall i | 0 <= i < BLOCK_LEN { p[i] := bytes[i]; }
    assert p[..] == bytes;
  }

  method AddByteOnce(r: Block, t: array2<Block>, n: nat, b: array<bv8>, ghost a: Bytes) returns (r': Block)
    requires |a| == BLOCK_LEN && HoldsTable(t, a) && b.Length == 8 && n < 7 && Value(r) == Added(a, b[..], n)
    ensures Value(r') == Added(a, b[..], n + 1)
  {
    hide Value; hide HoldsTable; hide Added; hide Add; hide ByteSum;
    NextAdded(a, b[..], n);
    r' := XorByte(r, t, n, b, a);
  }

  /** Bytes 0 to 2, which are mostly zero and then are skipped. */
  method HighBytes3(r: Block, t: array2<Block>, b: array<bv8>, ghost a: Bytes) returns (r': Block)
    requires |a| == BLOCK_LEN && HoldsTable(t, a) && b.Length == 8 && Value(r) == Added(a, b[..], 0)
    ensures Value(r') == Added(a, b[..], 3)
  {
    hide Value; hide HoldsTable; hide Added;
    r' := r;
    if b[0] != 0 || b[1] != 0 {
      r' := AddByteOnce(r', t, 0, b, a);
      r' := AddByteOnce(r', t, 1, b, a);
    } else {
      SkippedByte(a, b[..], 0);
      SkippedByte(a, b[..], 1);
    }
    if b[2] != 0 {
      r' := AddByteOnce(r', t, 2, b, a);
    } else {
      SkippedByte(a, b[..], 2);
    }
  }

  /** One comparison of GfMulSelfTest, on any operands instead of one of 256 pairs: it always succeeds. */
  method SelfTestOnce(a: array<bv8>, b: array<bv8>) returns (result: bool)
    requires a.Length == BLOCK_LEN && b.Length == 8
    ensures result
  {
    hide HoldsTable; hide Product;
    var table := new Block[16, 16];
    TabInit(a, table);
    var p1 := new bv8[BLOCK_LEN];
    MulTab(b, p1, table, a[..]);
    var operand := new bv8[BLOCK_LEN](i requires 0 <= i < BLOCK_LEN reads b => Operand(b[..])[i]);
    assert operand[..] == Operand(b[..]);
    var p2 := new bv8[BLOCK_LEN];
    GfMulBasic(a, operand, p2);
    result := p1[..] == p2[..];
  }

  /** Byte 7 comes first. */
  method FirstByte(t: array2<Block>, b: array<bv8>, ghost a: Bytes) returns (r: Block)
    requires |a| == BLOCK_LEN && HoldsTable(t, a) && b.Length == 8
    ensures Value(r) == ByteSum(a, b[..], 7)
  {
    hide Value; hide Number; hide TermsD; hide Nibble; hide Base; hide ByteSum; hide LowNibble; hide HighNibble; hide XorBlock; hide Add; hide G;
    var lo, hi := LowNibble(b[7]), HighNibble(b[7]);
    NibbleBits(b[7]);
    ByteSumIs(a, b[..], 7);
    r := t[14, lo];
    ValueXor(r, t[15, hi]);
    r := XorBlock(r, t[15, hi]);
  }
}
