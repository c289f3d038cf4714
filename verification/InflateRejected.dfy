/** Two streams that the format accepts and the program refuses. */
module InflateRejected {
  import opened Arithmetic
  import opened InflateBits
  import opened InflateHuffman
  import opened InflateFormat
  import opened InflateBuffer
  import opened Inflate

  /** Literals only: 267 literal and length codes, and one distance code of no bits. */
  const LITERALS_ONLY: seq<Byte> := [85, 192, 129, 0, 0, 0, 0, 0, 16, 255, 213, 2, 4, 0, 0]

  /** Literals only: 257 literal and length codes, and 31 distance codes of no bits. */
  const MANY_DISTANCES: seq<Byte> := [5, 222, 129, 0, 0, 0, 0, 0, 16, 255, 213, 82, 4, 0, 0]

  function StreamOf(bytes: seq<Byte>): Stream { Stream(Value(bytes), 8 * |bytes|) }

  // ---- Reading a stream piece by piece ----

  lemma LowDropOf(x: nat, n: nat, v: nat, rest: nat)
    requires v < Pow2(n) && x == v + Pow2(n) * rest
    ensures Low(x, n) == v && Drop(x, n) == rest
  {
    hide Pow2;
    DivModUnique(rest, v, Pow2(n));
  }

  lemma Take(str: Stream, p: nat, n: nat, v: nat, rest: nat)
    requires p + n <= str.bits && v < Pow2(n) && str.From(p) == v + Pow2(n) * rest
    ensures ReadBits(str, p, n) == Got(v, p + n) && str.From(p + n) == rest
  {
    hide Pow2; hide Low; hide Drop;
    DropDrop(str.value, p, n);
    LowDropOf(str.From(p), n, v, rest);
  }

  /** Two symbols have codes, of one bit. */
  predicate TwoCodes(lens: Lengths, s: nat, t: nat) {
    s < t < |lens| && forall i :: 0 <= i < |lens| ==> lens[i] == if i == s || i == t then 1 else 0
  }

  lemma {:induction false} CountTwo(lens: Lengths, s: nat, t: nat, n: nat, k: nat)
    requires TwoCodes(lens, s, t) && n <= |lens| && k > 0
    ensures CountUpTo(lens, n, k) == (if k > 1 then 0 else (if s < n then 1 else 0) + if t < n then 1 else 0)
    decreases n
  {
    if n > 0 { CountTwo(lens, s, t, n - 1, k); }
  }

  lemma EndOfTwo(lens: Lengths, s: nat, t: nat)
    requires TwoCodes(lens, s, t)
    ensures EndCode(lens, BMAX) == Pow2(BMAX)
  {
    hide CountUpTo;
    CountTwo(lens, s, t, |lens|, 1);
    assert FirstCode(lens, 0) == 0 && Count(lens, 0) == 0;
    assert FirstCode(lens, 1) == 0 && EndCode(lens, 1) == 2;
    forall k | 1 < k <= BMAX ensures Count(lens, k) == 0 { CountTwo(lens, s, t, |lens|, k); }
    assert Pow2(BMAX) == 2 * Pow2(BMAX - 1);
    hide *;
    EndCodeGrows(lens, 1, BMAX);
  }

  lemma TwoCodesComplete(lens: Lengths, s: nat, t: nat)
    requires TwoCodes(lens, s, t)
    ensures Acceptable(lens)
  {
    hide EndCode; hide Pow2;
    EndOfTwo(lens, s, t);
    assert lens[s] == 1;
  }

  lemma TakeSymbol(str: Stream, lens: Lengths, s: nat, t: nat, p: nat, bit: nat, rest: nat)
    requires TwoCodes(lens, s, t) && bit < 2
    requires p + 1 <= str.bits && str.From(p) == bit + 2 * rest
    ensures ReadSymbol(str, lens, p) == Got(if bit == 0 then s else t, p + 1) && str.From(p + 1) == rest
  {
    var x, u := str.From(p), if bit == 0 then s else t;
    OneBit(x);
    Take(str, p, 1, bit, rest);
    CountTwo(lens, s, t, u, 1);
    assert FirstCode(lens, 0) == 0 && Count(lens, 0) == 0;
    assert FirstCode(lens, 1) == 0;
    assert Matches(lens, u, x);
    DecodeIsMatching(lens, x, u);
  }

  // ---- The parts of the block ----

  /** The lengths of code length codes: symbols 1 and 18 have codes of one bit. */
  function TwoLengths(): (lens: CodeLengthLengths)
  {
    NoLengths()[18 := 1][1 := 1]
  }

  /** The next length of a code length code. */
  lemma TakeLength(str: Stream, p: nat, n: nat, j: nat, v: nat, lens: CodeLengthLengths, rest: nat)
    requires j < n <= 19 && v < 8
    requires p + 3 <= str.bits && str.From(p) == v + 8 * rest
    ensures ReadCodeLengthLengths(str, p, n, j, lens) == ReadCodeLengthLengths(str, p + 3, n, j + 1, lens[BORDER[j] := v])
    ensures str.From(p + 3) == rest
  {
    Powers();
    hide *;
    Take(str, p, 3, v, rest);
    NextLength(str, p, n, j, v, lens);
  }

  lemma NextLength(str: Stream, p: nat, n: nat, j: nat, v: nat, lens: CodeLengthLengths)
    requires j < n <= 19 && v < 8 && ReadBits(str, p, 3) == Got(v, p + 3)
    ensures ReadCodeLengthLengths(str, p, n, j, lens) == ReadCodeLengthLengths(str, p + 3, n, j + 1, lens[BORDER[j] := v])
  {
    hide ReadBits;
    assert v % 8 == v;
  }

  /** k lengths that are zero. */
  lemma {:induction false} TakeZeros(str: Stream, p: nat, n: nat, j: nat, k: nat, lens: CodeLengthLengths, rest: nat)
    requires j + k <= n <= 19 && forall i :: j <= i < j + k ==> lens[BORDER[i]] == 0
    requires p + 3 * k <= str.bits && str.From(p) == Pow2(3 * k) * rest
    ensures ReadCodeLengthLengths(str, p, n, j, lens) == ReadCodeLengthLengths(str, p + 3 * k, n, j + k, lens)
    ensures str.From(p + 3 * k) == rest
    decreases k
  {
    hide Low; hide Drop; hide ReadCodeLengthLengths;
    if k > 0 {
      Pow2Add(3, 3 * (k - 1));
      assert Pow2(3) == 8;
      hide Pow2;
      MulAssoc(8, Pow2(3 * (k - 1)), rest);
      TakeLength(str, p, n, j, 0, lens, Pow2(3 * (k - 1)) * rest);
      assert lens[BORDER[j] := 0] == lens;
      TakeZeros(str, p + 3, n, j + 1, k - 1, lens, rest);
    } else {
      assert Pow2(0) == 1;
    }
  }

  /** What follows in the stream: the lengths of code length codes, and after them `rest`. */
  function LengthsThen(rest: nat): nat { 64 * (1 + 8 * (0x400_0000_0000 * (1 + 8 * rest))) }

  lemma Powers()
    ensures Pow2(3) == 8 && Pow2(6) == 64 && Pow2(7) == 128 && Pow2(42) == 0x400_0000_0000
  {
    assert Pow2(6) == 64 && Pow2(7) == 128;
    Pow2Add(6, 6); Pow2Add(12, 12); Pow2Add(24, 12); Pow2Add(36, 6);
  }

  lemma TakeLengths(str: Stream, p: nat, rest: nat)
    requires p + 54 <= str.bits && str.From(p) == LengthsThen(rest)
    ensures ReadCodeLengthLengths(str, p, 18, 0, NoLengths()) == Got(TwoLengths(), p + 54)
    ensures str.From(p + 54) == rest
  {
    hide Pow2; hide Low; hide Drop; hide ReadCodeLengthLengths;
    var none, two := NoLengths(), TwoLengths();
    var one := none[18 := 1];
    var r := 0x400_0000_0000 * (1 + 8 * rest);
    Powers();
    OrderOfLengths();
    TakeZeros(str, p, 18, 0, 2, none, 1 + 8 * r);
    TakeLength(str, p + 6, 18, 2, 1, none, r);
    TakeZeros(str, p + 9, 18, 3, 14, one, 1 + 8 * rest);
    TakeLength(str, p + 51, 18, 17, 1, one, rest);
    LastLength(str, p + 54);
  }

  /** The length that is not sent. */
  lemma LastLength(str: Stream, p: nat)
    ensures ReadCodeLengthLengths(str, p, 18, 18, TwoLengths()) == Got(TwoLengths(), p)
  {
    OrderOfLengths();
    assert TwoLengths()[BORDER[18] := 0] == TwoLengths();
    assert ReadCodeLengthLengths(str, p, 18, 19, TwoLengths()) == Got(TwoLengths(), p);
  }

  lemma OrderOfLengths()
    ensures BORDER[2] == 18 && BORDER[17] == 1 && BORDER[18] == 15
    ensures forall i :: 3 <= i < 17 ==> BORDER[i] !in {1, 18}
  {
    assert BORDER[3..17] == [0, 8, 7, 9, 6, 10, 5, 11, 4, 12, 3, 13, 2, 14];
  }

  // ---- Code lengths: a one, 255 zeros, a one, and zeros ----

  function Sent(v: nat): (lens: SentLengths)
    ensures |lens| == 268 + v
  {
    seq(268 + v, i => if i == 0 || i == 256 then 1 else 0)
  }

  lemma TakeOne(str: Stream, clens: Lengths, p: nat, n: nat, lens: SentLengths, rest: nat)
    requires TwoCodes(clens, 1, 18) && |lens| < n
    requires p + 1 <= str.bits && str.From(p) == 2 * rest
    ensures ReadLengths(str, clens, p, n, lens) == ReadLengths(str, clens, p + 1, n, lens + [1])
    ensures str.From(p + 1) == rest
  {
    hide Low; hide Drop; hide ReadSymbol; hide TwoCodes;
    TakeSymbol(str, clens, 1, 18, p, 0, rest);
    assert ReadRun(str, clens, p, lens) == Got([1], p + 1);
  }

  lemma TakeZeroRun(str: Stream, clens: Lengths, p: nat, n: nat, lens: SentLengths, v: nat, rest: nat)
    requires TwoCodes(clens, 1, 18) && |lens| + 11 + v <= n && v < 128
    requires p + 8 <= str.bits && str.From(p) == 1 + 2 * (v + 128 * rest)
    ensures ReadLengths(str, clens, p, n, lens) == ReadLengths(str, clens, p + 8, n, lens + Repeated(0, 11 + v))
    ensures str.From(p + 8) == rest
  {
    Powers();
    hide Low; hide Drop; hide ReadSymbol; hide Pow2; hide TwoCodes;
    TakeSymbol(str, clens, 1, 18, p, 1, v + 128 * rest);
    Take(str, p + 1, 7, v, rest);
    assert ReadRun(str, clens, p, lens) == Got(Repeated(0, 11 + v), p + 8);
  }

  function RunsThen(v: nat, rest: nat): nat {
    2 * (1 + 2 * (127 + 128 * (1 + 2 * (106 + 128 * (2 * (1 + 2 * (v + 128 * rest)))))))
  }

  lemma TakeRuns(str: Stream, p: nat, v: nat, rest: nat)
    requires v < 128 && p + 26 <= str.bits && str.From(p) == RunsThen(v, rest)
    ensures ReadLengths(str, TwoLengths(), p, 268 + v, []) == Got(Sent(v), p + 26)
    ensures str.From(p + 26) == rest
  {
    hide Low; hide Drop; hide ReadLengths;
    var clens, n := TwoLengths(), 268 + v;
    var r := 2 * (1 + 2 * (v + 128 * rest));
    var l2 := [1] + Repeated(0, 138);
    var l3 := l2 + Repeated(0, 117);
    var l4 := l3 + [1];
    TakeOne(str, clens, p, n, [], 1 + 2 * (127 + 128 * (1 + 2 * (106 + 128 * r))));
    assert [] + [1] == [1];
    TakeZeroRun(str, clens, p + 1, n, [1], 127, 1 + 2 * (106 + 128 * r));
    TakeZeroRun(str, clens, p + 9, n, l2, 106, r);
    TakeOne(str, clens, p + 17, n, l3, 1 + 2 * (v + 128 * rest));
    TakeZeroRun(str, clens, p + 18, n, l4, v, rest);
    assert l4 + Repeated(0, 11 + v) == Sent(v);
    AllRead(str, clens, p + 26, Sent(v));
  }

  lemma AllRead(str: Stream, clens: Lengths, p: nat, lens: SentLengths)
    ensures ReadLengths(str, clens, p, |lens|, lens) == Got(lens, p)
  {
  }

  // ---- The block ----

  /** What follows the header of the block. */
  function AfterHeader(hlit: nat, hdist: nat): nat
    requires 10 <= hlit + hdist
  {
    hlit + 32 * (hdist + 32 * (14 + 16 * LengthsThen(RunsThen(hlit + hdist - 10, 2))))
  }

  /** A block of `hlit` and `hdist`, whose one literal is zero. */
  function BlockOf(hlit: nat, hdist: nat): nat
    requires 10 <= hlit + hdist
  {
    1 + 2 * (2 + 4 * AfterHeader(hlit, hdist))
  }

  lemma TakeSizes(str: Stream, p: nat, hlit: nat, hdist: nat, rest: nat)
    requires hlit <= 29 && hdist < 32 && p + 14 <= str.bits
    requires str.From(p) == hlit + 32 * (hdist + 32 * (14 + 16 * rest))
    ensures ReadSizes(str, p) == Got(Sizes(257 + hlit, 1 + hdist, 18), p + 14)
    ensures str.From(p + 14) == rest
  {
    assert Pow2(4) == 16 && Pow2(5) == 32;
    hide Low; hide Drop; hide Pow2;
    Take(str, p, 5, hlit, hdist + 32 * (14 + 16 * rest));
    Take(str, p + 5, 5, hdist, 14 + 16 * rest);
    Take(str, p + 10, 4, 14, rest);
  }

  lemma CodesOfBlock(hlit: nat, hdist: nat)
    requires 10 <= hlit + hdist
    ensures var codes := SplitCodes(Sent(hlit + hdist - 10), 257 + hlit);
            TwoCodes(codes.lit, 0, 256) && AllZero(codes.dist) && AcceptableCodes(codes)
  {
    var codes := SplitCodes(Sent(hlit + hdist - 10), 257 + hlit);
    assert TwoCodes(codes.lit, 0, 256) && AllZero(codes.dist);
    TwoCodesComplete(codes.lit, 0, 256);
  }

  lemma TakeData(str: Stream, lit: Lengths, dist: Lengths, p: nat)
    requires TwoCodes(lit, 0, 256) && p + 2 <= str.bits && str.From(p) == 2
    ensures ReadCodes(str, lit, dist, p, []) == Got([0], p + 2)
  {
    hide ReadSymbol; hide TwoCodes; hide Drop;
    TakeSymbol(str, lit, 0, 256, p, 0, 1);
    TakeSymbol(str, lit, 0, 256, p + 1, 1, 0);
    assert [] + [0] == [0];
    assert ReadCodes(str, lit, dist, p + 1, [0]) == Got([0], p + 2);
    assert ReadCodes(str, lit, dist, p, []) == ReadCodes(str, lit, dist, p + 1, [0]);
  }

  lemma Header(str: Stream, hlit: nat, hdist: nat)
    requires 10 <= hlit + hdist && 3 <= str.bits && str.value == BlockOf(hlit, hdist)
    ensures ReadBits(str, 0, 1) == Got(1, 1) && ReadBits(str, 1, 2) == Got(2, 3)
    ensures str.From(3) == AfterHeader(hlit, hdist)
  {
    assert Pow2(0) == 1 && Pow2(1) == 2 && Pow2(2) == 4;
    var x := AfterHeader(hlit, hdist);
    assert str.value == 1 + 2 * (2 + 4 * x);
    hide *;
    LowDropOf(str.value, 0, 0, str.value);
    Take(str, 0, 1, 1, 2 + 4 * x);
    Take(str, 1, 2, 2, x);
  }

  lemma DynamicCodes(str: Stream, hlit: nat, hdist: nat)
    requires hlit <= 29 && hdist < 32 && 10 <= hlit + hdist && 99 <= str.bits && str.From(3) == AfterHeader(hlit, hdist)
    ensures ReadDynamicCodes(str, 3) == Got(SplitCodes(Sent(hlit + hdist - 10), 257 + hlit), 97) && str.From(97) == 2
  {
    hide Low; hide Drop; hide ReadLengths; hide ReadCodeLengthLengths; hide ReadSizes; hide Acceptable;
    hide AcceptableCodes; hide RunsThen; hide LengthsThen; hide Sent; hide SplitCodes; hide TwoLengths;
    var v := hlit + hdist - 10;
    var runs := RunsThen(v, 2);
    TakeSizes(str, 3, hlit, hdist, LengthsThen(runs));
    TakeLengths(str, 17, runs);
    TwoLengthsAcceptable();
    TakeRuns(str, 71, v, 2);
    CodesOfBlock(hlit, hdist);
  }

  lemma DynamicBlock(str: Stream, hlit: nat, hdist: nat)
    requires hlit <= 29 && hdist < 32 && 10 <= hlit + hdist && 99 <= str.bits && str.value == BlockOf(hlit, hdist)
    ensures ReadBits(str, 0, 1) == Got(1, 1) && ReadBits(str, 1, 2) == Got(2, 3)
    ensures ReadDynamicCodes(str, 3) == Got(SplitCodes(Sent(hlit + hdist - 10), 257 + hlit), 97)
    ensures ReadBlock(str, 2, 3, []) == Got([0], 99)
  {
    hide Low; hide Drop; hide ReadDynamicCodes; hide ReadCodes; hide TwoCodes; hide AllZero; hide AcceptableCodes;
    hide BlockOf; hide AfterHeader; hide Sent; hide SplitCodes; hide ReadBits;
    var codes := SplitCodes(Sent(hlit + hdist - 10), 257 + hlit);
    Header(str, hlit, hdist);
    DynamicCodes(str, hlit, hdist);
    CodesOfBlock(hlit, hdist);
    TakeData(str, codes.lit, codes.dist, 97);
  }

  lemma TwoLengthsAcceptable()
    ensures Acceptable(TwoLengths())
  {
    TwoCodesComplete(TwoLengths(), 1, 18);
  }

  /** The whole stream is accepted, and the program supports it only without a surplus of codes. */
  lemma SupportedIf(str: Stream, hlit: nat, hdist: nat)
    requires hlit <= 29 && hdist < 32 && 10 <= hlit + hdist && 99 <= str.bits && str.value == BlockOf(hlit, hdist)
    ensures ReadBlocks(str, 0, []) == Got([0], 99)
    ensures AllSupported(str, 0, []) <==> hlit == 0 && hdist < 30
  {
    hide ReadBlock; hide ReadDynamicCodes; hide ReadBits; hide Supported; hide Sent;
    DynamicBlock(str, hlit, hdist);
    SurplusOfCodes(hlit, hdist);
  }

  lemma SurplusOfCodes(hlit: nat, hdist: nat)
    requires 10 <= hlit + hdist
    ensures Supported(SplitCodes(Sent(hlit + hdist - 10), 257 + hlit)) <==> hlit == 0 && hdist < 30
  {
    CodesOfBlock(hlit, hdist);
  }

  lemma ValueFrom(bytes: seq<Byte>, i: nat)
    requires i < |bytes|
    ensures Value(bytes[i..]) == bytes[i] + 256 * Value(bytes[i + 1..])
  {
    assert bytes[i..][1..] == bytes[i + 1..];
  }

  /** The value of fifteen bytes, 32 bits at a time. */
  lemma FifteenBytes(b: seq<Byte>)
    requires |b| == 15
    ensures Value(b) == Four(b, 0) + 0x1_0000_0000 * (Four(b, 4) + 0x1_0000_0000 * (Four(b, 8) + 0x1_0000_0000 * Three(b, 12)))
  {
    ValueFour(b, 0);
    ValueFour(b, 4);
    ValueFour(b, 8);
    ValueThree(b);
    assert b[0..] == b;
    hide *;
  }

  function Three(b: seq<nat>, i: nat): nat
    requires i + 3 <= |b|
  {
    b[i] + 256 * (b[i + 1] + 256 * b[i + 2])
  }

  function Four(b: seq<nat>, i: nat): nat
    requires i + 4 <= |b|
  {
    b[i] + 256 * Three(b, i + 1)
  }

  lemma ValueThree(b: seq<Byte>)
    requires |b| == 15
    ensures Value(b[12..]) == Three(b, 12)
  {
    assert Value(b[15..]) == 0;
    hide Value;
    ValueFrom(b, 12);
    ValueFrom(b, 13);
    ValueFrom(b, 14);
  }

  lemma ValueFour(b: seq<Byte>, i: nat)
    requires i + 4 <= |b|
    ensures Value(b[i..]) == Four(b, i) + 0x1_0000_0000 * Value(b[i + 4..])
  {
    hide Value;
    ValueFrom(b, i);
    ValueFrom(b, i + 1);
    ValueFrom(b, i + 2);
    ValueFrom(b, i + 3);
  }

  lemma ValueOfLiteralsOnly()
    ensures Value(LITERALS_ONLY) == BlockOf(10, 0)
  {
    hide Value;
    FifteenBytes(LITERALS_ONLY);
  }

  lemma ValueOfManyDistances()
    ensures Value(MANY_DISTANCES) == BlockOf(0, 30)
  {
    hide Value;
    FifteenBytes(MANY_DISTANCES);
  }

  /** The program refuses streams that the format accepts: one that uses no distance code, and one that sends lengths
      of 31 distance codes. */
  lemma ValidButRejected()
    ensures ReadBlocks(StreamOf(LITERALS_ONLY), 0, []) == Got([0], 99) && !AllSupported(StreamOf(LITERALS_ONLY), 0, [])
    ensures ReadBlocks(StreamOf(MANY_DISTANCES), 0, []) == Got([0], 99) && !AllSupported(StreamOf(MANY_DISTANCES), 0, [])
  {
    hide ReadBlocks; hide AllSupported; hide Value; hide BlockOf;
    ValueOfLiteralsOnly();
    ValueOfManyDistances();
    SupportedIf(StreamOf(LITERALS_ONLY), 10, 0);
    SupportedIf(StreamOf(MANY_DISTANCES), 0, 30);
  }
}
