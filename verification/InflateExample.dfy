/** A short stream with a match, bit by bit. */
module InflateExample {
  import opened Arithmetic
  import opened InflateBits
  import opened InflateHuffman
  import opened InflateFormat
  import opened InflateBuffer
  import opened InflateLengths
  import opened InflateEncoder
  import opened InflateBlocks
  import opened Inflate

  /** Two letters a and a match of 13 bytes at distance 1. */
  const FIFTEEN: seq<Token> := [Literal(97), Literal(97), Match(13, 1)]

  /** The stream 4b 4c 44 01 00, with two more bytes after it. */
  const FIFTEEN_BYTES: seq<Byte> := [0x4b, 0x4c, 0x44, 0x01, 0x00, 0x00, 0x00]

  function FifteenStream(): Stream { Stream(Value(FIFTEEN_BYTES), 56) }

  // ---- What the tokens stand for ----

  lemma {:induction false} CopyOfOne(out: Output, n: nat)
    requires out != []
    ensures CopyMatch(out, 1, n) == out + seq(n, _ => out[|out| - 1])
    decreases n
  {
    var last := out[|out| - 1];
    if n == 0 {
      assert out + seq(0, _ => last) == out;
    } else {
      CopyOfOne(out + [last], n - 1);
      assert out + [last] + seq(n - 1, _ => last) == out + seq(n, _ => last);
    }
  }

  lemma FifteenExpand()
    ensures ValidTokens(FIFTEEN, 0) && Expand(FIFTEEN, []) == seq(15, _ => 97)
  {
    var two := [97, 97];
    CopyOfOne(two, 13);
    hide CopyMatch;
    var t := FIFTEEN[2..];
    assert t == [Match(13, 1)] && t[1..] == [];
    assert FIFTEEN[1..][1..] == t;
    assert ValidTokens(t, 2);
    assert [] + [97] + [97] == two;
    assert two + seq(13, _ => 97) == seq(15, _ => 97);
    assert Expand(t, two) == CopyMatch(two, 1, 13);
  }

  // ---- What is in the stream ----

  lemma BeginsJoin(str: Stream, p: nat, a: Bits, b: Bits)
    requires Begins(str, p, a) && Begins(str, p + |a|, b)
    ensures Begins(str, p, a + b)
  {
    hide Pow2; hide Number;
    NumberSplit(a, b);
    Pow2Add(|a|, |b|);
    DivDiv(str.From(p), Pow2(|a|), Pow2(|b|));
    DropDrop(str.value, p, |a|);
  }

  /** What reads as a code is its bits. */
  lemma {:induction false} HighFirstOfRev(x: nat, k: nat)
    ensures Number(HighFirst(Rev(k, x), k)) == Low(x, k)
    decreases k
  {
    if k > 0 {
      var v := Rev(k, x);
      var a, b := HighFirst(v / 2, k - 1), [v % 2];
      assert Number(b) == v % 2 by { assert b[1..] == []; }
      assert HighFirst(v, k) == a + b;
      assert Pow2(k) == Pow2(k - 1) * 2;
      hide Pow2; hide Number; hide Rev; hide HighFirst;
      HighFirstOfRev(x, k - 1);
      RevAppend(k - 1, x);
      NumberSplit(a, b);
      DivDiv(x, Pow2(k - 1), 2);
    } else {
      assert Pow2(0) == 1;
    }
  }

  lemma Put(str: Stream, p: nat, v: nat, k: nat)
    requires p + k <= str.bits && Low(str.From(p), k) == v
    ensures Begins(str, p, LowFirst(v, k))
  {
    hide Pow2;
    NumberOfLowFirst(v, k);
    DivModUnique(0, v, Pow2(k));
  }

  lemma PutCode(str: Stream, p: nat, lens: Lengths, s: nat)
    requires s < |lens| && p + lens[s] <= str.bits && Rev(lens[s], str.From(p)) == CodeOf(lens, s)
    ensures Begins(str, p, Code(lens, s))
  {
    HighFirstOfRev(str.From(p), lens[s]);
  }

  lemma FifteenValue()
    ensures Value(FIFTEEN_BYTES) == 0x1444c4b
  {
    var x := FIFTEEN_BYTES;
    var y := x[4..];
    assert y == [0, 0, 0];
    assert y[1..][1..][1..] == [];
    assert x[1..][1..][1..][1..] == y;
  }

  /** What is left of the stream where each part of it begins. */
  lemma FifteenParts()
    ensures var str := FifteenStream();
            && str.From(0) == 0x1444c4b && str.From(1) == 0xa22625 && str.From(3) == 0x288989 && str.From(11) == 0x2889
            && str.From(19) == 0x28 && str.From(26) == str.From(27) == str.From(32) == 0
  {
    FifteenValue();
    SmallPowers();
    hide Value; hide Pow2;
    Pow2Add(11, 8);
    Pow2Add(13, 13);
    Pow2Add(13, 1);
    Pow2Add(14, 13);
    Pow2Add(16, 16);
    Pow2Add(8, 8);
  }

  lemma {:induction false} RevOfZero(k: nat)
    ensures Rev(k, 0) == 0
  {
    if k > 0 { RevOfZero(k - 1); }
  }

  lemma RevFirst(k: nat, x: nat, bit: Bit)
    ensures Rev(k + 1, 2 * x + bit) == bit * Pow2(k) + Rev(k, x)
  {
    assert (2 * x + bit) / 2 == x && (2 * x + bit) % 2 == bit;
    RevStep(k + 1, 2 * x + bit);
  }

  lemma FifteenReversed()
    ensures Rev(8, 0x288989) == 0x91 && Rev(8, 0x2889) == 0x91 && Rev(7, 0x28) == 0x0a && Rev(5, 0) == 0 && Rev(7, 0) == 0
  {
    hide *;
    LettersReversed(0x2889);
    LettersReversed(0x28);
    MatchReversed();
    RevOfZero(5);
    RevOfZero(7);
  }

  lemma LettersReversed(x: nat)
    ensures Rev(8, 256 * x + 0x89) == 0x91
  {
    SmallPowers();
    hide *;
    RevOfNone(x);
    RevFirst(0, x, 1);
    RevFirst(1, 2 * x + 1, 0);
    RevFirst(2, 4 * x + 2, 0);
    RevFirst(3, 8 * x + 4, 0);
    RevFirst(4, 16 * x + 8, 1);
    RevFirst(5, 32 * x + 17, 0);
    RevFirst(6, 64 * x + 34, 0);
    RevFirst(7, 128 * x + 68, 1);
  }

  lemma MatchReversed()
    ensures Rev(7, 0x28) == 0x0a
  {
    SmallPowers();
    hide *;
    RevOfZero(1);
    RevFirst(1, 0, 1);
    RevFirst(2, 1, 0);
    RevFirst(3, 2, 1);
    RevFirst(4, 5, 0);
    RevFirst(5, 10, 0);
    RevFirst(6, 20, 0);
  }

  lemma RevOfNone(x: nat)
    ensures Rev(0, x) == 0
  {
  }

  /** Symbol 266 and a zero bit stand for a length of 13, distance code 0 for a distance of 1. */
  lemma FifteenSymbols()
    ensures LengthSymbol(13) == 9 && LengthBits(13) == 1 && DistanceSymbol(1) == 0 && ExtraBits(0, 4) == 0
  {
    assert ExtraBits(5, 8) == 0 && ExtraBits(10, 8) == 1 && Leading(5, 8) == 5;
  }

  lemma FifteenLengths()
    ensures var l, d := FixedLiterals(), FixedDistances();
            |l| == 288 && |d| == 30 && l[97] == 8 && l[266] == 7 && l[256] == 7 && d[0] == 5
  {
  }

  lemma FifteenCodes()
    ensures var str, l, d := FifteenStream(), FixedLiterals(), FixedDistances();
            && |l| == 288 && |d| == 30 && l[97] == 8 && l[266] == 7 && l[256] == 7 && d[0] == 5
            && Begins(str, 3, Code(l, 97)) && Begins(str, 11, Code(l, 97)) && Begins(str, 19, Code(l, 266))
            && Begins(str, 27, Code(d, 0)) && Begins(str, 32, Code(l, 256))
  {
    var l, d := FixedLiterals(), FixedDistances();
    FifteenLengths();
    hide Begins; hide Code; hide CodeOf; hide FixedLiterals; hide FixedDistances; hide Rev; hide Drop; hide Value;
    FifteenParts();
    FifteenReversed();
    FixedLiteralCode(97);
    FixedLiteralCode(266);
    FixedLiteralCode(256);
    FixedDistanceCode(0);
    var str := FifteenStream();
    PutCode(str, 3, l, 97);
    PutCode(str, 11, l, 97);
    PutCode(str, 19, l, 266);
    PutCode(str, 27, d, 0);
    PutCode(str, 32, l, 256);
  }

  lemma FifteenNumbers()
    ensures var str := FifteenStream();
            Begins(str, 0, LowFirst(1, 1)) && Begins(str, 1, LowFirst(1, 2)) && Begins(str, 26, LowFirst(10, 1)) && Begins(str, 32, LowFirst(0, 0))
  {
    var str := FifteenStream();
    FifteenParts();
    SmallPowers();
    assert LowFirst(10, 1) == LowFirst(0, 1) == [0];
    hide Begins; hide LowFirst; hide Drop; hide Value; hide Pow2;
    Put(str, 0, 1, 1);
    Put(str, 1, 1, 2);
    Put(str, 26, 0, 1);
    Put(str, 32, 0, 0);
  }

  lemma FifteenData()
    ensures var l, d := FixedLiterals(), FixedDistances();
            && AllHaveCodes(l, d, FIFTEEN) && |DataBits(l, d, FIFTEEN)| == 36 && Begins(FifteenStream(), 3, DataBits(l, d, FIFTEEN))
  {
    hide Begins; hide Code; hide LengthSymbol; hide DistanceSymbol; hide ExtraBits; hide LengthBits; hide FixedLiterals; hide FixedDistances; hide LowFirst;
    hide FifteenStream;
    var str, l, d := FifteenStream(), FixedLiterals(), FixedDistances();
    FifteenSymbols();
    FifteenCodes();
    FifteenNumbers();
    CodeSize(l, 97);
    CodeSize(l, 256);
    CodeSize(l, 266);
    CodeSize(d, 0);
    BeginsJoin(str, 19, Code(l, 266), LowFirst(10, 1));
    BeginsJoin(str, 27, Code(d, 0), LowFirst(0, 0));
    BeginsJoin(str, 19, LengthPart(l, 13), DistancePart(d, 1));
    BeginsJoin(str, 19, TokenBits(l, d, Match(13, 1)), Code(l, 256));
    FifteenParted(l, d);
    BeginsJoin(str, 11, Code(l, 97), DataBits(l, d, FIFTEEN[2..]));
    BeginsJoin(str, 3, Code(l, 97), DataBits(l, d, FIFTEEN[1..]));
  }

  lemma FifteenParted(l: Lengths, d: Lengths)
    requires AllHaveCodes(l, d, FIFTEEN)
    ensures FIFTEEN[2] == Match(13, 1) && HasCodes(l, d, FIFTEEN[2])
    ensures DataBits(l, d, FIFTEEN[2..]) == TokenBits(l, d, FIFTEEN[2]) + Code(l, 256)
    ensures DataBits(l, d, FIFTEEN[1..]) == Code(l, 97) + DataBits(l, d, FIFTEEN[2..])
    ensures DataBits(l, d, FIFTEEN) == Code(l, 97) + DataBits(l, d, FIFTEEN[1..])
  {
    hide HasCode; hide Code; hide LengthPart; hide DistancePart; hide LengthSymbol; hide DistanceSymbol;
    var t := FIFTEEN[2..];
    assert t == [Match(13, 1)] && t[1..] == [];
    assert FIFTEEN[1..][1..] == t;
  }

  lemma FifteenBits()
    ensures var blocks := [FixedBlock(FIFTEEN)];
            && ValidBlocks(blocks, []) && AfterAll(blocks, []) == seq(15, _ => 97)
            && |StreamBits(blocks, 0, [])| == 39 && Begins(FifteenStream(), 0, StreamBits(blocks, 0, []))
  {
    hide Begins; hide DataBits; hide AllHaveCodes; hide FixedLiterals; hide FixedDistances; hide LowFirst; hide FifteenStream; hide Expand; hide ValidTokens;
    hide FIFTEEN;
    FifteenExpand();
    FifteenData();
    FifteenNumbers();
    var str, b := FifteenStream(), FixedBlock(FIFTEEN);
    var blocks := [b];
    BeginsJoin(str, 1, LowFirst(1, 2), BodyBits(b, 0, 3));
    BeginsJoin(str, 0, LowFirst(1, 1), LowFirst(1, 2) + BodyBits(b, 0, 3));
    assert blocks[1..] == [];
    assert StreamBits(blocks, 0, []) == BlockBits(b, true, 0, 0) + [] == BlockBits(b, true, 0, 0);
  }

  /** These bytes stand for fifteen letters a, and the program decodes them. */
  lemma FifteenLetters()
    ensures ReadBlocks(FifteenStream(), 0, []) == Got(seq(15, _ => 97), 39)
    ensures AllSupported(FifteenStream(), 0, []) && 39 + LOOKAHEAD <= FifteenStream().bits == 8 * |FIFTEEN_BYTES|
  {
    hide StreamBits; hide ReadBlocks; hide AllSupported; hide Value; hide ValidBlocks; hide AfterAll; hide Begins;
    FifteenBits();
    var blocks := [FixedBlock(FIFTEEN)];
    TakeStream(FifteenStream(), 0, blocks, []);
    assert |FIFTEEN_BYTES| == 7;
    assert forall b :: b in blocks ==> SupportedBlock(b);
  }
}