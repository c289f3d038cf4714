/** An encoder of the format, written bit by bit, and what a decoder makes of its streams. */
module InflateEncoder {
  import opened Arithmetic
  import opened InflateBits
  import opened InflateHuffman
  import opened InflateFormat
  import opened InflateBuffer
  import opened InflateLengths

  // ---- Bits ----

  type Bit = x: nat | x < 2

  /** Bits in the order in which they are sent. */
  type Bits = seq<Bit>

  /** The bits as one number, the first one in the lowest place. */
  function Number(bits: Bits): nat {
    if bits == [] then 0 else bits[0] + 2 * Number(bits[1..])
  }

  /** A number of k bits, the least significant one first: everything but codes is sent like this. */
  function LowFirst(v: nat, k: nat): (r: Bits)
    ensures |r| == k
    decreases k
  {
    if k == 0 then [] else [v % 2] + LowFirst(v / 2, k - 1)
  }

  /** A number of k bits, the most significant one first: codes are sent like this. */
  function HighFirst(v: nat, k: nat): (r: Bits)
    ensures |r| == k
    decreases k
  {
    if k == 0 then [] else HighFirst(v / 2, k - 1) + [v % 2]
  }

  /** The code of a symbol. */
  function Code(lens: Lengths, s: nat): Bits
    requires s < |lens|
  {
    HighFirst(CodeOf(lens, s), lens[s])
  }

  // ---- Literals and matches ----

  datatype Token = Literal(byte: Byte) | Match(length: nat, distance: nat)

  /** A token after n bytes of output. */
  predicate ValidToken(token: Token, n: nat) {
    token.Match? ==> 3 <= token.length <= 258 && 1 <= token.distance <= 32768 && token.distance <= n
  }

  function SizeOf(token: Token): nat { if token.Literal? then 1 else token.length }

  predicate ValidTokens(tokens: seq<Token>, n: nat)
    decreases |tokens|
  {
    tokens == [] || (ValidToken(tokens[0], n) && ValidTokens(tokens[1..], n + SizeOf(tokens[0])))
  }

  /** What tokens stand for. */
  function Expand(tokens: seq<Token>, out: Output): (r: Output)
    requires ValidTokens(tokens, |out|)
    ensures |r| >= |out|
    decreases |tokens|
  {
    if tokens == [] then out else Expand(tokens[1..], ExpandToken(tokens[0], out))
  }

  function ExpandToken(token: Token, out: Output): (r: Output)
    requires ValidToken(token, |out|)
    ensures |r| == |out| + SizeOf(token)
  {
    match token
    case Literal(b) => out + [b]
    case Match(length, distance) => CopyMatch(out, distance, length)
  }

  predicate HasCode(lens: Lengths, s: nat) { s < |lens| && lens[s] > 0 }

  /** The symbols of a token have codes. */
  predicate HasCodes(lit: Lengths, dist: Lengths, token: Token) {
    match token
    case Literal(b) => HasCode(lit, b)
    case Match(length, distance) =>
      && 3 <= length && 1 <= distance
      && HasCode(lit, 257 + LengthSymbol(length)) && HasCode(dist, DistanceSymbol(distance))
  }

  function TokenBits(lit: Lengths, dist: Lengths, token: Token): Bits
    requires HasCodes(lit, dist, token)
  {
    match token
    case Literal(b) => Code(lit, b)
    case Match(length, distance) => LengthPart(lit, length) + DistancePart(dist, distance)
  }

  /** The symbol of a length and its extra bits. */
  function LengthPart(lit: Lengths, length: nat): Bits
    requires 3 <= length && HasCode(lit, 257 + LengthSymbol(length))
  {
    Code(lit, 257 + LengthSymbol(length)) + LowFirst(length - 3, LengthBits(length))
  }

  function DistancePart(dist: Lengths, distance: nat): Bits
    requires 1 <= distance && HasCode(dist, DistanceSymbol(distance))
  {
    Code(dist, DistanceSymbol(distance)) + LowFirst(distance - 1, ExtraBits(distance - 1, 4))
  }

  predicate AllHaveCodes(lit: Lengths, dist: Lengths, tokens: seq<Token>) {
    HasCode(lit, 256) && forall i :: 0 <= i < |tokens| ==> HasCodes(lit, dist, tokens[i])
  }

  /** Tokens and the end-of-block symbol. */
  function DataBits(lit: Lengths, dist: Lengths, tokens: seq<Token>): Bits
    requires AllHaveCodes(lit, dist, tokens)
    decreases |tokens|
  {
    if tokens == [] then Code(lit, 256) else TokenBits(lit, dist, tokens[0]) + DataBits(lit, dist, tokens[1..])
  }

  // ---- Reading what has been sent ----

  /** From bit p on, the stream begins with these bits. */
  predicate Begins(str: Stream, p: nat, bits: Bits) {
    p + |bits| <= str.bits && Low(str.From(p), |bits|) == Number(bits)
  }

  lemma {:induction false} NumberSplit(a: Bits, b: Bits)
    ensures Number(a + b) == Number(a) + Pow2(|a|) * Number(b) && Number(a) < Pow2(|a|)
    decreases |a|
  {
    if a == [] {
      assert a + b == b;
    } else {
      assert (a + b)[1..] == a[1..] + b;
      NumberSplit(a[1..], b);
      MulAssoc(2, Pow2(|a| - 1), Number(b));
    }
  }

  lemma BeginsSplit(str: Stream, p: nat, a: Bits, b: Bits)
    requires Begins(str, p, a + b)
    ensures Begins(str, p, a) && Begins(str, p + |a|, b)
  {
    hide Pow2; hide Number;
    var x := str.From(p);
    NumberSplit(a, b);
    NumberSplit(b, []);
    Pow2Add(|a|, |b|);
    DivDiv(x, Pow2(|a|), Pow2(|b|));
    DropDrop(str.value, p, |a|);
    TwoParts(x % Pow2(|a|), Pow2(|a|), Drop(x, |a|) % Pow2(|b|), Number(a), Number(b));
  }

  lemma TwoParts(r: nat, a: nat, q: nat, r': nat, q': nat)
    requires r < a && r' < a && r + a * q == r' + a * q'
    ensures r == r' && q == q'
  {
    MulComm(a, q);
    MulComm(a, q');
    DivModUnique(q, r, a);
    DivModUnique(q', r', a);
  }

  lemma {:induction false} NumberOfLowFirst(v: nat, k: nat)
    ensures Number(LowFirst(v, k)) == v % Pow2(k)
    decreases k
  {
    if k > 0 {
      NumberOfLowFirst(v / 2, k - 1);
      DivPow2(v, k);
      assert LowFirst(v, k)[1..] == LowFirst(v / 2, k - 1);
    } else {
      assert Pow2(0) == 1;
    }
  }

  /** Reading a number. */
  lemma TakeNumber(str: Stream, p: nat, v: nat, k: nat)
    requires Begins(str, p, LowFirst(v, k))
    ensures ReadBits(str, p, k) == Got(v % Pow2(k), p + k)
  {
    hide Pow2; hide Low; hide Drop;
    NumberOfLowFirst(v, k);
  }

  /** A code is what its bits read as. */
  lemma {:induction false} RevOfHighFirst(x: nat, v: nat, k: nat)
    requires v < Pow2(k) && Low(x, k) == Number(HighFirst(v, k))
    ensures Rev(k, x) == v
    decreases k
  {
    if k > 0 {
      var a, b := HighFirst(v / 2, k - 1), [v % 2];
      var str := Stream(x, k);
      assert Number(b) == v % 2 by { assert b[1..] == []; }
      assert str.From(0) == x by { assert Pow2(0) == 1; }
      assert Pow2(k) == 2 * Pow2(k - 1);
      assert Pow2(1) == 2 by { assert Pow2(0) == 1; }
      hide Pow2; hide Number; hide Rev;
      BeginsSplit(str, 0, a, b);
      RevOfHighFirst(x, v / 2, k - 1);
      RevAppend(k - 1, x);
    } else {
      assert Pow2(0) == 1;
    }
  }

  lemma CodeFits(lens: Lengths, s: nat)
    requires HasCode(lens, s) && !Oversubscribed(lens)
    ensures CodeOf(lens, s) < Pow2(lens[s])
  {
    hide FirstCode; hide Pow2; hide CountUpTo;
    var k := lens[s];
    RankBelowCount(lens, s);
    EndCodeGrows(lens, k, BMAX);
    Pow2Add(k, BMAX - k);
    if EndCode(lens, k) > Pow2(k) {
      MulMono(Pow2(k) + 1, EndCode(lens, k), Pow2(BMAX - k));
      MulDist(Pow2(k), 1, Pow2(BMAX - k));
    }
  }

  /** Reading a symbol. */
  lemma TakeCode(str: Stream, p: nat, lens: Lengths, s: nat)
    requires HasCode(lens, s) && !Oversubscribed(lens) && Begins(str, p, Code(lens, s))
    ensures ReadSymbol(str, lens, p) == Got(s, p + lens[s])
  {
    hide Pow2; hide Low; hide Drop; hide CodeOf; hide Decode; hide Rev; hide Number; hide Oversubscribed;
    var x := str.From(p);
    CodeFits(lens, s);
    RevOfHighFirst(x, CodeOf(lens, s), lens[s]);
    assert Matches(lens, s, x);
    DecodeIsMatching(lens, x, s);
  }

  lemma TakeLengthPart(str: Stream, p: nat, lit: Lengths, length: nat)
    requires 3 <= length <= 258 && HasCode(lit, 257 + LengthSymbol(length)) && !Oversubscribed(lit)
    requires Begins(str, p, LengthPart(lit, length))
    ensures var s := 257 + LengthSymbol(length);
            && ReadSymbol(str, lit, p) == Got(s, p + lit[s])
            && ReadExtra(str, LENGTH_BASE, LENGTH_EXTRA, s - 257, p + lit[s]) == Got(length, p + |LengthPart(lit, length)|)
  {
    hide Begins; hide Oversubscribed; hide LengthSymbol; hide LengthBits; hide LENGTH_BASE; hide LENGTH_EXTRA; hide ReadSymbol; hide Pow2; hide ReadBits;
    hide LowFirst; hide Code;
    var s, k := 257 + LengthSymbol(length), LengthBits(length);
    BeginsSplit(str, p, Code(lit, s), LowFirst(length - 3, k));
    CodeSize(lit, s);
    TakeCode(str, p, lit, s);
    TakeNumber(str, p + lit[s], length - 3, k);
    LengthIsSent(length);
    if length == 258 { NoBits(); }
  }

  lemma NoBits()
    ensures LengthBits(258) == 0 && forall v: nat :: v % Pow2(0) == 0
  {
    assert Pow2(0) == 1;
  }

  lemma CodeSize(lens: Lengths, s: nat)
    requires s < |lens|
    ensures |Code(lens, s)| == lens[s]
  {
  }

  lemma TakeDistancePart(str: Stream, p: nat, dist: Lengths, distance: nat)
    requires 1 <= distance <= 32768 && HasCode(dist, DistanceSymbol(distance)) && !Oversubscribed(dist)
    requires Begins(str, p, DistancePart(dist, distance))
    ensures ReadDistance(str, dist, p) == Got(distance, p + |DistancePart(dist, distance)|)
  {
    hide Begins; hide Oversubscribed; hide DistanceSymbol; hide ExtraBits; hide DISTANCE_BASE; hide DISTANCE_EXTRA; hide ReadSymbol; hide Pow2; hide ReadBits;
    hide LowFirst; hide Code;
    var s, k := DistanceSymbol(distance), ExtraBits(distance - 1, 4);
    BeginsSplit(str, p, Code(dist, s), LowFirst(distance - 1, k));
    CodeSize(dist, s);
    TakeCode(str, p, dist, s);
    TakeNumber(str, p + dist[s], distance - 1, k);
    DistanceIsSent(distance);
  }

  lemma TakeMatch(str: Stream, p: nat, lit: Lengths, dist: Lengths, token: Token, out: Output)
    requires token.Match? && HasCodes(lit, dist, token) && ValidToken(token, |out|) && !Oversubscribed(lit) && !Oversubscribed(dist)
    requires Begins(str, p, TokenBits(lit, dist, token))
    ensures var s := 257 + LengthSymbol(token.length);
            && ReadSymbol(str, lit, p) == Got(s, p + lit[s])
            && ReadMatch(str, dist, s, p + lit[s], out) == Got(ExpandToken(token, out), p + |TokenBits(lit, dist, token)|)
  {
    hide Begins; hide Oversubscribed; hide ReadSymbol; hide ReadExtra; hide ReadDistance; hide LengthPart; hide DistancePart; hide HasCode;
    hide LengthSymbol; hide DistanceSymbol; hide LENGTH_BASE; hide LENGTH_EXTRA; hide CopyMatch;
    BeginsSplit(str, p, LengthPart(lit, token.length), DistancePart(dist, token.distance));
    TakeLengthPart(str, p, lit, token.length);
    TakeDistancePart(str, p + |LengthPart(lit, token.length)|, dist, token.distance);
  }

  /** Main result on the data of a block: tokens are read as what they stand for. */
  lemma {:induction false} TakeData(str: Stream, p: nat, lit: Lengths, dist: Lengths, tokens: seq<Token>, out: Output)
    requires AllHaveCodes(lit, dist, tokens) && ValidTokens(tokens, |out|) && !Oversubscribed(lit) && !Oversubscribed(dist)
    requires Begins(str, p, DataBits(lit, dist, tokens))
    ensures ReadCodes(str, lit, dist, p, out) == Got(Expand(tokens, out), p + |DataBits(lit, dist, tokens)|)
    decreases |tokens|
  {
    hide Begins; hide Oversubscribed; hide ReadSymbol; hide ReadMatch; hide Code; hide CopyMatch; hide LengthSymbol; hide DistanceSymbol;
    if tokens == [] {
      CodeSize(lit, 256);
      TakeCode(str, p, lit, 256);
    } else {
      var t, rest := tokens[0], tokens[1..];
      var q := p + |TokenBits(lit, dist, t)|;
      BeginsSplit(str, p, TokenBits(lit, dist, t), DataBits(lit, dist, rest));
      TakeData(str, q, lit, dist, rest, ExpandToken(t, out));
      if t.Literal? {
        CodeSize(lit, t.byte);
        TakeCode(str, p, lit, t.byte);
      } else {
        TakeMatch(str, p, lit, dist, t, out);
      }
    }
  }
}
