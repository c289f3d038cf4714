/** Streams as an encoder writes them, block by block, and the decoder of the format: it gives back what was encoded. */
module InflateBlocks {
  import opened Arithmetic
  import opened InflateBits
  import opened InflateHuffman
  import opened InflateFormat
  import opened InflateLengths
  import opened InflateEncoder
  import opened Inflate

  /** Reading a number that has room in k bits. */
  lemma TakeWhole(str: Stream, p: nat, v: nat, k: nat, rest: Bits)
    requires Begins(str, p, LowFirst(v, k) + rest) && v < Pow2(k)
    ensures ReadBits(str, p, k) == Got(v, p + k) && Begins(str, p + k, rest)
  {
    hide Begins; hide ReadBits; hide Pow2; hide LowFirst;
    BeginsSplit(str, p, LowFirst(v, k), rest);
    TakeNumber(str, p, v, k);
    hide *;
    DivModUnique(0, v, Pow2(k));
  }

  lemma Widths()
    ensures Pow2(1) == 2 && Pow2(2) == 4 && Pow2(3) == 8 && Pow2(4) == 16 && Pow2(5) == 32 && Pow2(8) == 256 && Pow2(16) == 0x1_0000
  {
    SmallPowers();
    hide *;
    Pow2Add(8, 8);
  }

  // ---- Code lengths in a dynamic block ----

  /** Code lengths are sent as single lengths, repetitions of the length before them, and zeros. */
  datatype Run = One(length: nat) | Again(times: nat) | Zeros(times: nat)

  predicate ValidRun(clens: Lengths, run: Run, before: seq<nat>) {
    match run
    case One(v) => v < 16 && HasCode(clens, v)
    case Again(n) => 3 <= n <= 6 && before != [] && HasCode(clens, 16)
    case Zeros(n) => 3 <= n <= 138 && HasCode(clens, if n <= 10 then 17 else 18)
  }

  function RunOf(run: Run, before: SentLengths): (r: seq<nat>)
    requires run.One? ==> run.length < 16
    requires run.Again? ==> before != []
    ensures forall i :: 0 <= i < |r| ==> r[i] < 16
  {
    match run
    case One(v) => [v]
    case Again(n) => seq(n, _ => before[|before| - 1])
    case Zeros(n) => seq(n, _ => 0)
  }

  function RunBits(clens: Lengths, run: Run): Bits
    requires |clens| == 19 && (run.One? ==> run.length < 16)
  {
    match run
    case One(v) => Code(clens, v)
    case Again(n) => Code(clens, 16) + LowFirst(if n >= 3 then n - 3 else 0, 2)
    case Zeros(n) =>
      if n <= 10 then Code(clens, 17) + LowFirst(if n >= 3 then n - 3 else 0, 3) else Code(clens, 18) + LowFirst(n - 11, 7)
  }

  predicate ValidRuns(clens: Lengths, runs: seq<Run>, before: SentLengths)
    decreases |runs|
  {
    runs == [] || (ValidRun(clens, runs[0], before) && ValidRuns(clens, runs[1..], before + RunOf(runs[0], before)))
  }

  /** All code lengths. */
  function LengthsOf(clens: Lengths, runs: seq<Run>, before: SentLengths): (r: SentLengths)
    requires ValidRuns(clens, runs, before)
    ensures |r| >= |before| + |runs|
    decreases |runs|
  {
    if runs == [] then before else LengthsOf(clens, runs[1..], before + RunOf(runs[0], before))
  }

  function RunsBits(clens: Lengths, runs: seq<Run>, before: SentLengths): Bits
    requires |clens| == 19 && ValidRuns(clens, runs, before)
    decreases |runs|
  {
    if runs == [] then [] else RunBits(clens, runs[0]) + RunsBits(clens, runs[1..], before + RunOf(runs[0], before))
  }

  lemma TakeRun(str: Stream, p: nat, clens: Lengths, run: Run, before: SentLengths)
    requires |clens| == 19 && ValidRun(clens, run, before) && !Oversubscribed(clens) && Begins(str, p, RunBits(clens, run))
    ensures ReadRun(str, clens, p, before) == Got(RunOf(run, before), p + |RunBits(clens, run)|)
  {
    Widths();
    SmallPowers();
    hide Begins; hide Oversubscribed; hide ReadSymbol; hide Code; hide Pow2; hide ReadBits; hide LowFirst;
    match run
    case One(v) =>
      CodeSize(clens, v);
      TakeCode(str, p, clens, v);
    case Again(n) =>
      TakeRepetition(str, p, clens, 16, n - 3, 2);
    case Zeros(n) =>
      if n <= 10 { TakeRepetition(str, p, clens, 17, n - 3, 3); } else { TakeRepetition(str, p, clens, 18, n - 11, 7); }
  }

  lemma TakeRepetition(str: Stream, p: nat, clens: Lengths, s: nat, v: nat, k: nat)
    requires HasCode(clens, s) && !Oversubscribed(clens) && v < Pow2(k) && Begins(str, p, Code(clens, s) + LowFirst(v, k))
    ensures |Code(clens, s)| == clens[s]
    ensures ReadSymbol(str, clens, p) == Got(s, p + clens[s]) && ReadBits(str, p + clens[s], k) == Got(v, p + clens[s] + k)
  {
    hide Begins; hide Oversubscribed; hide ReadSymbol; hide Code; hide Pow2; hide ReadBits; hide LowFirst;
    BeginsSplit(str, p, Code(clens, s), LowFirst(v, k));
    CodeSize(clens, s);
    TakeCode(str, p, clens, s);
    assert LowFirst(v, k) + [] == LowFirst(v, k);
    TakeWhole(str, p + clens[s], v, k, []);
  }

  lemma {:induction false} TakeRuns(str: Stream, p: nat, clens: Lengths, runs: seq<Run>, before: SentLengths)
    requires |clens| == 19 && ValidRuns(clens, runs, before) && !Oversubscribed(clens) && Begins(str, p, RunsBits(clens, runs, before))
    ensures var lens := LengthsOf(clens, runs, before);
            ReadLengths(str, clens, p, |lens|, before) == Got(lens, p + |RunsBits(clens, runs, before)|)
    decreases |runs|
  {
    hide Begins; hide Oversubscribed; hide ReadRun; hide RunBits;
    if runs != [] {
      var run, rest := runs[0], runs[1..];
      var before' := before + RunOf(run, before);
      BeginsSplit(str, p, RunBits(clens, run), RunsBits(clens, rest, before'));
      TakeRun(str, p, clens, run, before);
      TakeRuns(str, p + |RunBits(clens, run)|, clens, rest, before');
    }
  }

  // ---- Lengths of code length codes ----

  /** The order in which they are sent: 16, 17, 18, 0, and from 8 on up and down by turns. */
  function OrderAt(j: nat): (s: nat)
    ensures j < 19 ==> s < 19
  {
    if j < 3 then 16 + j else if j == 3 then 0 else if j % 2 == 0 then 6 + j / 2 else if j < 19 then 9 - j / 2 else 0
  }

  function PlaceOf(s: nat): nat
    requires s < 19
  {
    if s >= 16 then s - 16 else if s == 0 then 3 else if s >= 8 then 2 * (s - 6) else 2 * (9 - s) + 1
  }

  lemma OrderIs(j: nat)
    requires j < 19
    ensures j < |BORDER| && BORDER[j] == OrderAt(j) && PlaceOf(OrderAt(j)) == j
  {
  }

  /** The first n of them, three bits each. */
  function ClenBits(clens: CodeLengthLengths, j: nat, n: nat): Bits
    requires j <= n <= 19
    decreases n - j
  {
    if j == n then [] else LowFirst(clens[OrderAt(j)], 3) + ClenBits(clens, j + 1, n)
  }

  /** Lengths that agree in the first j places of the order. */
  predicate AgreeUpTo(lens: CodeLengthLengths, clens: CodeLengthLengths, j: nat) {
    forall s :: 0 <= s < 19 && PlaceOf(s) < j ==> lens[s] == clens[s]
  }

  predicate RestIsZero(clens: CodeLengthLengths, n: nat) { forall s :: 0 <= s < 19 && PlaceOf(s) >= n ==> clens[s] == 0 }

  lemma {:induction false} TakeClens(str: Stream, p: nat, clens: CodeLengthLengths, n: nat, j: nat, lens: CodeLengthLengths)
    requires j <= n <= 19 && RestIsZero(clens, n) && AgreeUpTo(lens, clens, j) && Begins(str, p, ClenBits(clens, j, n))
    ensures ReadCodeLengthLengths(str, p, n, j, lens) == Got(clens, p + |ClenBits(clens, j, n)|)
    decreases 19 - j
  {
    Widths();
    hide Begins; hide ReadBits; hide PlaceOf; hide OrderAt; hide BORDER; hide LowFirst; hide Pow2; hide RestIsZero;
    if j < n {
      var s := OrderAt(j);
      var v := clens[s];
      OrderIs(j);
      TakeWhole(str, p, v, 3, ClenBits(clens, j + 1, n));
      PlaceApart();
      assert v % 8 == v;
      TakeClens(str, p + 3, clens, n, j + 1, lens[s := v]);
    } else {
      NotSent(str, p, clens, n, j, lens);
    }
  }

  lemma PlaceApart()
    ensures forall s :: 0 <= s < 19 ==> OrderAt(PlaceOf(s)) == s && PlaceOf(s) < 19
  {
  }

  lemma {:induction false} NotSent(str: Stream, p: nat, clens: CodeLengthLengths, n: nat, j: nat, lens: CodeLengthLengths)
    requires n <= j <= 19 && RestIsZero(clens, n) && AgreeUpTo(lens, clens, j)
    ensures ReadCodeLengthLengths(str, p, n, j, lens) == Got(clens, p)
    decreases 19 - j
  {
    hide PlaceOf; hide OrderAt; hide BORDER;
    PlaceApart();
    if j < 19 {
      OrderIs(j);
      NotSent(str, p, clens, n, j + 1, lens[OrderAt(j) := 0]);
    } else {
      assert lens == clens;
    }
  }

  // ---- Blocks ----

  datatype Block =
    | StoredBlock(bytes: Output)
    | FixedBlock(tokens: seq<Token>)
    | DynamicBlock(header: Header, tokens: seq<Token>)

  /** Before its data, a dynamic block sends the first `sent` lengths of code length codes, and the lengths of `literals`
      literal and length codes and of all distance codes in runs. */
  datatype Header = Header(clens: CodeLengthLengths, sent: nat, runs: seq<Run>, literals: nat)

  predicate WellFormed(h: Header) {
    && 4 <= h.sent <= 19 && RestIsZero(h.clens, h.sent) && ValidRuns(h.clens, h.runs, [])
    && 257 <= h.literals <= 286 && h.literals < |LengthsOf(h.clens, h.runs, [])| <= h.literals + 32
  }

  predicate ValidHeader(h: Header) { WellFormed(h) && Acceptable(h.clens) && AcceptableCodes(CodesOf(h)) }

  /** The codes of a dynamic block. */
  function CodesOf(h: Header): (codes: Codes)
    requires WellFormed(h)
    ensures |codes.lit| == h.literals && 1 <= |codes.dist| <= 32
  {
    var lens := LengthsOf(h.clens, h.runs, []);
    Codes(lens[..h.literals], lens[h.literals..])
  }

  function HeaderBits(h: Header): Bits
    requires WellFormed(h)
  {
    var lengths := ClenBits(h.clens, 0, h.sent) + RunsBits(h.clens, h.runs, []);
    LowFirst(h.literals - 257, 5) + (LowFirst(|CodesOf(h).dist| - 1, 5) + (LowFirst(h.sent - 4, 4) + lengths))
  }

  predicate ValidBlock(b: Block, n: nat) {
    match b
    case StoredBlock(bytes) => |bytes| < 0x1_0000
    case FixedBlock(tokens) => ValidTokens(tokens, n) && AllHaveCodes(FixedLiterals(), FixedDistances(), tokens)
    case DynamicBlock(h, tokens) => ValidHeader(h) && ValidTokens(tokens, n) && AllHaveCodes(CodesOf(h).lit, CodesOf(h).dist, tokens)
  }

  /** What the output is after a block. */
  function After(b: Block, out: Output): (r: Output)
    requires ValidBlock(b, |out|)
  {
    match b
    case StoredBlock(bytes) => out + bytes
    case FixedBlock(tokens) => Expand(tokens, out)
    case DynamicBlock(_, tokens) => Expand(tokens, out)
  }

  function KindOf(b: Block): nat { if b.StoredBlock? then 0 else if b.FixedBlock? then 1 else 2 }

  function BytesBits(bytes: Output): Bits {
    if bytes == [] then [] else LowFirst(bytes[0], 8) + BytesBits(bytes[1..])
  }

  /** Zeros up to the next byte boundary. */
  function Padding(p: nat): nat { (8 - p % 8) % 8 }

  /** A block after its three header bits, from bit p of the stream on. */
  function BodyBits(b: Block, n: nat, p: nat): Bits
    requires ValidBlock(b, n)
  {
    match b
    case StoredBlock(bytes) => LowFirst(0, Padding(p)) + (LowFirst(|bytes|, 16) + (LowFirst(0xffff - |bytes|, 16) + BytesBits(bytes)))
    case FixedBlock(tokens) => DataBits(FixedLiterals(), FixedDistances(), tokens)
    case DynamicBlock(h, tokens) => HeaderBits(h) + DataBits(CodesOf(h).lit, CodesOf(h).dist, tokens)
  }

  function BlockBits(b: Block, last: bool, n: nat, p: nat): Bits
    requires ValidBlock(b, n)
  {
    LowFirst(if last then 1 else 0, 1) + (LowFirst(KindOf(b), 2) + BodyBits(b, n, p + 3))
  }

  predicate ValidBlocks(blocks: seq<Block>, out: Output)
    decreases |blocks|
  {
    blocks == [] || (ValidBlock(blocks[0], |out|) && ValidBlocks(blocks[1..], After(blocks[0], out)))
  }

  /** What all blocks stand for. */
  function AfterAll(blocks: seq<Block>, out: Output): Output
    requires ValidBlocks(blocks, out)
    decreases |blocks|
  {
    if blocks == [] then out else AfterAll(blocks[1..], After(blocks[0], out))
  }

  /** The stream from bit p on, after `out` has been written. */
  function StreamBits(blocks: seq<Block>, p: nat, out: Output): Bits
    requires ValidBlocks(blocks, out)
    decreases |blocks|
  {
    if blocks == [] then []
    else
      var first := BlockBits(blocks[0], |blocks| == 1, |out|, p);
      first + StreamBits(blocks[1..], p + |first|, After(blocks[0], out))
  }

  // ---- Round trips ----

  lemma {:induction false} TakeBytes(str: Stream, p: nat, bytes: Output, out: Output)
    requires Begins(str, p, BytesBits(bytes))
    ensures ReadBytes(str, p, |bytes|, out) == Got(out + bytes, p + |BytesBits(bytes)|)
    decreases |bytes|
  {
    Widths();
    hide Begins; hide ReadBits; hide LowFirst; hide Pow2;
    if bytes == [] {
      assert out + bytes == out;
    } else {
      TakeWhole(str, p, bytes[0], 8, BytesBits(bytes[1..]));
      assert ByteOf(bytes[0]) == bytes[0];
      TakeBytes(str, p + 8, bytes[1..], out + [bytes[0]]);
      assert out + [bytes[0]] + bytes[1..] == out + bytes;
    }
  }

  lemma PaddedToAlign(p: nat)
    ensures p + Padding(p) == Align(p)
  {
  }

  lemma TakeStored(str: Stream, p: nat, bytes: Output, n: nat, out: Output)
    requires |bytes| < 0x1_0000 && Begins(str, p, BodyBits(StoredBlock(bytes), n, p))
    ensures ReadStored(str, p, out) == Got(out + bytes, p + |BodyBits(StoredBlock(bytes), n, p)|)
  {
    Widths();
    hide Begins; hide ReadBits; hide Padding; hide BytesBits; hide Align; hide ReadBytes; hide LowFirst; hide Pow2;
    PaddedToAlign(p);
    var q, len, nlen := Align(p), LowFirst(|bytes|, 16), LowFirst(0xffff - |bytes|, 16);
    BeginsSplit(str, p, LowFirst(0, Padding(p)), len + (nlen + BytesBits(bytes)));
    TakeWhole(str, q, |bytes|, 16, nlen + BytesBits(bytes));
    TakeWhole(str, q + 16, 0xffff - |bytes|, 16, BytesBits(bytes));
    TakeBytes(str, q + 32, bytes, out);
  }

  lemma TakeHeader(str: Stream, p: nat, h: Header)
    requires ValidHeader(h) && Begins(str, p, HeaderBits(h))
    ensures ReadDynamicCodes(str, p) == Got(CodesOf(h), p + |HeaderBits(h)|)
  {
    hide Begins; hide LengthsOf; hide ValidRuns; hide ClenBits; hide RunsBits; hide Acceptable; hide AcceptableCodes; hide RestIsZero;
    hide ReadLengths; hide ReadCodeLengthLengths; hide ReadSizes; hide LowFirst;
    assert !Oversubscribed(h.clens) by { NotTooMany(h.clens); }
    TakeHeaderParts(str, p, h);
    HeaderSize(h);
  }

  lemma HeaderSize(h: Header)
    requires WellFormed(h)
    ensures |HeaderBits(h)| == 14 + |ClenBits(h.clens, 0, h.sent)| + |RunsBits(h.clens, h.runs, [])|
  {
    hide Acceptable; hide AcceptableCodes; hide CodesOf; hide ValidRuns; hide RestIsZero; hide LengthsOf; hide ClenBits; hide RunsBits;
  }

  lemma TakeHeaderParts(str: Stream, p: nat, h: Header)
    requires WellFormed(h) && !Oversubscribed(h.clens) && Begins(str, p, HeaderBits(h))
    ensures var clens := ClenBits(h.clens, 0, h.sent);
            var lens := LengthsOf(h.clens, h.runs, []);
            && ReadSizes(str, p) == Got(Sizes(h.literals, |lens| - h.literals, h.sent), p + 14)
            && ReadCodeLengthLengths(str, p + 14, h.sent, 0, NoLengths()) == Got(h.clens, p + 14 + |clens|)
            && ReadLengths(str, h.clens, p + 14 + |clens|, |lens|, []) == Got(lens, p + 14 + |clens| + |RunsBits(h.clens, h.runs, [])|)
  {
    hide Begins; hide LengthsOf; hide ValidRuns; hide ClenBits; hide RunsBits; hide Acceptable; hide AcceptableCodes; hide RestIsZero;
    hide ReadLengths; hide ReadCodeLengthLengths; hide ReadSizes; hide LowFirst;
    var sizes := Sizes(h.literals, |CodesOf(h).dist|, h.sent);
    var clens, runs := ClenBits(h.clens, 0, h.sent), RunsBits(h.clens, h.runs, []);
    TakeSizes(str, p, sizes, clens + runs);
    BeginsSplit(str, p + 14, clens, runs);
    NothingAgrees(h.clens);
    TakeClens(str, p + 14, h.clens, h.sent, 0, NoLengths());
    TakeRuns(str, p + 14 + |clens|, h.clens, h.runs, []);
  }

  lemma NothingAgrees(clens: CodeLengthLengths)
    ensures AgreeUpTo(NoLengths(), clens, 0)
  {
  }

  lemma NotTooMany(lens: Lengths)
    requires AcceptableDistances(lens)
    ensures !Oversubscribed(lens)
  {
    if AllZero(lens) { NoneIsFew(lens); }
  }

  lemma NoneIsFew(lens: Lengths)
    requires AllZero(lens)
    ensures !Oversubscribed(lens)
  {
    forall k: nat | k > 0 ensures Count(lens, k) == 0 { NoneCounted(lens, |lens|, k); }
    assert EndCode(lens, 0) == 0;
    hide EndCode; hide Pow2; hide Count;
    EndCodeGrows(lens, 0, BMAX);
  }

  lemma {:induction false} NoneCounted(lens: Lengths, n: nat, k: nat)
    requires AllZero(lens) && n <= |lens| && k > 0
    ensures CountUpTo(lens, n, k) == 0
    decreases n
  {
    if n > 0 { NoneCounted(lens, n - 1, k); }
  }

  lemma TakeSizes(str: Stream, p: nat, sizes: Sizes, rest: Bits)
    requires 257 <= sizes.nl <= 286 && 1 <= sizes.nd <= 32 && 4 <= sizes.nb <= 19
    requires Begins(str, p, LowFirst(sizes.nl - 257, 5) + (LowFirst(sizes.nd - 1, 5) + (LowFirst(sizes.nb - 4, 4) + rest)))
    ensures ReadSizes(str, p) == Got(sizes, p + 14) && Begins(str, p + 14, rest)
  {
    Widths();
    hide Begins; hide ReadBits; hide LowFirst; hide Pow2;
    var b, c := LowFirst(sizes.nd - 1, 5), LowFirst(sizes.nb - 4, 4);
    TakeWhole(str, p, sizes.nl - 257, 5, b + (c + rest));
    TakeWhole(str, p + 5, sizes.nd - 1, 5, c + rest);
    TakeWhole(str, p + 10, sizes.nb - 4, 4, rest);
  }

  // ---- Whole streams ----

  lemma TakeBody(str: Stream, p: nat, b: Block, out: Output)
    requires ValidBlock(b, |out|) && Begins(str, p, BodyBits(b, |out|, p))
    ensures ReadBlock(str, KindOf(b), p, out) == Got(After(b, out), p + |BodyBits(b, |out|, p)|)
  {
    hide Begins; hide ReadStored; hide ReadCodes; hide ReadDynamicCodes; hide HeaderBits; hide DataBits; hide ValidHeader; hide ValidTokens;
    hide AllHaveCodes; hide Expand; hide CodesOf; hide Oversubscribed; hide BytesBits; hide Padding; hide FixedLiterals; hide FixedDistances; hide LowFirst;
    match b
    case StoredBlock(bytes) => TakeStored(str, p, bytes, |out|, out);
    case FixedBlock(tokens) => TakeFixed(str, p, tokens, out);
    case DynamicBlock(h, tokens) => TakeDynamic(str, p, h, tokens, out);
  }

  lemma TakeFixed(str: Stream, p: nat, tokens: seq<Token>, out: Output)
    requires ValidBlock(FixedBlock(tokens), |out|) && Begins(str, p, DataBits(FixedLiterals(), FixedDistances(), tokens))
    ensures ReadCodes(str, FixedLiterals(), FixedDistances(), p, out)
         == Got(Expand(tokens, out), p + |DataBits(FixedLiterals(), FixedDistances(), tokens)|)
  {
    hide Begins; hide ReadCodes; hide DataBits; hide ValidTokens; hide AllHaveCodes; hide Expand; hide Oversubscribed; hide FixedLiterals; hide FixedDistances;
    hide AllZero; hide Complete; hide ValidHeader; hide CodesOf; hide Code;
    FixedLiteralsComplete();
    FixedDistancesFit();
    TakeData(str, p, FixedLiterals(), FixedDistances(), tokens, out);
  }

  lemma TakeDynamic(str: Stream, p: nat, h: Header, tokens: seq<Token>, out: Output)
    requires ValidBlock(DynamicBlock(h, tokens), |out|)
    requires Begins(str, p, HeaderBits(h) + DataBits(CodesOf(h).lit, CodesOf(h).dist, tokens))
    ensures ReadDynamicCodes(str, p) == Got(CodesOf(h), p + |HeaderBits(h)|)
    ensures ReadCodes(str, CodesOf(h).lit, CodesOf(h).dist, p + |HeaderBits(h)|, out)
         == Got(Expand(tokens, out), p + |HeaderBits(h)| + |DataBits(CodesOf(h).lit, CodesOf(h).dist, tokens)|)
  {
    hide Begins; hide ReadCodes; hide ReadDynamicCodes; hide HeaderBits; hide DataBits; hide ValidTokens; hide AllHaveCodes; hide Expand;
    hide Oversubscribed; hide CodesOf; hide AcceptableCodes; hide Acceptable; hide ValidRuns; hide RestIsZero;
    var codes := CodesOf(h);
    HeaderFew(h);
    BeginsSplit(str, p, HeaderBits(h), DataBits(codes.lit, codes.dist, tokens));
    TakeHeader(str, p, h);
    TakeData(str, p + |HeaderBits(h)|, codes.lit, codes.dist, tokens, out);
  }

  lemma HeaderFew(h: Header)
    requires ValidHeader(h)
    ensures !Oversubscribed(CodesOf(h).lit) && !Oversubscribed(CodesOf(h).dist)
  {
    hide Acceptable; hide Oversubscribed; hide CodesOf;
    NotTooMany(CodesOf(h).lit);
    NotTooMany(CodesOf(h).dist);
  }

  lemma TakeBlock(str: Stream, p: nat, b: Block, last: bool, out: Output)
    requires ValidBlock(b, |out|) && Begins(str, p, BlockBits(b, last, |out|, p))
    ensures ReadBits(str, p, 1) == Got(if last then 1 else 0, p + 1) && ReadBits(str, p + 1, 2) == Got(KindOf(b), p + 3)
    ensures ReadBlock(str, KindOf(b), p + 3, out) == Got(After(b, out), p + |BlockBits(b, last, |out|, p)|)
    ensures p + |BlockBits(b, last, |out|, p)| <= str.bits
  {
    Widths();
    hide Begins; hide ReadBits; hide LowFirst; hide Pow2; hide BodyBits; hide ReadBlock; hide ValidBlock; hide After;
    var body := BodyBits(b, |out|, p + 3);
    TakeWhole(str, p, if last then 1 else 0, 1, LowFirst(KindOf(b), 2) + body);
    TakeWhole(str, p + 1, KindOf(b), 2, body);
    TakeBody(str, p + 3, b, out);
    EndsInside(str, p, BlockBits(b, last, |out|, p));
  }

  lemma EndsInside(str: Stream, p: nat, bits: Bits)
    requires Begins(str, p, bits)
    ensures p + |bits| <= str.bits
  {
  }

  /** What the program supports: at most 30 distance codes, some of them with bits unless there are only 257 literal and
      length codes. */
  predicate SupportedBlock(b: Block) {
    b.DynamicBlock? && ValidHeader(b.header) ==>
      var dist := CodesOf(b.header).dist;
      |dist| <= 30 && ((exists s :: 0 <= s < |dist| && dist[s] > 0) || b.header.literals == 257)
  }

  lemma BodySupported(str: Stream, p: nat, b: Block, out: Output)
    requires ValidBlock(b, |out|) && Begins(str, p, BodyBits(b, |out|, p))
    ensures BlockSupported(str, KindOf(b), p) <==> SupportedBlock(b)
  {
    hide Begins; hide ReadDynamicCodes; hide HeaderBits; hide DataBits; hide ValidTokens; hide AllHaveCodes; hide CodesOf; hide AcceptableCodes;
    hide Acceptable; hide ValidRuns; hide RestIsZero; hide Expand;
    if b.DynamicBlock? {
      var codes := CodesOf(b.header);
      TakeDynamic(str, p, b.header, b.tokens, out);
      assert AllZero(codes.dist) <==> !exists s :: 0 <= s < |codes.dist| && codes.dist[s] > 0;
    }
  }

  /** Main result on streams: blocks are read as what they stand for, and the program supports the stream exactly if it
      supports all blocks. */
  lemma {:induction false} TakeStream(str: Stream, p: nat, blocks: seq<Block>, out: Output)
    requires blocks != [] && ValidBlocks(blocks, out) && Begins(str, p, StreamBits(blocks, p, out))
    ensures ReadBlocks(str, p, out) == Got(AfterAll(blocks, out), p + |StreamBits(blocks, p, out)|)
    ensures AllSupported(str, p, out) <==> forall b :: b in blocks ==> SupportedBlock(b)
    decreases |blocks|
  {
    hide Begins; hide ReadBits; hide BlockBits; hide ReadBlock; hide ValidBlock; hide After; hide BlockSupported; hide SupportedBlock;
    var b, rest, last := blocks[0], blocks[1..], |blocks| == 1;
    var first, out' := BlockBits(b, last, |out|, p), After(b, out);
    var more := StreamBits(rest, p + |first|, out');
    BeginsSplit(str, p, first, more);
    TakeBlock(str, p, b, last, out);
    FirstSupported(str, p, b, last, out);
    AllOrFirst(blocks);
    if !last { TakeStream(str, p + |first|, rest, out'); }
  }

  lemma AllOrFirst(blocks: seq<Block>)
    requires blocks != []
    ensures (forall b :: b in blocks ==> SupportedBlock(b))
       <==> SupportedBlock(blocks[0]) && forall b :: b in blocks[1..] ==> SupportedBlock(b)
  {
    hide SupportedBlock;
    assert blocks == [blocks[0]] + blocks[1..];
  }

  lemma FirstSupported(str: Stream, p: nat, b: Block, last: bool, out: Output)
    requires ValidBlock(b, |out|) && Begins(str, p, BlockBits(b, last, |out|, p))
    ensures BlockSupported(str, KindOf(b), p + 3) <==> SupportedBlock(b)
  {
    hide Begins; hide LowFirst; hide BodyBits; hide ValidBlock; hide BlockSupported; hide SupportedBlock;
    var body := BodyBits(b, |out|, p + 3);
    BeginsSplit(str, p, LowFirst(if last then 1 else 0, 1), LowFirst(KindOf(b), 2) + body);
    BeginsSplit(str, p + 1, LowFirst(KindOf(b), 2), body);
    BodySupported(str, p + 3, b, out);
  }

  // ---- The bytes of a stream ----

  lemma {:induction false} BytesNumber(bytes: seq<Byte>)
    ensures |BytesBits(bytes)| == 8 * |bytes| && Number(BytesBits(bytes)) == Value(bytes)
    decreases |bytes|
  {
    hide LowFirst;
    if bytes != [] {
      hide Number;
      BytesNumber(bytes[1..]);
      ByteThen(bytes[0], BytesBits(bytes[1..]));
    }
  }

  lemma ByteThen(v: Byte, rest: Bits)
    ensures Number(LowFirst(v, 8) + rest) == v + 256 * Number(rest)
  {
    NumberOfLowFirst(v, 8);
    NumberSplit(LowFirst(v, 8), rest);
    Widths();
    hide *;
    var p := Pow2(8);
    assert p == 256;
    DivModUnique(0, v, p);
  }

  lemma WholeBegins(bits: Bits)
    ensures Begins(Stream(Number(bits), |bits|), 0, bits)
  {
    assert Pow2(0) == 1;
    hide Number; hide Pow2;
    NumberSplit(bits, []);
    DivModUnique(0, Number(bits), Pow2(|bits|));
  }

  lemma BytesBegin(bytes: seq<Byte>, bits: Bits)
    requires bits <= BytesBits(bytes)
    ensures Begins(Stream(Value(bytes), 8 * |bytes|), 0, bits)
  {
    hide Begins; hide Number; hide BytesBits; hide Value;
    var all := BytesBits(bytes);
    BytesNumber(bytes);
    WholeBegins(all);
    assert all == bits + all[|bits|..];
    BeginsSplit(Stream(Value(bytes), 8 * |bytes|), 0, bits, all[|bits|..]);
  }

  /** Main result: whatever blocks an encoder has written, bytes that begin with its bits are read as what the blocks stand
      for, and the program supports them exactly if it supports all blocks. */
  lemma EncodedIsDecoded(bytes: seq<Byte>, blocks: seq<Block>)
    requires blocks != [] && ValidBlocks(blocks, []) && StreamBits(blocks, 0, []) <= BytesBits(bytes)
    ensures var str := Stream(Value(bytes), 8 * |bytes|);
            && ReadBlocks(str, 0, []) == Got(AfterAll(blocks, []), |StreamBits(blocks, 0, [])|)
            && (AllSupported(str, 0, []) <==> forall b :: b in blocks ==> SupportedBlock(b))
  {
    hide Begins; hide StreamBits; hide ValidBlocks; hide ReadBlocks; hide AllSupported; hide SupportedBlock; hide AfterAll; hide BytesBits; hide Value;
    BytesBegin(bytes, StreamBits(blocks, 0, []));
    TakeStream(Stream(Value(bytes), 8 * |bytes|), 0, blocks, []);
  }

  // ---- Blocks with fixed codes ----

  /** The codes of section 3.2.6 of RFC 1951. */
  lemma FixedCodes(s: nat)
    ensures |FixedLiterals()| == 288 && |FixedDistances()| == 30
    ensures s < 144 ==> Code(FixedLiterals(), s) == HighFirst(0x30 + s, 8)
    ensures 144 <= s < 256 ==> Code(FixedLiterals(), s) == HighFirst(0x190 + (s - 144), 9)
    ensures 256 <= s < 280 ==> Code(FixedLiterals(), s) == HighFirst(s - 256, 7)
    ensures 280 <= s < 288 ==> Code(FixedLiterals(), s) == HighFirst(0xc0 + (s - 280), 8)
    ensures s < 30 ==> Code(FixedDistances(), s) == HighFirst(s, 5)
  {
    hide HighFirst;
    if s < 288 { FixedLiteralCode(s); }
    if s < 30 { FixedDistanceCode(s); }
    hide CodeOf;
  }

  lemma FixedLiteralCode(s: nat)
    requires s < 288
    ensures CodeOf(FixedLiterals(), s)
         == if s < 144 then 0x30 + s else if s < 256 then 0x190 + (s - 144) else if s < 280 then s - 256 else 0xc0 + (s - 280)
  {
    var l := FixedLiterals();
    var k := l[s];
    CountFixedLiterals(s, k);
    hide FixedLiterals; hide CountUpTo; hide FirstCode;
    forall k | 1 <= k <= 9 ensures Count(l, k) == if k == 7 then 24 else if k == 8 then 152 else if k == 9 then 112 else 0 {
      CountFixedLiterals(288, k);
    }
    NoCodesUpTo(l, 7);
    NextFirstCode(l, 7);
    NextFirstCode(l, 8);
  }

  lemma FixedDistanceCode(s: nat)
    requires s < 30
    ensures CodeOf(FixedDistances(), s) == s
  {
    var l := FixedDistances();
    assert l[s] == 5;
    CountFixedDistances(s, 5);
    hide FixedDistances; hide CountUpTo; hide FirstCode;
    forall k | 1 <= k < 5 ensures Count(l, k) == 0 { CountFixedDistances(30, k); }
    NoCodesUpTo(l, 5);
  }

  function AsLiterals(data: Output): seq<Token> { seq(|data|, i requires 0 <= i < |data| => Literal(data[i])) }

  /** All data can be encoded. */
  lemma {:induction false} LiteralsExpand(data: Output, out: Output)
    ensures ValidTokens(AsLiterals(data), |out|) && Expand(AsLiterals(data), out) == out + data
    ensures AllHaveCodes(FixedLiterals(), FixedDistances(), AsLiterals(data))
    decreases |data|
  {
    if data == [] {
      assert out + data == out;
    } else {
      var rest := data[1..];
      assert AsLiterals(data)[1..] == AsLiterals(rest);
      LiteralsExpand(rest, out + [data[0]]);
      assert out + [data[0]] + rest == out + data;
    }
  }
}
