/** The DEFLATE format, RFC 1951, as a decoder that keeps the whole output and decodes Huffman codes
    bit by bit.  The input is one number: byte i is its bits 8 * i to 8 * i + 7. */
module InflateFormat {
  import opened Arithmetic
  import opened InflateBits
  import opened InflateHuffman

  type Byte = x: nat | x < 256

  type Output = seq<Byte>

  /** The bytes as one number, the first byte in the low bits. */
  function Value(bytes: seq<Byte>): nat {
    if bytes == [] then 0 else bytes[0] + 256 * Value(bytes[1..])
  }

  /** A bit stream: `bits` bits of `value` can be read. */
  datatype Stream = Stream(value: nat, bits: nat)
  {
    /** What is left of the stream from bit p on. */
    function From(p: nat): nat { Drop(value, p) }
  }

  datatype Result<T> = Invalid | Got(value: T, p: nat)

  function ReadBits(str: Stream, p: nat, n: nat): Result<nat> {
    if p + n <= str.bits then Got(Low(str.From(p), n), p + n) else Invalid
  }

  function ReadSymbol(str: Stream, lens: Lengths, p: nat): (r: Result<nat>)
    ensures r.Got? ==> p < r.p <= str.bits && r.value < |lens|
  {
    match Decode(lens, str.From(p))
    case NoCode => Invalid
    case Symbol(s, n) => if s < |lens| && 0 < n && p + n <= str.bits then Got(s, p + n) else Invalid
  }

  // ---- Lengths and distances, section 3.2.5 ----

  const LENGTH_BASE: seq<nat> := [3, 4, 5, 6, 7, 8, 9, 10, 11, 13, 15, 17, 19, 23, 27, 31,
                                  35, 43, 51, 59, 67, 83, 99, 115, 131, 163, 195, 227, 258]
  const LENGTH_EXTRA: seq<nat> := [0, 0, 0, 0, 0, 0, 0, 0, 1, 1, 1, 1, 2, 2, 2, 2,
                                   3, 3, 3, 3, 4, 4, 4, 4, 5, 5, 5, 5, 0]
  const DISTANCE_BASE: seq<nat> := [1, 2, 3, 4, 5, 7, 9, 13, 17, 25, 33, 49, 65, 97, 129, 193,
                                    257, 385, 513, 769, 1025, 1537, 2049, 3073, 4097, 6145,
                                    8193, 12289, 16385, 24577]
  const DISTANCE_EXTRA: seq<nat> := [0, 0, 0, 0, 1, 1, 2, 2, 3, 3, 4, 4, 5, 5, 6, 6,
                                     7, 7, 8, 8, 9, 9, 10, 10, 11, 11, 12, 12, 13, 13]

  /** A base value and extra bits that are added to it. */
  function ReadExtra(str: Stream, base: seq<nat>, extra: seq<nat>, symbol: nat, p: nat): (r: Result<nat>)
    ensures r.Got? ==> p <= r.p <= str.bits
  {
    if symbol >= |base| || symbol >= |extra| then Invalid
    else
      match ReadBits(str, p, extra[symbol])
      case Invalid => Invalid
      case Got(v, q) => Got(base[symbol] + v, q)
  }

  /** Appends n bytes, each a copy of the one `distance` bytes back. */
  function CopyMatch(out: Output, distance: nat, n: nat): (r: Output)
    requires 0 < distance <= |out|
    ensures |r| == |out| + n
    decreases n
  {
    if n == 0 then out else CopyMatch(out + [out[|out| - distance]], distance, n - 1)
  }

  function ReadDistance(str: Stream, dist: Lengths, p: nat): (r: Result<nat>)
    ensures r.Got? ==> p <= r.p <= str.bits
  {
    match ReadSymbol(str, dist, p)
    case Invalid => Invalid
    case Got(d, q) => ReadExtra(str, DISTANCE_BASE, DISTANCE_EXTRA, d, q)
  }

  /** A match: the extra bits of its length, and its distance. */
  function ReadMatch(str: Stream, dist: Lengths, symbol: nat, p: nat, out: Output): (r: Result<Output>)
    requires symbol > 256
    ensures r.Got? ==> p <= r.p <= str.bits
  {
    match ReadExtra(str, LENGTH_BASE, LENGTH_EXTRA, symbol - 257, p)
    case Invalid => Invalid
    case Got(length, q) =>
      match ReadDistance(str, dist, q)
      case Invalid => Invalid
      case Got(distance, q') =>
        if 0 < distance <= |out| then Got(CopyMatch(out, distance, length), q') else Invalid
  }

  /** The compressed data of a block up to its end-of-block symbol. */
  function ReadCodes(str: Stream, lit: Lengths, dist: Lengths, p: nat, out: Output): (r: Result<Output>)
    ensures r.Got? ==> p < r.p <= str.bits
    decreases str.bits - p
  {
    match ReadSymbol(str, lit, p)
    case Invalid => Invalid
    case Got(symbol, q) =>
      if symbol < 256 then ReadCodes(str, lit, dist, q, out + [symbol])
      else if symbol == 256 then Got(out, q)
      else
        match ReadMatch(str, dist, symbol, q, out)
        case Invalid => Invalid
        case Got(out', q') => ReadCodes(str, lit, dist, q', out')
  }

  // ---- Block types, sections 3.2.3 to 3.2.7 ----

  function ReadBytes(str: Stream, p: nat, n: nat, out: Output): (r: Result<Output>)
    ensures r.Got? ==> p <= r.p <= str.bits || n == 0
    decreases n
  {
    if n == 0 then Got(out, p)
    else
      match ReadBits(str, p, 8)
      case Invalid => Invalid
      case Got(v, q) => ReadBytes(str, q, n - 1, out + [ByteOf(v)])
  }

  function ByteOf(v: nat): Byte { v % 256 }

  /** The next byte boundary. */
  function Align(p: nat): (q: nat)
    ensures p <= q < p + 8 && q % 8 == 0
  {
    (p + 7) / 8 * 8
  }

  function ReadStored(str: Stream, p: nat, out: Output): (r: Result<Output>)
    ensures r.Got? ==> p <= r.p <= str.bits
  {
    match ReadBits(str, Align(p), 16)
    case Invalid => Invalid
    case Got(len, p1) =>
      match ReadBits(str, p1, 16)
      case Invalid => Invalid
      case Got(nlen, p2) => if len + nlen == 0xffff then ReadBytes(str, p2, len, out) else Invalid
  }

  /** Lengths that can be sent. */
  type SentLengths = lens: seq<nat> | forall i :: 0 <= i < |lens| ==> lens[i] < 16

  function FixedLength(s: nat): (l: nat)
    ensures 7 <= l <= 9
  {
    if s < 144 then 8 else if s < 256 then 9 else if s < 280 then 7 else 8
  }

  function FixedLiterals(): (lens: SentLengths)
    ensures |lens| == 288
  {
    seq(288, (s: nat) => FixedLength(s))
  }

  /** Distance codes 30 and 31 never occur. */
  function FixedDistances(): (lens: SentLengths)
    ensures |lens| == 30
  {
    seq(30, _ => 5)
  }

  /** The order in which the lengths of code length codes are sent. */
  const BORDER: seq<nat> := [16, 17, 18, 0, 8, 7, 9, 6, 10, 5, 11, 4, 12, 3, 13, 2, 14, 1, 15]

  type CodeLengthLengths = l: seq<nat> | |l| == 19 && forall i :: 0 <= i < |l| ==> l[i] < 8 witness seq(19, _ => 0)

  function NoLengths(): CodeLengthLengths { seq(19, _ => 0) }

  /** Sets the lengths from place j of the order on: n of them are sent, the others are zero. */
  function ReadCodeLengthLengths(str: Stream, p: nat, n: nat, j: nat, lens: CodeLengthLengths): (r: Result<CodeLengthLengths>)
    requires j <= 19
    ensures r.Got? ==> p <= r.p
    decreases 19 - j
  {
    if j == 19 then Got(lens, p)
    else if j < n then
      match ReadBits(str, p, 3)
      case Invalid => Invalid
      case Got(v, q) => ReadCodeLengthLengths(str, q, n, j + 1, lens[BORDER[j] := v % 8])
    else ReadCodeLengthLengths(str, p, n, j + 1, lens[BORDER[j] := 0])
  }

  function Repeated(v: nat, n: nat): seq<nat> { seq(n, _ => v) }

  /** The next run of code lengths: one length, or a repetition of the last one or of zeros. */
  function ReadRun(str: Stream, clens: Lengths, p: nat, before: seq<nat>): (r: Result<seq<nat>>)
    ensures r.Got? ==> p < r.p <= str.bits
    ensures r.Got? && (forall i :: 0 <= i < |before| ==> before[i] < 16) ==> forall i :: 0 <= i < |r.value| ==> r.value[i] < 16
  {
    match ReadSymbol(str, clens, p)
    case Invalid => Invalid
    case Got(s, q) =>
      if s < 16 then Got([s], q)
      else if s == 16 && before == [] then Invalid
      else
        match ReadBits(str, q, if s == 16 then 2 else if s == 17 then 3 else 7)
        case Invalid => Invalid
        case Got(v, q') =>
          Got(if s == 16 then Repeated(before[|before| - 1], 3 + v) else Repeated(0, if s == 17 then 3 + v else 11 + v), q')
  }

  /** Reads code lengths until there are n of them. */
  function ReadLengths(str: Stream, clens: Lengths, p: nat, n: nat, lens: SentLengths): (r: Result<SentLengths>)
    ensures r.Got? ==> |r.value| == n && p <= r.p
    decreases str.bits - p
  {
    if |lens| == n then Got(lens, p)
    else if |lens| > n then Invalid
    else
      match ReadRun(str, clens, p, lens)
      case Invalid => Invalid
      case Got(run, q) => if |lens| + |run| > n then Invalid else ReadLengths(str, clens, q, n, lens + run)
  }

  /** A set of code lengths a decoder has to accept: it is complete, or has only one code, of one bit. */
  predicate Acceptable(lens: Lengths) {
    !AllZero(lens) && !Oversubscribed(lens) && (Complete(lens) || forall s :: 0 <= s < |lens| ==> lens[s] <= 1)
  }

  /** The distance code may also be missing, if all data are literals: then no symbol can be read with it. */
  predicate AcceptableDistances(lens: Lengths) { Acceptable(lens) || AllZero(lens) }

  datatype Codes = Codes(lit: SentLengths, dist: SentLengths)

  /** The sizes of the three codes: literal and length codes, distance codes, code length codes. */
  datatype Sizes = Sizes(nl: nat, nd: nat, nb: nat)

  function ReadSizes(str: Stream, p: nat): (r: Result<Sizes>)
    ensures r.Got? ==> p <= r.p <= str.bits && 257 <= r.value.nl <= 286 && 1 <= r.value.nd <= 32
  {
    match ReadBits(str, p, 5)
    case Invalid => Invalid
    case Got(hlit, p1) =>
      match ReadBits(str, p1, 5)
      case Invalid => Invalid
      case Got(hdist, p2) =>
        match ReadBits(str, p2, 4)
        case Invalid => Invalid
        case Got(hclen, p3) =>
          if hlit > 29 then Invalid else Got(Sizes(257 + hlit, 1 + hdist, 4 + hclen), p3)
  }

  /** The codes at the beginning of a block with dynamic Huffman codes. */
  function ReadDynamicCodes(str: Stream, p: nat): (r: Result<Codes>)
    ensures r.Got? ==> p <= r.p
    ensures r.Got? ==> 257 <= |r.value.lit| <= 286 && 1 <= |r.value.dist| <= 32
  {
    match ReadSizes(str, p)
    case Invalid => Invalid
    case Got(sizes, q) =>
      match ReadCodeLengthLengths(str, q, sizes.nb, 0, NoLengths())
      case Invalid => Invalid
      case Got(clens, q') => if Acceptable(clens) then ReadCodeSets(str, clens, sizes, q') else Invalid
  }

  function SplitCodes(lens: SentLengths, nl: nat): (r: Codes)
    requires nl <= |lens|
    ensures |r.lit| == nl && |r.dist| == |lens| - nl
  {
    Codes(lens[..nl], lens[nl..])
  }

  predicate AcceptableCodes(codes: Codes) {
    Acceptable(codes.lit) && AcceptableDistances(codes.dist)
  }

  /** The code lengths of both codes are sent as one sequence. */
  function ReadCodeSets(str: Stream, clens: Lengths, sizes: Sizes, p: nat): (r: Result<Codes>)
    requires 257 <= sizes.nl <= 286 && 1 <= sizes.nd <= 32
    ensures r.Got? ==> p <= r.p && |r.value.lit| == sizes.nl && |r.value.dist| == sizes.nd
  {
    match ReadLengths(str, clens, p, sizes.nl + sizes.nd, [])
    case Invalid => Invalid
    case Got(lens, q) =>
      var codes := SplitCodes(lens, sizes.nl);
      if AcceptableCodes(codes) then Got(codes, q) else Invalid
  }

  /** One block after its header. */
  function ReadBlock(str: Stream, kind: nat, p: nat, out: Output): (r: Result<Output>)
    ensures r.Got? ==> p <= r.p
  {
    if kind == 0 then ReadStored(str, p, out)
    else if kind == 1 then ReadCodes(str, FixedLiterals(), FixedDistances(), p, out)
    else if kind == 2 then
      match ReadDynamicCodes(str, p)
      case Invalid => Invalid
      case Got(codes, q) => ReadCodes(str, codes.lit, codes.dist, q, out)
    else Invalid
  }

  /** Blocks up to the one that is marked as the last. */
  function ReadBlocks(str: Stream, p: nat, out: Output): (r: Result<Output>)
    ensures r.Got? ==> p <= r.p
    decreases str.bits - p
  {
    match ReadBits(str, p, 1)
    case Invalid => Invalid
    case Got(last, p1) =>
      match ReadBits(str, p1, 2)
      case Invalid => Invalid
      case Got(kind, p2) =>
        match ReadBlock(str, kind, p2, out)
        case Invalid => Invalid
        case Got(out', p3) =>
          if last == 1 then Got(out', p3)
          else if p3 <= str.bits then ReadBlocks(str, p3, out')
          else Invalid
  }
}
