/** Canonical Huffman codes as section 3.2.2 of RFC 1951 assigns them, and what it means to decode
    with them. */
module InflateHuffman {
  import opened Arithmetic
  import opened InflateBits

  const BMAX := 16

  /** Code lengths in bits, zero for a symbol that does not occur. */
  type Lengths = lens: seq<nat> | forall s :: 0 <= s < |lens| ==> lens[s] <= BMAX

  /** How many of the first n symbols have codes of k bits. */
  function CountUpTo(lens: Lengths, n: nat, k: nat): (r: nat)
    requires n <= |lens|
    ensures r <= n
    decreases n
  {
    if n == 0 then 0 else CountUpTo(lens, n - 1, k) + if lens[n - 1] == k then 1 else 0
  }

  /** bl_count, with bl_count[0] set to zero. */
  function Count(lens: Lengths, k: nat): nat {
    if k == 0 then 0 else CountUpTo(lens, |lens|, k)
  }

  /** next_code before any code of k bits is assigned. */
  function FirstCode(lens: Lengths, k: nat): nat
    decreases k
  {
    if k == 0 then 0 else 2 * (FirstCode(lens, k - 1) + Count(lens, k - 1))
  }

  /** next_code after all codes of k bits are assigned. */
  function EndCode(lens: Lengths, k: nat): nat { FirstCode(lens, k) + Count(lens, k) }

  /** Codes of one length are consecutive, in the order of the symbols. */
  function CodeOf(lens: Lengths, s: nat): nat
    requires s < |lens|
  {
    FirstCode(lens, lens[s]) + CountUpTo(lens, s, lens[s])
  }

  /** The window x begins with the code of symbol s. */
  predicate Matches(lens: Lengths, s: nat, x: nat) {
    s < |lens| && lens[s] > 0 && Rev(lens[s], x) == CodeOf(lens, s)
  }

  /** The lengths ask for more codes than there are. */
  predicate Oversubscribed(lens: Lengths) { EndCode(lens, BMAX) > Pow2(BMAX) }

  predicate Complete(lens: Lengths) { EndCode(lens, BMAX) == Pow2(BMAX) }

  predicate AllZero(lens: Lengths) { forall s :: 0 <= s < |lens| ==> lens[s] == 0 }

  // ---- Bit by bit decoding ----

  /** The length of the code that x begins with, among those of k bits and more; BMAX + 1 if none. */
  function CodeLength(lens: Lengths, x: nat, k: nat): (r: nat)
    requires k <= BMAX + 1
    ensures k <= r <= BMAX + 1
    decreases BMAX + 1 - k
  {
    if k == BMAX + 1 || Rev(k, x) < EndCode(lens, k) then k else CodeLength(lens, x, k + 1)
  }

  /** The symbol with the r-th code of k bits, among the first n; n if there is none. */
  function SymbolUpTo(lens: Lengths, n: nat, k: nat, r: nat): (s: nat)
    requires n <= |lens|
    ensures s <= n
    ensures r < CountUpTo(lens, n, k) ==> s < n && lens[s] == k && CountUpTo(lens, s, k) == r
    decreases n
  {
    if n == 0 then 0
    else if r < CountUpTo(lens, n - 1, k) then SymbolUpTo(lens, n - 1, k, r)
    else if lens[n - 1] == k && r == CountUpTo(lens, n - 1, k) then n - 1
    else n
  }

  function SymbolAt(lens: Lengths, k: nat, r: nat): nat { SymbolUpTo(lens, |lens|, k, r) }

  datatype Decoded = NoCode | Symbol(s: nat, bits: nat)

  /** The symbol that a window begins with. */
  function Decode(lens: Lengths, x: nat): Decoded {
    var k := CodeLength(lens, x, 1);
    if k > BMAX || Rev(k, x) < FirstCode(lens, k) then NoCode
    else Symbol(SymbolAt(lens, k, Rev(k, x) - FirstCode(lens, k)), k)
  }

  // ---- Properties of canonical codes ----

  lemma {:induction false} CountGrows(lens: Lengths, m: nat, n: nat, k: nat)
    requires m <= n <= |lens|
    ensures CountUpTo(lens, m, k) <= CountUpTo(lens, n, k)
    decreases n
  {
    if m < n { CountGrows(lens, m, n - 1, k); }
  }

  lemma RankBelowCount(lens: Lengths, s: nat)
    requires s < |lens|
    ensures CountUpTo(lens, s, lens[s]) < CountUpTo(lens, |lens|, lens[s])
  {
    CountGrows(lens, s + 1, |lens|, lens[s]);
  }

  lemma {:induction false} SymbolOfRank(lens: Lengths, n: nat, s: nat)
    requires s < n <= |lens|
    ensures SymbolUpTo(lens, n, lens[s], CountUpTo(lens, s, lens[s])) == s
    decreases n
  {
    if s < n - 1 {
      SymbolOfRank(lens, n - 1, s);
      CountGrows(lens, s + 1, n - 1, lens[s]);
    }
  }

  /** What has no code of k bits or more has none of fewer bits either. */
  lemma {:induction false} BeyondShorter(lens: Lengths, x: nat, j: nat, k: nat)
    requires j < k && Rev(k, x) >= FirstCode(lens, k)
    ensures Rev(j, x) >= EndCode(lens, j)
    decreases k
  {
    RevAppend(k - 1, x);
    assert FirstCode(lens, k) == 2 * EndCode(lens, k - 1);
    if j < k - 1 { BeyondShorter(lens, x, j, k - 1); }
  }

  lemma {:induction false} CodeLengthIs(lens: Lengths, x: nat, j: nat, k: nat)
    requires 0 < j <= k <= BMAX
    requires FirstCode(lens, k) <= Rev(k, x) < EndCode(lens, k)
    ensures CodeLength(lens, x, j) == k
    decreases k - j
  {
    hide FirstCode; hide Rev; hide EndCode;
    if j < k {
      BeyondShorter(lens, x, j, k);
      CodeLengthIs(lens, x, j + 1, k);
    }
  }

  lemma {:induction false} CodeLengthFirst(lens: Lengths, x: nat, k: nat)
    requires 0 < k <= BMAX + 1
    requires Rev(k - 1, x) >= EndCode(lens, k - 1)
    ensures CodeLength(lens, x, k) <= BMAX ==>
              Rev(CodeLength(lens, x, k), x) >= FirstCode(lens, CodeLength(lens, x, k))
    decreases BMAX + 1 - k
  {
    if k <= BMAX {
      RevAppend(k - 1, x);
      if Rev(k, x) >= EndCode(lens, k) { CodeLengthFirst(lens, x, k + 1); }
    }
  }

  /** Decoding bit by bit finds a symbol exactly if the window begins with the symbol's code. */
  lemma DecodeIsMatching(lens: Lengths, x: nat, s: nat)
    ensures Matches(lens, s, x) <==> s < |lens| && Decode(lens, x) == Symbol(s, lens[s])
  {
    var k := CodeLength(lens, x, 1);
    if Matches(lens, s, x) {
      RankBelowCount(lens, s);
      CodeLengthIs(lens, x, 1, lens[s]);
      SymbolOfRank(lens, |lens|, s);
    }
    if s < |lens| && Decode(lens, x) == Symbol(s, lens[s]) {
      CodeLengthFirst(lens, x, 1);
      EndOfLength(lens, x, 1);
    }
  }

  lemma {:induction false} EndOfLength(lens: Lengths, x: nat, k: nat)
    requires k <= BMAX + 1
    ensures CodeLength(lens, x, k) <= BMAX ==> Rev(CodeLength(lens, x, k), x) < EndCode(lens, CodeLength(lens, x, k))
    decreases BMAX + 1 - k
  {
    if k <= BMAX { EndOfLength(lens, x, k + 1); }
  }

  /** No code is a prefix of another one, whatever the lengths are. */
  lemma PrefixFree(lens: Lengths, x: nat, s: nat, t: nat)
    requires Matches(lens, s, x) && Matches(lens, t, x)
    ensures s == t
  {
    DecodeIsMatching(lens, x, s);
    DecodeIsMatching(lens, x, t);
  }

  /** A window has no code exactly if it begins with the code of no symbol. */
  lemma NoCodeMeansNoMatch(lens: Lengths, x: nat)
    ensures Decode(lens, x).NoCode? <==> forall s: nat :: !Matches(lens, s, x)
  {
    if !Decode(lens, x).NoCode? {
      CodeLengthFirst(lens, x, 1);
      EndOfLength(lens, x, 1);
      DecodeIsMatching(lens, x, Decode(lens, x).s);
      assert Matches(lens, Decode(lens, x).s, x);
    }
    forall s: nat | Matches(lens, s, x) ensures !Decode(lens, x).NoCode? {
      DecodeIsMatching(lens, x, s);
    }
  }

  /** Decoding depends on no more bits than the longest code has. */
  lemma {:induction false} EndCodeGrows(lens: Lengths, j: nat, k: nat)
    requires j <= k
    ensures EndCode(lens, j) * Pow2(k - j) <= EndCode(lens, k)
    ensures (forall i :: j < i <= k ==> Count(lens, i) == 0) ==> EndCode(lens, k) == EndCode(lens, j) * Pow2(k - j)
    decreases k
  {
    if j < k {
      EndCodeGrows(lens, j, k - 1);
      hide Count;
      assert Pow2(k - j) == 2 * Pow2(k - 1 - j);
      MulDouble(EndCode(lens, j), Pow2(k - 1 - j));
    }
  }

  lemma MulDouble(a: nat, b: nat)
    ensures a * (2 * b) == 2 * (a * b)
  {
  }
}
