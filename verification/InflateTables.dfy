/** The tables of huft_build: where each table stands in the code, and what makes the tables that
    have been built so far right.

    A table that is entered after `w` bits, which read `prefix`, decodes the next `bits` bits.  Its
    entry j stands for all windows that begin with the w + bits bits of prefix + Pow2(w) * j. */
module InflateTables {
  import opened Arithmetic
  import opened InflateBits
  import opened InflateHuffman

  const LITERAL := 16
  const END_OF_BLOCK := 15
  const INVALID_CODE := 99

  /** struct huft: `v` is a value or base, or the number of the next table if e says so. */
  datatype Huft = Huft(e: nat, b: nat, v: nat)

  /** Tables in the order in which they were allocated. */
  type Tables = seq<seq<Huft>>

  /** Where a table stands; this is not stored in it. */
  datatype Place = Place(w: nat, prefix: nat, bits: nat)
  {
    /** Bits read after an entry of this table has been selected. */
    function Depth(): nat { w + bits }

    /** The bits entry j stands for. */
    function Pattern(j: nat): nat { prefix + Pow2(w) * j }
  }

  /** The arguments of huft_build: code lengths, the number of simple codes, and the base values
      and extra bits of the others. */
  datatype Alphabet = Alphabet(lens: Lengths, s: nat, base: seq<nat>, extra: seq<nat>)
  {
    /** Every symbol has a base value and a number of extra bits; 99 marks a symbol that must not occur. */
    predicate Valid() {
      && 0 < |lens| <= 288
      && |base| == |extra|
      && |lens| <= s + |base|
      && forall i :: 0 <= i < |extra| ==> extra[i] < END_OF_BLOCK || extra[i] == INVALID_CODE
    }

    /** The entry for a symbol, but for the bits it dumps. */
    function Meaning(symbol: nat): (int, int)
      requires |base| == |extra| && symbol < s + |base|
    {
      if symbol < s then (if symbol < 256 then LITERAL else END_OF_BLOCK, symbol)
      else (extra[symbol - s], base[symbol - s])
    }
  }

  predicate IsLink(en: Huft) { en.e > LITERAL && en.e != INVALID_CODE }

  /** The entry stands for the code that its pattern begins with. */
  predicate IsLeaf(alpha: Alphabet, g: nat, pl: Place, j: nat, en: Huft)
    requires alpha.Valid()
  {
    var x := pl.Pattern(j);
    var k := CodeLength(alpha.lens, x, 1);
    if k <= pl.Depth() && k <= BMAX then
      && Rev(k, x) >= FirstCode(alpha.lens, k)
      && var symbol := SymbolAt(alpha.lens, k, Rev(k, x) - FirstCode(alpha.lens, k));
      && symbol < |alpha.lens|
      && pl.w < k && en.b == k - pl.w
      && (en.e as int, en.v as int) == alpha.Meaning(symbol)
    else
      pl.Depth() == g && en.e == INVALID_CODE && en.b == pl.bits
  }

  /** The entry leads to a later table, which stands where the entry ends. */
  predicate IsLinkTo(places: seq<Place>, t: nat, j: nat, en: Huft)
    requires t < |places|
  {
    && t < en.v < |places|
    && en.b == places[t].bits
    && en.e == 16 + places[en.v].bits
    && places[en.v].w == places[t].Depth()
    && places[en.v].prefix == places[t].Pattern(j)
  }

  predicate EntryOk(alpha: Alphabet, g: nat, places: seq<Place>, t: nat, j: nat, en: Huft)
    requires alpha.Valid() && t < |places|
  {
    if IsLink(en) then IsLinkTo(places, t, j, en) else IsLeaf(alpha, g, places[t], j, en)
  }

  /** The windows of entry j come before `pos` in the order of their codes. */
  predicate Before(g: nat, pl: Place, j: nat, pos: nat)
    requires pl.Depth() <= g
  {
    Start(g, pl.Depth(), pl.Pattern(j)) < pos
  }

  /** Sizes and depths.  A table that is entered within the code of symbol 256 does not go beyond it. */
  predicate PlaceOk(g: nat, el: nat, pl: Place, table: seq<Huft>) {
    && 0 < pl.bits && pl.Depth() <= g <= BMAX
    && pl.prefix < Pow2(pl.w)
    && |table| == Pow2(pl.bits)
    && (pl.w < el ==> pl.Depth() <= el)
  }

  ghost predicate PlacesOk(g: nat, el: nat, places: seq<Place>, tables: Tables) {
    && |places| == |tables|
    && (forall t :: 0 <= t < |places| ==> PlaceOk(g, el, places[t], tables[t]))
  }

  /** All entries for windows before pos are right. */
  ghost predicate RightBefore(alpha: Alphabet, g: nat, el: nat, places: seq<Place>, tables: Tables, pos: nat)
    requires alpha.Valid() && PlacesOk(g, el, places, tables)
  {
    forall t, j :: 0 <= t < |places| && 0 <= j < |tables[t]| ==>
                     Before(g, places[t], j, pos) ==> EntryOk(alpha, g, places, t, j, tables[t][j])
  }

  // ---- Reading a table ----

  /** What is found in the tables for a window that starts with what table t is about to decode. */
  function Walk(tables: Tables, t: nat, bits: nat, x: nat): (r: Huft)
    decreases |tables| - t
  {
    if t < |tables| && Low(x, bits) < |tables[t]| then
      var en := tables[t][Low(x, bits)];
      if IsLink(en) && t < en.v then
        var r := Walk(tables, en.v, en.e - 16, Drop(x, en.b));
        r.(b := en.b + r.b)
      else en
    else Huft(INVALID_CODE, 0, 0)
  }

  /** How many bits are asked for on the way to what Walk finds. */
  function Requested(tables: Tables, t: nat, bits: nat, x: nat): nat
    decreases |tables| - t
  {
    if t < |tables| && Low(x, bits) < |tables[t]| then
      var en := tables[t][Low(x, bits)];
      if IsLink(en) && t < en.v then bits + Requested(tables, en.v, en.e - 16, Drop(x, en.b)) else bits
    else bits
  }

  /** What a decoder has to find for a window. */
  predicate Found(alpha: Alphabet, x: nat, r: Huft)
    requires alpha.Valid()
  {
    match Decode(alpha.lens, x)
    case NoCode => r.e == INVALID_CODE
    case Symbol(s, n) => s < |alpha.lens| && r.b == n && (r.e as int, r.v as int) == alpha.Meaning(s)
  }

  // ---- What right tables find ----

  lemma PatternParts(pl: Place, j: nat)
    requires pl.prefix < Pow2(pl.w) && j < Pow2(pl.bits)
    ensures pl.Pattern(j) % Pow2(pl.w) == pl.prefix && pl.Pattern(j) / Pow2(pl.w) == j
    ensures pl.Pattern(j) < Pow2(pl.Depth())
  {
    hide Pow2;
    DivModUnique(j, pl.prefix, Pow2(pl.w));
    Pow2Add(pl.w, pl.bits);
    MulMono(j + 1, Pow2(pl.bits), Pow2(pl.w));
    MulDist(j, 1, Pow2(pl.w));
  }

  /** The entry that a window selects in a table it reaches. */
  lemma PatternOf(pl: Place, x: nat)
    requires Low(x, pl.w) == pl.prefix
    ensures pl.Pattern(Low(Drop(x, pl.w), pl.bits)) == Low(x, pl.Depth())
    ensures Drop(Drop(x, pl.w), pl.bits) == Drop(x, pl.Depth())
  {
    hide Pow2;
    Pow2Add(pl.w, pl.bits);
    DivDiv(x, Pow2(pl.w), Pow2(pl.bits));
  }

  lemma ModMod(x: nat, k: nat, n: nat)
    requires k <= n
    ensures Low(Low(x, n), k) == Low(x, k)
  {
    hide Pow2;
    Pow2Add(k, n - k);
    var y := x % Pow2(n);
    DivDiv(x, Pow2(k), Pow2(n - k));
    var r := x / Pow2(k) % Pow2(n - k);
    DivModUnique(r, x % Pow2(k), Pow2(k));
  }

  lemma {:induction false} CodeLengthOfPrefix(lens: Lengths, x: nat, n: nat, k: nat)
    requires 0 < k <= BMAX + 1
    ensures CodeLength(lens, Low(x, n), k) <= n ==> CodeLength(lens, x, k) == CodeLength(lens, Low(x, n), k)
    ensures CodeLength(lens, Low(x, n), k) > n ==> CodeLength(lens, x, k) > n
    decreases BMAX + 1 - k
  {
    hide EndCode; hide Rev; hide Pow2;
    if k <= BMAX {
      if k <= n {
        ModMod(x, k, n);
        RevMod(k, x, Low(x, n));
      }
      CodeLengthOfPrefix(lens, x, n, k + 1);
    }
  }

  /** All codes are at most g bits long. */
  predicate Longest(lens: Lengths, g: nat) {
    g <= BMAX && forall k :: g < k <= BMAX ==> Count(lens, k) == 0
  }

  lemma {:induction false} NoLongerCode(lens: Lengths, g: nat, x: nat, k: nat)
    requires Longest(lens, g) && g < k <= BMAX + 1
    requires Rev(k - 1, x) >= EndCode(lens, k - 1)
    ensures CodeLength(lens, x, k) == BMAX + 1
    decreases BMAX + 1 - k
  {
    hide Rev; hide Count;
    if k <= BMAX {
      RevAppend(k - 1, x);
      assert EndCode(lens, k) == 2 * EndCode(lens, k - 1);
      NoLongerCode(lens, g, x, k + 1);
    }
  }

  lemma {:induction false} NotShorter(lens: Lengths, x: nat, j: nat, k: nat)
    requires 0 < j <= k <= BMAX && CodeLength(lens, x, j) > k
    ensures Rev(k, x) >= EndCode(lens, k)
    decreases k - j
  {
    hide Rev; hide EndCode;
    if j < k { NotShorter(lens, x, j + 1, k); }
  }

  /** A leaf is right for every window that begins with its pattern. */
  lemma LeafFound(alpha: Alphabet, g: nat, pl: Place, j: nat, en: Huft, x: nat)
    requires alpha.Valid() && Longest(alpha.lens, g) && 0 < g && pl.Depth() <= g
    requires pl.Pattern(j) == Low(x, pl.Depth()) && IsLeaf(alpha, g, pl, j, en)
    ensures Found(alpha, x, en.(b := pl.w + en.b))
  {
    hide Rev; hide Pow2; hide FirstCode; hide SymbolAt; hide EndCode; hide CodeLength;
    var n := pl.Depth();
    CodeLengthOfPrefix(alpha.lens, x, n, 1);
    var k := CodeLength(alpha.lens, x, 1);
    if CodeLength(alpha.lens, pl.Pattern(j), 1) <= n {
      if k <= BMAX {
        ModMod(x, k, n);
        RevMod(k, x, Low(x, n));
      }
    } else if k <= BMAX {
      NotShorter(alpha.lens, x, 1, g);
      LongCode(alpha.lens, x, 1, g);
    }
  }

  lemma {:induction false} LongCode(lens: Lengths, x: nat, k: nat, g: nat)
    requires Longest(lens, g) && 0 < k <= g && CodeLength(lens, x, k) > g && Rev(g, x) >= EndCode(lens, g)
    ensures CodeLength(lens, x, k) == BMAX + 1
    decreases g - k
  {
    hide Rev; hide EndCode;
    if k < g { LongCode(lens, x, k + 1, g); } else { NoLongerCode(lens, g, x, g + 1); }
  }

  lemma AllBefore(alpha: Alphabet, g: nat, el: nat, places: seq<Place>, tables: Tables, t: nat, j: nat)
    requires alpha.Valid() && PlacesOk(g, el, places, tables) && RightBefore(alpha, g, el, places, tables, Pow2(g))
    requires t < |tables| && j < |tables[t]|
    ensures PlaceOk(g, el, places[t], tables[t])
    ensures EntryOk(alpha, g, places, t, j, tables[t][j])
  {
    hide EntryOk; hide Pow2; hide Rev;
    StartBound(g, places[t].Depth(), places[t].Pattern(j));
    assert Before(g, places[t], j, Pow2(g));
  }

  /** Main result for finished tables: walking them from the table where a window has got to finds
      the symbol that bit by bit decoding finds, and dumps as many bits as its code has. */
  lemma {:induction false} WalkFinds(alpha: Alphabet, g: nat, el: nat, places: seq<Place>, tables: Tables, t: nat, x: nat)
    requires alpha.Valid() && Longest(alpha.lens, g) && 0 < g
    requires PlacesOk(g, el, places, tables) && RightBefore(alpha, g, el, places, tables, Pow2(g))
    requires t < |tables| && Low(x, places[t].w) == places[t].prefix
    ensures var r := Walk(tables, t, places[t].bits, Drop(x, places[t].w));
            Found(alpha, x, r.(b := places[t].w + r.b)) && !IsLink(r)
    decreases |tables| - t
  {
    hide Pow2; hide IsLeaf; hide Found; hide RightBefore; hide Longest; hide Low; hide Drop; hide Place.Pattern;
    var pl := places[t];
    assert PlaceOk(g, el, pl, tables[t]);
    var j := Low(Drop(x, pl.w), pl.bits);
    PatternOf(pl, x);
    AllBefore(alpha, g, el, places, tables, t, j);
    var en := tables[t][j];
    if IsLink(en) {
      WalkFinds(alpha, g, el, places, tables, en.v, x);
    } else {
      LeafFound(alpha, g, pl, j, en, x);
    }
  }

  /** Symbol 256 is found without asking for more bits than its own code has. */
  lemma {:induction false} EndOfBlockRequests(alpha: Alphabet, g: nat, places: seq<Place>, tables: Tables, t: nat, x: nat)
    requires alpha.Valid() && Longest(alpha.lens, g) && 0 < g && 256 < |alpha.lens| && 256 < alpha.s
    requires PlacesOk(g, alpha.lens[256], places, tables)
    requires RightBefore(alpha, g, alpha.lens[256], places, tables, Pow2(g))
    requires t < |tables| && Low(x, places[t].w) == places[t].prefix
    requires Matches(alpha.lens, 256, x)
    ensures places[t].w + Requested(tables, t, places[t].bits, Drop(x, places[t].w)) == alpha.lens[256]
    decreases |tables| - t
  {
    hide Pow2; hide IsLeaf; hide RightBefore; hide Longest; hide Low; hide Drop; hide Place.Pattern; hide Matches; hide Decode;
    var el := alpha.lens[256];
    var pl := places[t];
    assert PlaceOk(g, el, pl, tables[t]);
    var j := Low(Drop(x, pl.w), pl.bits);
    PatternOf(pl, x);
    AllBefore(alpha, g, el, places, tables, t, j);
    var en := tables[t][j];
    DecodeIsMatching(alpha.lens, x, 256);
    if IsLink(en) {
      EndOfBlockRequests(alpha, g, places, tables, en.v, x);
    } else {
      LeafFound(alpha, g, pl, j, en, x);
      LeafDepth(alpha, g, pl, j, en);
    }
  }

  lemma LeafDepth(alpha: Alphabet, g: nat, pl: Place, j: nat, en: Huft)
    requires alpha.Valid() && 0 < pl.bits && IsLeaf(alpha, g, pl, j, en)
    ensures pl.w < pl.w + en.b <= pl.Depth()
  {
  }
}
