/** What holds while huft_build adds tables and entries in the order of the codes. */
module InflateForest {
  import opened Arithmetic
  import opened InflateBits
  import opened InflateHuffman
  import opened InflateTables

  // ---- Entries for one code ----

  lemma LowHigh(i: nat, w: nat)
    ensures i == Low(i, w) + Pow2(w) * Drop(i, w)
    ensures i < Pow2(w) ==> Low(i, w) == i && Drop(i, w) == 0
  {
    hide Pow2;
    DivMod(i, Pow2(w));
    if i < Pow2(w) { DivModUnique(0, i, Pow2(w)); }
  }

  /** The entries of a table that begin with code i are those that repeat it every Pow2(k - w). */
  lemma PatternLow(pl: Place, j: nat, k: nat, i: nat)
    requires pl.w < k <= pl.Depth() && pl.prefix == Low(i, pl.w) && i < Pow2(k) && j < Pow2(pl.bits)
    ensures Low(pl.Pattern(j), k) == i <==> Low(j, k - pl.w) == Drop(i, pl.w)
  {
    hide Pow2;
    PatternParts(pl, j);
    DivDiv(pl.Pattern(j), Pow2(pl.w), Pow2(k - pl.w));
    Pow2Add(pl.w, k - pl.w);
    LowHigh(i, pl.w);
    var a, b := Low(j, k - pl.w), Drop(i, pl.w);
    SameFactor(a, b, Pow2(pl.w));
  }

  lemma SameFactor(a: nat, b: nat, c: nat)
    requires c > 0
    ensures a == b <==> c * a == c * b
  {
  }

  /** The code i of k bits has this rank among the codes of its length; what is beyond the last
      code of the greatest length g is a dummy. */
  predicate IsCode(lens: Lengths, g: nat, k: nat, i: nat, rank: nat) {
    && 0 < k <= g <= BMAX
    && i < Pow2(k)
    && Rev(k, i) == FirstCode(lens, k) + rank
    && (rank < Count(lens, k) || k == g)
  }

  predicate IsEntryFor(alpha: Alphabet, k: nat, rank: nat, w: nat, en: Huft)
    requires alpha.Valid() && w < k
  {
    if rank < Count(alpha.lens, k) then
      var symbol := SymbolAt(alpha.lens, k, rank);
      symbol < |alpha.lens| && en.b == k - w && (en.e as int, en.v as int) == alpha.Meaning(symbol)
    else en.e == INVALID_CODE && en.b == k - w
  }

  lemma LeafIsRight(alpha: Alphabet, g: nat, pl: Place, j: nat, k: nat, i: nat, rank: nat, en: Huft)
    requires alpha.Valid() && IsCode(alpha.lens, g, k, i, rank)
    requires pl.w < k <= pl.Depth() <= g && IsEntryFor(alpha, k, rank, pl.w, en)
    requires Low(pl.Pattern(j), k) == i
    ensures IsLeaf(alpha, g, pl, j, en) && !IsLink(en)
  {
    hide Pow2; hide Rev; hide FirstCode; hide CodeLength; hide SymbolAt;
    var x := pl.Pattern(j);
    LowHigh(i, k);
    RevMod(k, x, i);
    if rank < Count(alpha.lens, k) {
      CodeLengthIs(alpha.lens, x, 1, k);
    } else {
      NoShorterCode(alpha.lens, x, k);
    }
  }

  lemma NoShorterCode(lens: Lengths, x: nat, g: nat)
    requires 0 < g <= BMAX && Rev(g, x) >= EndCode(lens, g)
    ensures CodeLength(lens, x, 1) > g
  {
    var k := CodeLength(lens, x, 1);
    EndOfLength(lens, x, 1);
    if k < g { BeyondShorter(lens, x, k, g); }
  }

  // ---- The order of entries ----

  lemma NextBelow(g: nat, pl: Place, j: nat, k: nat, i: nat)
    requires k <= pl.Depth() <= g && i < Pow2(k)
    requires Before(g, pl, j, Start(g, k, i) + Pow2(g - k)) && !Before(g, pl, j, Start(g, k, i))
    ensures Low(pl.Pattern(j), k) == i
  {
    Inside(g, k, i, pl.Depth(), pl.Pattern(j));
    LowHigh(i, k);
  }

  lemma NextAbove(g: nat, pl: Place, j: nat, k: nat, i: nat)
    requires pl.Depth() < k <= g && pl.Pattern(j) < Pow2(pl.Depth())
    requires Before(g, pl, j, Start(g, k, i) + Pow2(g - k)) && !Before(g, pl, j, Start(g, k, i))
    ensures Low(i, pl.Depth()) == pl.Pattern(j)
  {
    hide Pow2; hide Rev;
    var n, x := pl.Depth(), pl.Pattern(j);
    Pow2Add(k - n, g - k);
    MulAssoc(Rev(n, x), Pow2(k - n), Pow2(g - k));
    SameSlot(Rev(n, x) * Pow2(k - n), Rev(k, i), Pow2(g - k), 0);
    Inside(g, n, x, k, i);
    LowHigh(x, n);
  }

  lemma FinishedTable(g: nat, pl: Place, j: nat, pos: nat)
    requires pl.Depth() <= g && pl.prefix < Pow2(pl.w) && j < Pow2(pl.bits)
    requires Start(g, pl.w, pl.prefix) + Pow2(g - pl.w) <= pos
    ensures Before(g, pl, j, pos)
  {
    hide Pow2; hide Rev;
    PatternParts(pl, j);
    LowHigh(pl.prefix, pl.w);
    Inside(g, pl.w, pl.prefix, pl.Depth(), pl.Pattern(j));
  }

  lemma NewTable(g: nat, pl: Place, j: nat)
    requires pl.Depth() <= g && pl.prefix < Pow2(pl.w) && j < Pow2(pl.bits)
    ensures !Before(g, pl, j, Start(g, pl.w, pl.prefix))
  {
    hide Pow2; hide Rev;
    PatternParts(pl, j);
    LowHigh(pl.prefix, pl.w);
    Inside(g, pl.w, pl.prefix, pl.Depth(), pl.Pattern(j));
  }

  lemma {:induction false} RevOfZero(n: nat)
    ensures Rev(n, 0) == 0
  {
    if n > 0 { RevOfZero(n - 1); }
  }

  /** A code whose later bits are zero starts where its first bits do. */
  lemma SameStart(g: nat, w: nat, k: nat, i: nat)
    requires w <= k <= g && i < Pow2(w)
    ensures Start(g, w, i) == Start(g, k, i)
  {
    hide Pow2; hide Rev;
    LowHigh(i, w);
    StartSplit(g, w, k, i);
    RevOfZero(k - w);
  }

  // ---- The tables under construction ----

  /** Each table on the stack is entered from the one below. */
  ghost predicate StackOk(places: seq<Place>, tables: Tables, u: seq<nat>) {
    && |places| == |tables|
    && (|u| == 0 <==> |places| == 0)
    && (forall h :: 0 <= h < |u| ==> u[h] < |places|)
    && (|u| > 0 ==> u[0] == 0 && places[0].w == 0 && places[0].prefix == 0)
    && (forall h :: 0 < h < |u| ==> Nested(places, tables, u[h - 1], u[h]))
  }

  predicate Nested(places: seq<Place>, tables: Tables, s: nat, t: nat)
    requires |places| == |tables| && s < |places| && t < |places|
  {
    var j := Drop(places[t].prefix, places[s].w);
    && s < t
    && places[t].w == places[s].Depth()
    && Low(places[t].prefix, places[s].w) == places[s].prefix
    && j < |tables[s]| && IsLink(tables[s][j]) && tables[s][j].v == t && IsLinkTo(places, s, j, tables[s][j])
  }

  /** Tables off the stack are finished, those on it have begun. */
  ghost predicate Progress(g: nat, places: seq<Place>, u: seq<nat>, pos: nat) {
    forall t :: 0 <= t < |places| && places[t].w <= g ==>
                  if t in u then Start(g, places[t].w, places[t].prefix) <= pos
                  else Start(g, places[t].w, places[t].prefix) + Pow2(g - places[t].w) <= pos
  }

  ghost predicate Forest(alpha: Alphabet, g: nat, el: nat, places: seq<Place>, tables: Tables, u: seq<nat>, pos: nat)
    requires alpha.Valid()
  {
    && StackOk(places, tables, u)
    && PlacesOk(g, el, places, tables)
    && RightBefore(alpha, g, el, places, tables, pos)
    && Progress(g, places, u, pos)
  }

  lemma {:induction false} StackAscends(places: seq<Place>, tables: Tables, u: seq<nat>, a: nat, b: nat)
    requires StackOk(places, tables, u) && a < b < |u|
    ensures u[a] < u[b] && places[u[a]].Depth() <= places[u[b]].w
    decreases b
  {
    assert Nested(places, tables, u[b - 1], u[b]);
    if a < b - 1 { StackAscends(places, tables, u, a, b - 1); }
  }

  /** A window that reaches a table on the stack passes those below. */
  lemma {:induction false} StackNests(places: seq<Place>, tables: Tables, u: seq<nat>, a: nat, b: nat, x: nat)
    requires StackOk(places, tables, u) && a < b < |u| && Low(x, places[u[b]].w) == places[u[b]].prefix
    ensures Low(x, places[u[a]].w) == places[u[a]].prefix
    ensures Low(x, places[u[a]].Depth()) == places[u[a + 1]].prefix
    decreases b
  {
    hide Pow2; hide Low; hide Drop;
    assert Nested(places, tables, u[b - 1], u[b]);
    ModMod(x, places[u[b - 1]].w, places[u[b]].w);
    if a < b - 1 { StackNests(places, tables, u, a, b - 1, x); }
  }

  lemma RightEntry(alpha: Alphabet, g: nat, el: nat, places: seq<Place>, tables: Tables, u: seq<nat>, pos: nat, t: nat, j: nat)
    requires alpha.Valid() && Forest(alpha, g, el, places, tables, u, pos) && t < |places| && j < |tables[t]|
    ensures PlaceOk(g, el, places[t], tables[t])
    ensures Before(g, places[t], j, pos) ==> EntryOk(alpha, g, places, t, j, tables[t][j])
    ensures t !in u ==> Start(g, places[t].w, places[t].prefix) + Pow2(g - places[t].w) <= pos
  {
    hide EntryOk; hide Before; hide Start;
  }

  /** The table at the top of the stack with the entries for one more code. */
  ghost predicate WithLeaf(pl: Place, table: seq<Huft>, table': seq<Huft>, k: nat, i: nat, en: Huft)
    requires pl.w < k
  {
    && |table'| == |table|
    && forall j :: 0 <= j < |table| ==> table'[j] == if Low(j, k - pl.w) == Drop(i, pl.w) then en else table[j]
  }

  lemma LeafEntry(alpha: Alphabet, g: nat, el: nat, places: seq<Place>, tables: Tables, u: seq<nat>, pos: nat,
                  k: nat, i: nat, rank: nat, en: Huft, table': seq<Huft>, t: nat, j: nat)
    requires alpha.Valid() && Forest(alpha, g, el, places, tables, u, pos) && |u| > 0
    requires IsCode(alpha.lens, g, k, i, rank) && pos == Start(g, k, i)
    requires var pl := places[u[|u| - 1]];
             pl.w < k <= pl.Depth() && Low(i, pl.w) == pl.prefix && IsEntryFor(alpha, k, rank, pl.w, en)
             && WithLeaf(pl, tables[u[|u| - 1]], table', k, i, en)
    requires t < |places| && j < |tables[t]| && PlaceOk(g, el, places[t], tables[t])
    requires Before(g, places[t], j, pos + Pow2(g - k))
    ensures EntryOk(alpha, g, places, t, j, tables[u[|u| - 1] := table'][t][j])
  {
    hide Pow2; hide Rev; hide IsLeaf; hide RightBefore; hide Progress; hide IsCode; hide IsEntryFor; hide Low; hide Drop; hide PlacesOk;
    hide Place.Pattern; hide Before; hide Start;
    var top := u[|u| - 1];
    RightEntry(alpha, g, el, places, tables, u, pos, t, j);
    CodeBound(alpha.lens, g, k, i, rank);
    if t == top {
      PatternLow(places[t], j, k, i);
      if Low(j, k - places[t].w) == Drop(i, places[t].w) {
        LeafIsRight(alpha, g, places[t], j, k, i, rank, en);
      } else if !Before(g, places[t], j, pos) {
        NextBelow(g, places[t], j, k, i);
      }
    } else if !Before(g, places[t], j, pos) {
      if t !in u { FinishedTable(g, places[t], j, pos); }
      LinkEntry(alpha, g, el, places, tables, u, pos, k, i, t, j);
    }
  }

  lemma CodeBound(lens: Lengths, g: nat, k: nat, i: nat, rank: nat)
    requires IsCode(lens, g, k, i, rank)
    ensures 0 < k <= g <= BMAX && i < Pow2(k)
  {
  }

  /** In a table below the top of the stack the next entry is the one that leads upwards. */
  lemma LinkEntry(alpha: Alphabet, g: nat, el: nat, places: seq<Place>, tables: Tables, u: seq<nat>, pos: nat,
                  k: nat, i: nat, t: nat, j: nat)
    requires alpha.Valid() && StackOk(places, tables, u) && PlacesOk(g, el, places, tables) && |u| > 0
    requires k <= g && pos == Start(g, k, i)
    requires places[u[|u| - 1]].w < k && Low(i, places[u[|u| - 1]].w) == places[u[|u| - 1]].prefix
    requires t in u && t != u[|u| - 1] && j < |tables[t]|
    requires PlaceOk(g, el, places[t], tables[t])
    requires Before(g, places[t], j, pos + Pow2(g - k)) && !Before(g, places[t], j, pos)
    ensures EntryOk(alpha, g, places, t, j, tables[t][j])
  {
    hide Pow2; hide Rev; hide IsLeaf; hide Low; hide Drop; hide Place.Pattern; hide Before; hide Start;
    var h :| 0 <= h < |u| - 1 && u[h] == t;
    StackAscends(places, tables, u, h, |u| - 1);
    StackNests(places, tables, u, h, |u| - 1, i);
    assert Nested(places, tables, u[h], u[h + 1]);
    PatternBits(places[t], j);
    NextAbove(g, places[t], j, k, i);
    PatternBits(places[t], Drop(places[u[h + 1]].prefix, places[t].w));
  }

  lemma PatternBits(pl: Place, j: nat)
    requires pl.prefix < Pow2(pl.w) && j < Pow2(pl.bits)
    ensures Low(pl.Pattern(j), pl.w) == pl.prefix && Drop(pl.Pattern(j), pl.w) == j
    ensures pl.Pattern(j) < Pow2(pl.Depth())
  {
    PatternParts(pl, j);
  }

  /** Filling in the entries for the next code. */
  lemma AddLeaf(alpha: Alphabet, g: nat, el: nat, places: seq<Place>, tables: Tables, u: seq<nat>, pos: nat,
                k: nat, i: nat, rank: nat, en: Huft, table': seq<Huft>)
    requires alpha.Valid() && Forest(alpha, g, el, places, tables, u, pos) && |u| > 0
    requires IsCode(alpha.lens, g, k, i, rank) && pos == Start(g, k, i)
    requires var pl := places[u[|u| - 1]];
             pl.w < k <= pl.Depth() && Low(i, pl.w) == pl.prefix && IsEntryFor(alpha, k, rank, pl.w, en)
             && WithLeaf(pl, tables[u[|u| - 1]], table', k, i, en)
    ensures Forest(alpha, g, el, places, tables[u[|u| - 1] := table'], u, pos + Pow2(g - k))
  {
    hide Pow2; hide Rev; hide EntryOk; hide IsCode; hide IsEntryFor; hide Low; hide Drop; hide Before; hide Start; hide IsLinkTo;
    var top := u[|u| - 1];
    var tables' := tables[top := table'];
    forall t: nat | t < |places| ensures PlaceOk(g, el, places[t], tables'[t]) {
      assert PlaceOk(g, el, places[t], tables[t]);
    }
    forall t: nat, j: nat | t < |places| && j < |tables'[t]| && Before(g, places[t], j, pos + Pow2(g - k))
      ensures EntryOk(alpha, g, places, t, j, tables'[t][j])
    {
      assert PlaceOk(g, el, places[t], tables[t]);
      LeafEntry(alpha, g, el, places, tables, u, pos, k, i, rank, en, table', t, j);
    }
    forall h | 0 < h < |u| ensures Nested(places, tables', u[h - 1], u[h]) {
      assert Nested(places, tables, u[h - 1], u[h]);
      StackAscends(places, tables, u, h - 1, |u| - 1);
    }
  }

  // ---- A new table ----

  /** The entry of the table below that leads to a new table. */
  function LinkFor(pl: Place, bits: nat, t: nat): Huft { Huft(16 + bits, pl.bits, t) }

  /** Allocating a table of `bits` bits for the codes from i on, and entering it in the table below. */
  lemma AddTable(alpha: Alphabet, g: nat, el: nat, places: seq<Place>, tables: Tables, u: seq<nat>, pos: nat,
                 k: nat, i: nat, bits: nat, blank: seq<Huft>)
    requires alpha.Valid() && Forest(alpha, g, el, places, tables, u, pos) && |u| > 0
    requires k <= g <= BMAX && i < Pow2(k) && pos == Start(g, k, i)
    requires var pl := places[u[|u| - 1]];
             && pl.Depth() < k && Low(i, pl.w) == pl.prefix && i < Pow2(pl.Depth())
             && 0 < bits <= g - pl.Depth()
             && (pl.Depth() < el ==> pl.Depth() + bits <= el)
    requires |blank| == Pow2(bits)
    ensures var top := u[|u| - 1];
            var pl := places[top];
            var j := Drop(i, pl.w);
            && j < |tables[top]|
            && Forest(alpha, g, el, places + [Place(pl.Depth(), i, bits)],
                      tables[top := tables[top][j := LinkFor(pl, bits, |tables|)]] + [blank], u + [|tables|], pos)
  {
    hide Pow2; hide Rev; hide EntryOk; hide Low; hide Drop; hide Before; hide Start; hide Place.Pattern; hide RightBefore; hide StackOk;
    TopOfStack(places, tables, u);
    var top := u[|u| - 1];
    var pl := places[top];
    TopPlace(g, el, places, tables, top);
    LinkPattern(pl, i);
    SameStart(g, pl.Depth(), k, i);
    var places', u' := places + [Place(pl.Depth(), i, bits)], u + [|tables|];
    var tables' := tables[top := tables[top][Drop(i, pl.w) := LinkFor(pl, bits, |tables|)]] + [blank];
    AddTableStack(places, tables, u, i, bits, blank);
    forall t: nat | t < |places'| ensures PlaceOk(g, el, places'[t], tables'[t]) {
      if t < |places| { assert PlaceOk(g, el, places[t], tables[t]); }
    }
    TableEntries(alpha, g, el, places, tables, u, pos, k, i, bits, blank);
    assert forall t :: 0 <= t < |places| ==> (t in u' <==> t in u);
  }

  lemma TopOfStack(places: seq<Place>, tables: Tables, u: seq<nat>)
    requires StackOk(places, tables, u) && |u| > 0
    ensures |places| == |tables| && u[|u| - 1] < |places|
  {
  }

  lemma AddTableStack(places: seq<Place>, tables: Tables, u: seq<nat>, i: nat, bits: nat, blank: seq<Huft>)
    requires StackOk(places, tables, u) && |u| > 0
    requires var pl := places[u[|u| - 1]];
             0 < bits <= BMAX && Low(i, pl.w) == pl.prefix && pl.Pattern(Drop(i, pl.w)) == i && Drop(i, pl.w) < |tables[u[|u| - 1]]|
    ensures var top := u[|u| - 1];
            StackOk(places + [Place(places[top].Depth(), i, bits)],
                    tables[top := tables[top][Drop(i, places[top].w) := LinkFor(places[top], bits, |tables|)]] + [blank], u + [|tables|])
  {
    hide Low; hide Drop; hide Place.Pattern; hide Nested;
    var top := u[|u| - 1];
    var pl := places[top];
    var places', u' := places + [Place(pl.Depth(), i, bits)], u + [|tables|];
    var tables' := tables[top := tables[top][Drop(i, pl.w) := LinkFor(pl, bits, |tables|)]] + [blank];
    NewLink(places, tables, top, i, bits, blank);
    forall h | 0 < h < |u'| ensures Nested(places', tables', u'[h - 1], u'[h]) {
      if h < |u| {
        assert Nested(places, tables, u[h - 1], u[h]);
        StackAscends(places, tables, u, h - 1, |u| - 1);
        NestedKept(places, tables, places', tables', u[h - 1], u[h]);
      }
    }
  }

  /** The bits of i within the table below are those of the entry for the new table. */
  lemma LinkPattern(pl: Place, i: nat)
    requires Low(i, pl.w) == pl.prefix && i < Pow2(pl.Depth())
    ensures Drop(i, pl.w) < Pow2(pl.bits) && pl.Pattern(Drop(i, pl.w)) == i
  {
    hide Pow2;
    PatternOf(pl, i);
    LowHigh(i, pl.Depth());
    LowHigh(i, pl.w);
    LowHigh(Drop(i, pl.w), pl.bits);
    Pow2Add(pl.w, pl.bits);
    DivDiv(i, Pow2(pl.w), Pow2(pl.bits));
    DivModUnique(0, i, Pow2(pl.Depth()));
    var a := Drop(i, pl.w);
    assert a / Pow2(pl.bits) == 0;
    DivMod(a, Pow2(pl.bits));
  }

  lemma NewLink(places: seq<Place>, tables: Tables, top: nat, i: nat, bits: nat, blank: seq<Huft>)
    requires |places| == |tables| && top < |tables|
    requires var pl := places[top];
             0 < bits <= BMAX && Low(i, pl.w) == pl.prefix && pl.Pattern(Drop(i, pl.w)) == i && Drop(i, pl.w) < |tables[top]|
    ensures var pl := places[top];
            Nested(places + [Place(pl.Depth(), i, bits)],
                   tables[top := tables[top][Drop(i, pl.w) := LinkFor(pl, bits, |tables|)]] + [blank], top, |tables|)
  {
    hide Low; hide Drop;
  }

  lemma NestedKept(places: seq<Place>, tables: Tables, places': seq<Place>, tables': Tables, s: nat, t: nat)
    requires |places| == |tables| <= |places'| == |tables'| && s < |places| && t < |places|
    requires places == places'[..|places|] && tables'[s] == tables[s] && Nested(places, tables, s, t)
    ensures Nested(places', tables', s, t)
  {
    hide Low; hide Drop;
  }

  lemma TableEntries(alpha: Alphabet, g: nat, el: nat, places: seq<Place>, tables: Tables, u: seq<nat>, pos: nat,
                     k: nat, i: nat, bits: nat, blank: seq<Huft>)
    requires alpha.Valid() && Forest(alpha, g, el, places, tables, u, pos) && |u| > 0
    requires var pl := places[u[|u| - 1]];
             && pl.Depth() < g <= BMAX && i < Pow2(pl.Depth()) && Low(i, pl.w) == pl.prefix
             && pos == Start(g, pl.Depth(), i)
             && 0 < bits <= g - pl.Depth() && Drop(i, pl.w) < |tables[u[|u| - 1]]| && pl.Pattern(Drop(i, pl.w)) == i
    requires |blank| == Pow2(bits)
    requires var top := u[|u| - 1];
             PlacesOk(g, el, places + [Place(places[top].Depth(), i, bits)],
                      tables[top := tables[top][Drop(i, places[top].w) := LinkFor(places[top], bits, |tables|)]] + [blank])
    ensures var top := u[|u| - 1];
            RightBefore(alpha, g, el, places + [Place(places[top].Depth(), i, bits)],
                        tables[top := tables[top][Drop(i, places[top].w) := LinkFor(places[top], bits, |tables|)]] + [blank], pos)
  {
    hide Pow2; hide Rev; hide Low; hide Drop; hide Before; hide Start; hide IsLeaf; hide Place.Pattern;
    var top := u[|u| - 1];
    var pl := places[top];
    var j0 := Drop(i, pl.w);
    var places' := places + [Place(pl.Depth(), i, bits)];
    var tables' := tables[top := tables[top][j0 := LinkFor(pl, bits, |tables|)]] + [blank];
    forall t: nat, j: nat | t < |places'| && j < |tables'[t]| && Before(g, places'[t], j, pos)
      ensures EntryOk(alpha, g, places', t, j, tables'[t][j])
    {
      if t == |places| {
        NewTable(g, places'[t], j);
      } else {
        RightEntry(alpha, g, el, places, tables, u, pos, t, j);
      }
    }
  }

  /** The first table, which is entered before any bit has been read. */
  lemma FirstTable(alpha: Alphabet, g: nat, el: nat, bits: nat, blank: seq<Huft>)
    requires alpha.Valid() && 0 < bits <= g <= BMAX && (0 < el ==> bits <= el) && |blank| == Pow2(bits)
    ensures Forest(alpha, g, el, [Place(0, 0, bits)], [blank], [0], 0)
  {
    hide EntryOk;
    var places, tables, u := [Place(0, 0, bits)], [blank], [0];
    assert PlaceOk(g, el, places[0], tables[0]);
    RevOfZero(0);
  }

  // ---- The next code ----

  /** The k-bit code after i: its bits, the last one first, are cleared up to the first that is
      zero, which is set. */
  function Next(k: nat, i: nat): nat
    decreases k
  {
    if k == 0 then 0
    else if i >= Pow2(k - 1) then Next(k - 1, i - Pow2(k - 1))
    else i + Pow2(k - 1)
  }

  lemma {:induction false} NextIs(k: nat, i: nat)
    requires i < Pow2(k)
    ensures Next(k, i) < Pow2(k)
    ensures if Rev(k, i) + 1 < Pow2(k) then Rev(k, Next(k, i)) == Rev(k, i) + 1 else Next(k, i) == 0
    decreases k
  {
    hide Rev;
    if k == 0 {
    } else {
      RevAppend(k - 1, i);
      TopBit(k, i);
      if i >= Pow2(k - 1) {
        NextIs(k - 1, i - Pow2(k - 1));
        LowHigh(i - Pow2(k - 1), k - 1);
        RevMod(k - 1, i, i - Pow2(k - 1));
        RevAppend(k - 1, Next(k, i));
        TopBit(k, Next(k, i));
      } else {
        RevAppend(k - 1, i + Pow2(k - 1));
        TopBit(k, i + Pow2(k - 1));
        RevMod(k - 1, i, i + Pow2(k - 1));
      }
    }
  }

  lemma TopBit(k: nat, i: nat)
    requires 0 < k && i < Pow2(k)
    ensures i / Pow2(k - 1) % 2 == if i >= Pow2(k - 1) then 1 else 0
    ensures i % Pow2(k - 1) == if i >= Pow2(k - 1) then i - Pow2(k - 1) else i
  {
    var p := Pow2(k - 1);
    if i >= p { DivModUnique(1, i - p, p); } else { DivModUnique(0, i, p); }
  }

  /** Either the first w bits stay, or the later ones become zero. */
  lemma {:induction false} NextKeepsOrClears(k: nat, i: nat, w: nat)
    requires w <= k && i < Pow2(k)
    ensures Low(Next(k, i), w) == Low(i, w) || Next(k, i) < Pow2(w)
    decreases k
  {
    if k > 0 && w < k {
      var p := Pow2(k - 1);
      LowOfSum(if i >= p then i - p else i, w, k - 1);
      if i >= p { NextKeepsOrClears(k - 1, i - p, w); }
    } else {
      NextIs(k, i);
    }
  }

  lemma LowOfSum(i: nat, w: nat, k: nat)
    requires w <= k
    ensures Low(i + Pow2(k), w) == Low(i, w)
  {
    hide Pow2;
    Pow2Add(w, k - w);
    DivMod(i, Pow2(w));
    MulDist(i / Pow2(w), Pow2(k - w), Pow2(w));
    DivModUnique(i / Pow2(w) + Pow2(k - w), i % Pow2(w), Pow2(w));
  }

  /** A table that the next code is no longer in is finished. */
  lemma FinishTable(alpha: Alphabet, g: nat, el: nat, places: seq<Place>, tables: Tables, u: seq<nat>, pos: nat, k: nat, i: nat)
    requires alpha.Valid() && Forest(alpha, g, el, places, tables, u, pos) && |u| > 1
    requires k <= g && (pos == Pow2(g) || pos == Start(g, k, i)) && places[u[|u| - 1]].w <= k
    requires Low(i, places[u[|u| - 1]].w) != places[u[|u| - 1]].prefix
    ensures Forest(alpha, g, el, places, tables, u[..|u| - 1], pos)
  {
    hide Pow2; hide Rev; hide EntryOk; hide RightBefore; hide Start; hide Nested; hide PlacesOk;
    var top := u[|u| - 1];
    var pl := places[top];
    var u' := u[..|u| - 1];
    forall h | 0 < h < |u'| ensures Nested(places, tables, u'[h - 1], u'[h]) {
      assert Nested(places, tables, u[h - 1], u[h]);
    }
    TopPlace(g, el, places, tables, top);
    Inside(g, pl.w, pl.prefix, k, i);
    LowHigh(pl.prefix, pl.w);
    StartBound(g, pl.w, pl.prefix);
    assert forall t :: t in u && t != top ==> t in u';
    forall t: nat | t < |places| && places[t].w <= g
      ensures if t in u' then Start(g, places[t].w, places[t].prefix) <= pos
              else Start(g, places[t].w, places[t].prefix) + Pow2(g - places[t].w) <= pos
    {
      if t in u' {
        var h :| 0 <= h < |u'| && u'[h] == t;
        StackAscends(places, tables, u, h, |u| - 1);
      }
    }
  }

  lemma TopPlace(g: nat, el: nat, places: seq<Place>, tables: Tables, t: nat)
    requires PlacesOk(g, el, places, tables) && t < |places|
    ensures PlaceOk(g, el, places[t], tables[t])
  {
  }
}
