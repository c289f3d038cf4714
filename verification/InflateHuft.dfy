/** The main loop of huft_build, and huft_build itself. */
module InflateHuft {
  import opened Arithmetic
  import opened InflateBits
  import opened InflateHuffman
  import opened InflateTables
  import opened InflateForest
  import opened InflateBuild
  import opened InflateGrow

  // ---- One code ----

  /** The value that the code to come next belongs to: values run out at the dummy codes. */
  predicate ValueAt(plan: Plan, k: nat, rank: nat, p: nat) {
    var lens := plan.alpha.lens;
    p == Offset(lens, |lens|, k) + Min(rank, Count(lens, k))
  }

  lemma ValueIs(plan: Plan, k: nat, rank: nat, p: nat)
    requires PlanOk(plan) && 0 < k <= plan.g && rank < plan.c[k] && ValueAt(plan, k, rank, p)
    ensures p < plan.n <==> rank < Count(plan.alpha.lens, k)
    ensures p < plan.n ==> p < |plan.v| && plan.v[p] < |plan.alpha.lens| && plan.v[p] == SymbolAt(plan.alpha.lens, k, rank)
    ensures ValueAt(plan, k, rank + 1, if p < plan.n then p + 1 else p)
  {
    hide CountUpTo; hide SymbolUpTo; hide Longest; hide FirstCode; hide Sorted;
    var lens := plan.alpha.lens;
    if rank < Count(lens, k) {
      SortedSymbol(lens, plan.g, plan.v, k, rank);
      OffsetGrows(lens, |lens|, k, plan.g + 1);
    }
  }

  /** Sets up the table entry for the current code. */
  method MakeEntry(plan: Plan, k: nat, w: nat, p: nat, stale: nat, ghost rank: nat) returns (r: Huft, p': nat)
    requires PlanOk(plan) && w < k <= plan.g && rank < plan.c[k] && ValueAt(plan, k, rank, p)
    ensures IsEntryFor(plan.alpha, k, rank, w, r) && ValueAt(plan, k, rank + 1, p')
  {
    hide CountUpTo; hide SymbolUpTo; hide Longest; hide FirstCode; hide Sorted; hide ValueAt;
    ValueIs(plan, k, rank, p);
    p' := p;
    if p >= plan.n {
      r := Huft(INVALID_CODE, k - w, stale);
    } else if plan.v[p] < plan.alpha.s {
      r := Huft(if plan.v[p] < 256 then LITERAL else END_OF_BLOCK, k - w, plan.v[p]);
      p' := p + 1;
    } else {
      r := Huft(plan.alpha.extra[plan.v[p] - plan.alpha.s], k - w, plan.alpha.base[plan.v[p] - plan.alpha.s]);
      p' := p + 1;
    }
  }

  lemma SameResidue(j: nat, f: nat, d: nat)
    requires d < f && j % f == d
    ensures forall x: nat :: j < x < j + f ==> x % f != d
    ensures (j + f) % f == d
  {
    DivMod(j, f);
    var t := j / f;
    assert j == t * f + d;
    forall x: nat | j < x < j + f ensures x % f != d {
      if x < t * f + f {
        DivModUnique(t, x - t * f, f);
      } else {
        MulDist(t, 1, f);
        DivModUnique(t + 1, x - (t * f + f), f);
      }
    }
    MulDist(t, 1, f);
    DivModUnique(t + 1, d, f);
  }

  /** Fills code-like entries with r. */
  method FillEntries(ghost pl: Place, table: seq<Huft>, z: nat, w: nat, k: nat, i: nat, r: Huft) returns (filled: seq<Huft>)
    requires w == pl.w < k <= pl.Depth() && i < Pow2(k) && |table| == z == Pow2(pl.bits)
    ensures WithLeaf(pl, table, filled, k, i, r)
  {
    var f := Pow2(k - w);
    var j := Drop(i, w);
    filled := table;
    CodeWithin(pl.w, k, i);
    NoEarlier(k - pl.w, j);
    while j < z
      invariant |filled| == |table| && Low(j, k - pl.w) == Drop(i, pl.w)
      invariant forall x :: 0 <= x < |table| ==>
                              filled[x] == if x < j && Low(x, k - pl.w) == Drop(i, pl.w) then r else table[x]
      decreases |table| + f - j
    {
      SameResidue(j, f, Drop(i, pl.w));
      filled := filled[j := r];
      j := j + f;
    }
  }

  lemma CodeWithin(w: nat, k: nat, i: nat)
    requires w <= k && i < Pow2(k)
    ensures Drop(i, w) < Pow2(k - w) && Low(Drop(i, w), k - w) == Drop(i, w)
  {
    Pow2Add(w, k - w);
    DivDiv(i, Pow2(w), Pow2(k - w));
    DivModUnique(0, i, Pow2(k));
    DivMod(Drop(i, w), Pow2(k - w));
  }

  lemma NoEarlier(n: nat, d: nat)
    requires d < Pow2(n)
    ensures forall x: nat :: x < d ==> Low(x, n) != d
  {
    forall x: nat | x < d ensures Low(x, n) != d { LowHigh(x, n); }
  }

  // ---- The next code ----

  /** The backwards increment of a code of k bits. */
  method Increment(k: nat, code: nat) returns (i: nat)
    requires 0 < k && code < Pow2(k)
    ensures i == Next(k, code)
  {
    hide Pow2; hide Next;
    i := code;
    var j: nat := Pow2(k - 1);
    ghost var left: nat := k;
    while j > 0 && i / j % 2 == 1
      invariant left <= k && i < Pow2(left) && j == TopOf(left)
      invariant Next(k, code) == Next(left, i)
      decreases left
    {
      TopBit(left, i);
      NextStep(left, i);
      i := i - j;
      left := left - 1;
      j := j / 2;
    }
    if left > 0 { TopBit(left, i); }
    NextStep(left, i);
    i := i + j;
  }

  /** The last bit of a code of k bits. */
  function TopOf(k: nat): nat { if k == 0 then 0 else Pow2(k - 1) }

  lemma NextStep(k: nat, i: nat)
    requires i < Pow2(k)
    ensures k > 0 && i >= TopOf(k) ==> Next(k, i) == Next(k - 1, i - TopOf(k)) && i - TopOf(k) < Pow2(k - 1)
    ensures k == 0 || i < TopOf(k) ==> Next(k, i) == i + TopOf(k)
    ensures k > 0 ==> TopOf(k) / 2 == TopOf(k - 1)
  {
  }

  lemma TopOfForest(plan: Plan, places: seq<Place>, s: Locals, k: nat, rank: nat, pos: nat)
    requires Growing(plan, places, s, k, rank, pos) && |s.u| > 0
    ensures |s.u| == |s.l| == |s.x| && |places| == |s.tables| && s.u[|s.u| - 1] < |s.tables|
    ensures var pl := places[s.u[|s.u| - 1]];
            && pl.w == s.w && pl.bits == s.l[|s.l| - 1] && pl.prefix == s.x[|s.x| - 1] && Reach(s) == pl.Depth()
            && s.w < k && Low(s.i, s.w) == pl.prefix
            && |s.tables[s.u[|s.u| - 1]]| == Pow2(pl.bits) && pl.Depth() <= plan.g
  {
    hide RightBefore; hide Progress; hide Pow2; hide Rev; hide Low; hide Start; hide PlanOk;
    TopPlace(plan.g, plan.el, places, s.tables, s.u[|s.u| - 1]);
  }

  /** The tables contain all codes up to pos; k and i are those of the code at pos, if there is one. */
  ghost predicate Backing(plan: Plan, places: seq<Place>, s: Locals, k: nat, pos: nat) {
    && plan.alpha.Valid() && 0 < k <= plan.g
    && StacksAgree(places, s) && |s.u| > 0
    && Forest(plan.alpha, plan.g, plan.el, places, s.tables, s.u, pos)
    && (pos == Pow2(plan.g) || pos == Start(plan.g, k, s.i))
    && s.w < k && s.i < Pow2(Reach(s))
  }

  lemma BackUpOne(plan: Plan, places: seq<Place>, s: Locals, k: nat, pos: nat, i0: nat)
    requires Backing(plan, places, s, k, pos) && i0 < Pow2(k) && s.i == Next(k, i0)
    requires Low(i0, s.w) == s.x[|s.x| - 1] && Low(s.i, s.w) != s.x[|s.x| - 1]
    ensures |s.u| > 1 && s.l[|s.u| - 2] <= s.w
    ensures var h := |s.u| - 1;
            var s' := s.(u := s.u[..h], l := s.l[..h], x := s.x[..h], w := s.w - s.l[h - 1]);
            Backing(plan, places, s', k, pos) && Reach(s') < k && Low(i0, s'.w) == s'.x[|s'.x| - 1]
  {
    hide RightBefore; hide Pow2; hide Rev; hide Start; hide Low; hide IsLinkTo; hide Progress; hide PlacesOk; hide Next;
    var h := |s.u| - 1;
    if h == 0 { LowZero(s.i); }
    assert Nested(places, s.tables, s.u[h - 1], s.u[h]);
    FinishTable(plan.alpha, plan.g, plan.el, places, s.tables, s.u, pos, k, s.i);
    StackNests(places, s.tables, s.u, h - 1, h, i0);
    NextKeepsOrClears(k, i0, s.w);
  }

  lemma LowZero(i: nat)
    ensures Low(i, 0) == 0
  {
  }

  /** Backs up over finished tables. */
  method BackUp(ghost plan: Plan, s0: Locals, ghost places: seq<Place>, ghost k: nat, ghost i0: nat, ghost pos: nat) returns (s: Locals)
    requires Backing(plan, places, s0, k, pos) && i0 < Pow2(k) && s0.i == Next(k, i0)
    requires Low(i0, s0.w) == s0.x[|s0.x| - 1]
    ensures Backing(plan, places, s, k, pos)
    ensures Low(s.i, s.w) == s.x[|s.x| - 1]
    ensures s == s0 || (Reach(s) < k && s.i == s0.i && s.p == s0.p && s.tables == s0.tables)
  {
    hide Forest; hide Pow2; hide Low; hide Start; hide Next;
    s := s0;
    while Low(s.i, s.w) != s.x[|s.x| - 1]
      invariant Backing(plan, places, s, k, pos) && s.i == s0.i && s.p == s0.p && s.tables == s0.tables
      invariant Low(i0, s.w) == s.x[|s.x| - 1]
      invariant s == s0 || Reach(s) < k
      decreases |s.u|
    {
      BackUpOne(plan, places, s, k, pos, i0);
      var h := |s.u| - 1;
      s := s.(u := s.u[..h], l := s.l[..h], x := s.x[..h], w := s.w - s.l[h - 1]);
    }
  }

  // ---- All codes ----

  /** The tables contain the codes before the one of k bits with this rank, and are ready for it. */
  ghost predicate Built(plan: Plan, places: seq<Place>, s: Locals, k: nat, rank: nat, pos: nat) {
    && PlanOk(plan) && 0 < k <= plan.g && rank <= plan.c[k]
    && pos == (FirstCode(plan.alpha.lens, k) + rank) * Pow2(plan.g - k) <= Pow2(plan.g)
    && (pos < Pow2(plan.g) ==> Growing(plan, places, s, k, rank, pos))
    && (pos == Pow2(plan.g) ==> Backing(plan, places, s, k, pos))
    && ValueAt(plan, k, rank, s.p)
  }

  lemma AfterCode(plan: Plan, k: nat, i: nat, rank: nat, pos: nat)
    requires PlanOk(plan) && 0 < k <= plan.g && rank < plan.c[k]
    requires i < Pow2(k) && Rev(k, i) == FirstCode(plan.alpha.lens, k) + rank && pos == Start(plan.g, k, i)
    ensures IsCode(plan.alpha.lens, plan.g, k, i, rank)
    ensures var pos' := pos + Pow2(plan.g - k);
            && pos' == (FirstCode(plan.alpha.lens, k) + rank + 1) * Pow2(plan.g - k) <= Pow2(plan.g)
            && Next(k, i) < Pow2(k)
            && (pos' == Pow2(plan.g)
                || (Rev(k, Next(k, i)) == FirstCode(plan.alpha.lens, k) + rank + 1 && pos' == Start(plan.g, k, Next(k, i))))
  {
    hide Pow2; hide Rev; hide Next; hide FirstCode; hide Sorted; hide Offset; hide Count;
    NextIs(k, i);
    Pow2Add(k, plan.g - k);
    MulDist(Rev(k, i), 1, Pow2(plan.g - k));
    MulMono(Rev(k, i) + 1, Pow2(k), Pow2(plan.g - k));
  }

  /** The entries for the code of k bits with this rank, and the step to the code after it. */
  method PlaceCode(plan: Plan, k: nat, s0: Locals, stale: nat, ghost places: seq<Place>, ghost rank: nat, ghost pos: nat) returns (s: Locals)
    requires Growing(plan, places, s0, k, rank, pos) && |s0.u| > 0 && k <= Reach(s0)
    requires PlanOk(plan) && k <= plan.g && rank < plan.c[k] && ValueAt(plan, k, rank, s0.p)
    ensures Built(plan, places, s, k, rank + 1, pos + Pow2(plan.g - k))
  {
    hide Pow2; hide Rev; hide Next; hide FirstCode; hide PlanOk; hide Forest; hide Start; hide Low; hide Drop; hide IsEntryFor; hide WithLeaf; hide IsCode;
    PlanBasics(plan);
    TopOfForest(plan, places, s0, k, rank, pos);
    ghost var top := s0.u[|s0.u| - 1];
    ghost var pl := places[top];
    AfterCode(plan, k, s0.i, rank, pos);
    var r, p := MakeEntry(plan, k, s0.w, s0.p, stale, rank);
    var filled := FillEntries(pl, s0.tables[s0.q], s0.z, s0.w, k, s0.i, r);
    AddLeaf(plan.alpha, plan.g, plan.el, places, s0.tables, s0.u, pos, k, s0.i, rank, r, filled);
    var i := Increment(k, s0.i);
    Pow2Grows(k, Reach(s0));
    var s1 := s0.(tables := s0.tables[s0.q := filled], p := p, i := i);
    s := BackUp(plan, s1, places, k, s0.i, pos + Pow2(plan.g - k));
    ReadyForNext(plan, places, s, k, rank + 1, pos + Pow2(plan.g - k));
  }

  lemma ReadyForNext(plan: Plan, places: seq<Place>, s: Locals, k: nat, rank: nat, pos: nat)
    requires PlanOk(plan) && 0 < k <= plan.g && rank <= plan.c[k] && ValueAt(plan, k, rank, s.p)
    requires pos == (FirstCode(plan.alpha.lens, k) + rank) * Pow2(plan.g - k) <= Pow2(plan.g)
    requires Backing(plan, places, s, k, pos) && s.i < Pow2(k)
    requires pos == Pow2(plan.g) || (Rev(k, s.i) == FirstCode(plan.alpha.lens, k) + rank && pos == Start(plan.g, k, s.i))
    requires Low(s.i, s.w) == s.x[|s.x| - 1]
    requires k <= Reach(s) ==> s.q == s.u[|s.u| - 1] && s.z == Pow2(s.l[|s.l| - 1])
    ensures Built(plan, places, s, k, rank, pos)
  {
    hide Pow2; hide Rev; hide FirstCode; hide PlanOk; hide Forest; hide Start; hide Low;
    PlanBasics(plan);
  }

  lemma StartBuilding(plan: Plan, k: nat)
    requires PlanOk(plan) && 0 < k <= plan.g && forall j :: 1 <= j < k ==> Count(plan.alpha.lens, j) == 0
    ensures Built(plan, [], started, k, 0, 0)
  {
    hide Sorted;
    FirstIsZero(plan.alpha.lens, k);
    RevOfZero(k);
    NothingShorter(plan.alpha.lens, k);
  }

  lemma {:induction false} NothingShorter(lens: Lengths, k: nat)
    requires forall j :: 1 <= j < k ==> Count(lens, j) == 0
    ensures Offset(lens, |lens|, k) == 0
  {
    if k > 1 {
      assert Count(lens, k - 1) == 0;
      NothingShorter(lens, k - 1);
    }
  }

  /** The same place, counted in windows with one bit more. */
  lemma PlaceBelow(e: nat, k: nat, g: nat, pos: nat)
    requires k < g && e < Pow2(k) && pos == e * Pow2(g - k)
    ensures pos < Pow2(g) && pos == (2 * e) * Pow2(g - (k + 1))
  {
    DoubleAndHalve(e, g, k);
    hide Pow2;
    Pow2Add(k, g - k);
    MulMono(e + 1, Pow2(k), Pow2(g - k));
    MulDist(e, 1, Pow2(g - k));
  }

  lemma StartIs(g: nat, n: nat, x: nat, code: nat, pos: nat)
    requires n <= g && Rev(n, x) == code && pos == code * Pow2(g - n)
    ensures Start(g, n, x) == pos
  {
    hide Rev; hide Pow2;
  }

  /** Codes of k bits do not use up all patterns if there are longer ones. */
  lemma EndBelow(plan: Plan, k: nat)
    requires PlanOk(plan) && 0 < k < plan.g
    ensures EndCode(plan.alpha.lens, k) < Pow2(k) && FirstCode(plan.alpha.lens, k + 1) == 2 * EndCode(plan.alpha.lens, k)
  {
    hide Rev; hide Sorted; hide Offset; hide Count; hide Pow2;
    assert FirstCode(plan.alpha.lens, k + 1) == 2 * EndCode(plan.alpha.lens, k);
    RoomBelowLongest(plan.alpha.lens, plan.g, k);
  }

  /** A window whose k low bits read as e, with nothing above them, reads as 2 * e with one bit more. */
  lemma OneBitMore(k: nat, i: nat)
    requires i < Pow2(k)
    ensures i < Pow2(k + 1) && Rev(k + 1, i) == 2 * Rev(k, i)
  {
    Pow2Grows(k, k + 1);
    RevAppend(k, i);
    LowHigh(i, k);
    hide Rev; hide Pow2;
  }

  lemma NextLengthStart(plan: Plan, k: nat, i: nat, pos: nat)
    requires PlanOk(plan) && 0 < k < plan.g && pos == EndCode(plan.alpha.lens, k) * Pow2(plan.g - k)
    ensures pos < Pow2(plan.g)
    ensures pos == FirstCode(plan.alpha.lens, k + 1) * Pow2(plan.g - (k + 1))
    ensures i < Pow2(k) && Rev(k, i) == EndCode(plan.alpha.lens, k) ==>
              i < Pow2(k + 1) && Rev(k + 1, i) == FirstCode(plan.alpha.lens, k + 1) && Start(plan.g, k + 1, i) == pos
  {
    hide *;
    var e := EndCode(plan.alpha.lens, k);
    EndBelow(plan, k);
    PlaceBelow(e, k, plan.g, pos);
    if i < Pow2(k) && Rev(k, i) == e {
      OneBitMore(k, i);
      StartIs(plan.g, k + 1, i, 2 * e, pos);
    }
  }

  /** All codes of k bits are placed, and there are longer ones. */
  lemma NextLength(plan: Plan, places: seq<Place>, s: Locals, k: nat, pos: nat)
    requires k < plan.g && |plan.c| == BMAX + 1 && plan.g <= BMAX && Built(plan, places, s, k, plan.c[k], pos)
    ensures Built(plan, places, s, k + 1, 0, pos)
  {
    hide Pow2; hide Rev; hide Forest; hide Low; hide StacksAgree; hide Sorted; hide Backing; hide FirstCode; hide Start; hide Offset; hide CountUpTo; hide Longest;
    NextLengthStart(plan, k, s.i, pos);
    NextLengthValue(plan, k, s.p);
  }

  lemma NextLengthValue(plan: Plan, k: nat, p: nat)
    requires PlanOk(plan) && 0 < k < plan.g && ValueAt(plan, k, plan.c[k], p)
    ensures ValueAt(plan, k + 1, 0, p)
  {
  }

  lemma DoubleAndHalve(a: nat, g: nat, k: nat)
    requires k < g
    ensures (2 * a) * Pow2(g - (k + 1)) == a * Pow2(g - k)
  {
    MulDouble(a, Pow2(g - (k + 1)));
    MulAssoc(2, a, Pow2(g - (k + 1)));
  }

  /** As long as there are codes of k bits left, there are patterns left. */
  lemma CodesLeft(plan: Plan, places: seq<Place>, s: Locals, k: nat, rank: nat, pos: nat)
    requires Built(plan, places, s, k, rank, pos) && |plan.c| == BMAX + 1 && k <= BMAX && rank < plan.c[k]
    ensures Growing(plan, places, s, k, rank, pos) && |places| == |s.tables| && (|s.u| > 0 <==> |places| > 0)
  {
    hide Pow2; hide Rev; hide RightBefore; hide PlacesOk; hide Progress; hide Low; hide StacksAgree; hide Sorted; hide FirstCode;
    var lens, g := plan.alpha.lens, plan.g;
    if k < g { RoomBelowLongest(lens, g, k); }
    Pow2Add(k, g - k);
    MulMono(FirstCode(lens, k) + rank + 1, Pow2(k), Pow2(g - k));
    MulDist(FirstCode(lens, k) + rank, 1, Pow2(g - k));
  }

  /** The length of the code of symbol 256, if there can be one. */
  function EndOfBlockLength(lens: Lengths): nat { if |lens| > 256 then lens[256] else BMAX }

  /** Tables that contain all codes; the first one is indexed by bl bits. */
  ghost predicate Finished(alpha: Alphabet, tables: Tables, bl: nat, places: seq<Place>, g: nat) {
    && alpha.Valid() && 1 <= g && Longest(alpha.lens, g)
    && |tables| > 0
    && PlacesOk(g, EndOfBlockLength(alpha.lens), places, tables)
    && RightBefore(alpha, g, EndOfBlockLength(alpha.lens), places, tables, Pow2(g))
    && places[0] == Place(0, 0, bl)
  }

  lemma LastCode(plan: Plan, places: seq<Place>, s: Locals, pos: nat)
    requires plan.g <= BMAX && |plan.c| == BMAX + 1 && Built(plan, places, s, plan.g, plan.c[plan.g], pos)
    requires plan.el == EndOfBlockLength(plan.alpha.lens)
    ensures |places| > 0 && Finished(plan.alpha, s.tables, places[0].bits, places, plan.g)
  {
    hide Rev; hide RightBefore; hide Progress; hide Low; hide Sorted; hide FirstCode; hide Longest; hide IsLinkTo;
    assert Pow2(0) == 1;
  }

  /** Goes through the bit lengths from the shortest one and makes the entries for all codes. */
  method MakeTables(plan: Plan, shortest: nat, memory: Huft) returns (tables: Tables, bl: nat, ghost places: seq<Place>)
    requires PlanOk(plan) && plan.el == EndOfBlockLength(plan.alpha.lens)
    requires 0 < shortest <= plan.g && forall j :: 1 <= j < shortest ==> Count(plan.alpha.lens, j) == 0
    ensures Finished(plan.alpha, tables, bl, places, plan.g)
    ensures plan.m >= plan.g && plan.el >= plan.g ==> bl == plan.g
  {
    hide Built; hide Growing; hide Forest; hide Pow2; hide FirstCode; hide PlanOk; hide Count;
    PlanBasics(plan);
    var k := shortest;
    var s := started;
    places := [];
    ghost var pos: nat := 0;
    StartBuilding(plan, k);
    while k <= plan.g
      invariant 0 < k <= plan.g + 1
      invariant k <= plan.g ==> Built(plan, places, s, k, 0, pos)
      invariant k == plan.g + 1 ==> Built(plan, places, s, plan.g, plan.c[plan.g], pos)
      invariant |places| > 0 && plan.m >= plan.g && plan.el >= plan.g ==> places[0].bits == plan.g
    {
      var a := plan.c[k];
      while a > 0
        invariant 0 <= a <= plan.c[k] && Built(plan, places, s, k, plan.c[k] - a, pos)
        invariant |places| > 0 && plan.m >= plan.g && plan.el >= plan.g ==> places[0].bits == plan.g
      {
        CodesLeft(plan, places, s, k, plan.c[k] - a, pos);
        ValueStays(plan, places, s, k, plan.c[k] - a, pos);
        a := a - 1;
        s, places := GrowTables(plan, k, a, s, memory, places, pos);
        s := PlaceCode(plan, k, s, memory.v, places, plan.c[k] - 1 - a, pos);
        pos := pos + Pow2(plan.g - k);
      }
      if k < plan.g { NextLength(plan, places, s, k, pos); }
      k := k + 1;
    }
    LastCode(plan, places, s, pos);
    BaseTable(plan, places, s, pos);
    tables, bl := s.tables, s.l[0];
  }

  lemma ValueStays(plan: Plan, places: seq<Place>, s: Locals, k: nat, rank: nat, pos: nat)
    requires Built(plan, places, s, k, rank, pos)
    ensures ValueAt(plan, k, rank, s.p)
  {
  }

  lemma BaseTable(plan: Plan, places: seq<Place>, s: Locals, pos: nat)
    requires plan.g <= BMAX && |plan.c| == BMAX + 1 && Built(plan, places, s, plan.g, plan.c[plan.g], pos)
    ensures |s.l| > 0 && |places| > 0 && s.l[0] == places[0].bits
  {
    hide Rev; hide RightBefore; hide Progress; hide Low; hide Sorted; hide FirstCode; hide Longest; hide IsLinkTo; hide PlacesOk;
    assert Pow2(0) == 1;
  }

  // ---- huft_build ----

  /** The tables decode the alphabet's code. */
  ghost predicate Usable(alpha: Alphabet, tables: Tables, bl: nat) {
    exists places, g :: Finished(alpha, tables, bl, places, g)
  }

  /** The base table decodes all codes on its own. */
  predicate SingleLevel(tables: Tables) {
    |tables| > 0 && forall j :: 0 <= j < |tables[0]| ==> !IsLink(tables[0][j])
  }

  lemma {:induction false} CountZeros(lens: Lengths, n: nat)
    requires n <= |lens|
    ensures CountUpTo(lens, n, 0) == n <==> forall s :: 0 <= s < n ==> lens[s] == 0
  {
    if n > 0 { CountZeros(lens, n - 1); }
  }

  lemma {:induction false} SomeCount(lens: Lengths, n: nat, s: nat)
    requires s < n <= |lens|
    ensures CountUpTo(lens, n, lens[s]) > 0
  {
    if s < n - 1 { SomeCount(lens, n - 1, s); }
  }

  lemma {:induction false} CountedSymbol(lens: Lengths, n: nat, k: nat) returns (s: nat)
    requires n <= |lens| && CountUpTo(lens, n, k) > 0
    ensures s < n && lens[s] == k
  {
    if lens[n - 1] == k { s := n - 1; } else { s := CountedSymbol(lens, n - 1, k); }
  }

  /** A code of g bits or less leaves no room for a further table behind the base table. */
  lemma OnlyBaseTable(alpha: Alphabet, tables: Tables, places: seq<Place>, g: nat)
    requires Finished(alpha, tables, g, places, g)
    ensures SingleLevel(tables)
  {
    hide IsLeaf; hide RightBefore; hide Pow2; hide Longest;
    forall j | 0 <= j < |tables[0]| ensures !IsLink(tables[0][j]) {
      AllBefore(alpha, g, EndOfBlockLength(alpha.lens), places, tables, 0, j);
      if IsLink(tables[0][j]) {
        TopPlace(g, EndOfBlockLength(alpha.lens), places, tables, tables[0][j].v);
      }
    }
  }

  /** Builds the tables for an alphabet.  `m` is the number of bits asked for in the base table, bl
      the actual number.  The result is 2 for too many codes and 1 for too few, unless there is
      only one code, of one bit; no codes at all give 0 and no table. */
  method HuftBuild(alpha: Alphabet, m: nat, memory: Huft) returns (result: nat, tables: Tables, bl: nat)
    requires alpha.Valid()
    ensures AllZero(alpha.lens) ==> result == 0 && tables == [] && bl == 0
    ensures !AllZero(alpha.lens) && Oversubscribed(alpha.lens) ==> result == 2
    ensures !AllZero(alpha.lens) && !Oversubscribed(alpha.lens) ==>
              && result == (if Complete(alpha.lens) || (forall s :: 0 <= s < |alpha.lens| ==> alpha.lens[s] <= 1) then 0 else 1)
              && bl > 0
              && Usable(alpha, tables, bl)
              && (|alpha.lens| <= 256 && (forall s :: 0 <= s < |alpha.lens| ==> alpha.lens[s] <= m) ==> SingleLevel(tables))
  {
    hide FirstCode; hide CountUpTo; hide Finished; hide Pow2;
    var lens, n := alpha.lens, |alpha.lens|;
    var el := if n > 256 then lens[256] else BMAX;
    var c := CountLengths(lens);
    CountZeros(lens, n);
    if c[0] == n { return 0, [], 0; }
    SomeLength(lens, c);
    var k, g := LengthRange(c);
    var m' := if m < k then k else m;
    m' := if m' > g then g else m';
    var y := FillOut(lens, c, k, g);
    if y < 0 { return 2, [], m'; }
    c := c[g := c[g] + y];
    LengthsAtMost(lens, g);
    var v, values := SortValues(lens, c, g);
    var plan := Plan(alpha, g, el, m', c, v, values);
    assert PlanOk(plan);
    ghost var places;
    tables, bl, places := MakeTables(plan, k, memory);
    assert Usable(alpha, tables, bl);
    LongestSymbol(lens, g);
    if m' >= g && el >= g { OnlyBaseTable(alpha, tables, places, g); }
    BaseBits(alpha, tables, bl, places, g);
    result := if y != 0 && g != 1 then 1 else 0;
  }

  lemma BaseBits(alpha: Alphabet, tables: Tables, bl: nat, places: seq<Place>, g: nat)
    requires Finished(alpha, tables, bl, places, g)
    ensures 0 < bl <= g
  {
    TopPlace(g, EndOfBlockLength(alpha.lens), places, tables, 0);
  }

  lemma SomeLength(lens: Lengths, c: seq<nat>)
    requires |c| == BMAX + 1 && !AllZero(lens) && forall k :: 0 <= k <= BMAX ==> c[k] == CountUpTo(lens, |lens|, k)
    ensures exists j :: 1 <= j <= BMAX && c[j] > 0
  {
    hide CountUpTo;
    var s :| 0 <= s < |lens| && lens[s] != 0;
    SomeCount(lens, |lens|, s);
    assert c[lens[s]] > 0;
  }

  lemma LengthsAtMost(lens: Lengths, g: nat)
    requires forall k :: g < k <= BMAX ==> CountUpTo(lens, |lens|, k) == 0
    ensures forall s :: 0 <= s < |lens| ==> lens[s] <= g
  {
    forall s | 0 <= s < |lens| ensures lens[s] <= g { SomeCount(lens, |lens|, s); }
  }

  lemma LongestSymbol(lens: Lengths, g: nat)
    requires CountUpTo(lens, |lens|, g) > 0
    ensures exists s :: 0 <= s < |lens| && lens[s] == g
  {
    var s := CountedSymbol(lens, |lens|, g);
  }

  /** Main result: on every bit stream, walking the tables finds the same symbol and dumps the same
      number of bits as decoding bit by bit with the canonical code; bits that begin with no code
      lead to an invalid entry. */
  lemma TablesDecode(alpha: Alphabet, tables: Tables, bl: nat, x: nat)
    requires Usable(alpha, tables, bl)
    ensures alpha.Valid() && Found(alpha, x, Walk(tables, 0, bl, x))
  {
    hide Longest; hide PlacesOk; hide RightBefore; hide Found; hide Walk;
    var places, g :| Finished(alpha, tables, bl, places, g);
    LowZero(x);
    DropZero(x);
    SizesAgree(g, EndOfBlockLength(alpha.lens), places, tables);
    WalkFinds(alpha, g, EndOfBlockLength(alpha.lens), places, tables, 0, x);
    var r := Walk(tables, 0, bl, x);
    assert r.(b := 0 + r.b) == r;
  }

  lemma SizesAgree(g: nat, el: nat, places: seq<Place>, tables: Tables)
    requires PlacesOk(g, el, places, tables)
    ensures |places| == |tables|
  {
  }

  lemma DropZero(x: nat)
    ensures Drop(x, 0) == x
  {
  }

  /** Main result: when symbol 256 comes next, exactly the bits of its code are asked for. */
  lemma TablesStopAtEndOfBlock(alpha: Alphabet, tables: Tables, bl: nat, x: nat)
    requires Usable(alpha, tables, bl) && 256 < |alpha.lens| && 256 < alpha.s && Matches(alpha.lens, 256, x)
    ensures Requested(tables, 0, bl, x) == alpha.lens[256]
  {
    hide Longest; hide PlacesOk; hide RightBefore; hide Matches; hide Requested;
    var places, g :| Finished(alpha, tables, bl, places, g);
    LowZero(x);
    DropZero(x);
    SizesAgree(g, EndOfBlockLength(alpha.lens), places, tables);
    EndOfBlockRequests(alpha, g, places, tables, 0, x);
  }
}
