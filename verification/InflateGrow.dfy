/** The steps of huft_build's main loop: choosing the size of a table, allocating it, filling in
    the entries for one code, and going on to the next code. */
module InflateGrow {
  import opened Arithmetic
  import opened InflateBits
  import opened InflateHuffman
  import opened InflateTables
  import opened InflateForest
  import opened InflateBuild

  /** The locals of huft_build that the main loop changes.  `u`, `l` and `x` are the stacks of
      tables, of their sizes and of the codes they begin with; h is one less than their length. */
  datatype Locals = Locals(tables: Tables, u: seq<nat>, l: seq<nat>, x: seq<nat>, w: nat, i: nat, p: nat, q: nat, z: nat)

  const started := Locals([], [], [], [], 0, 0, 0, 0, 0)

  /** The bits that the table on top of the stack ends at: w + l[h]. */
  function Reach(s: Locals): nat {
    s.w + if |s.l| == 0 then 0 else s.l[|s.l| - 1]
  }

  /** What the main loop knows of the code: counts with the dummy codes, values in order, number of values. */
  datatype Plan = Plan(alpha: Alphabet, g: nat, el: nat, m: nat, c: seq<nat>, v: seq<nat>, n: nat)

  ghost predicate PlanOk(plan: Plan) {
    var lens, g, c := plan.alpha.lens, plan.g, plan.c;
    && plan.alpha.Valid()
    && 1 <= g <= BMAX && 1 <= plan.m && |c| == BMAX + 1
    && (forall k :: 1 <= k < g ==> c[k] == Count(lens, k))
    && c[g] >= Count(lens, g) > 0
    && FirstCode(lens, g) + c[g] == Pow2(g)
    && Longest(lens, g)
    && Sorted(lens, g, plan.v) && plan.n == Offset(lens, |lens|, g + 1)
  }

  predicate StacksAgree(places: seq<Place>, s: Locals) {
    && |s.u| == |s.l| == |s.x|
    && (forall h :: 0 <= h < |s.u| ==> s.u[h] < |places| && s.l[h] == places[s.u[h]].bits && s.x[h] == places[s.u[h]].prefix)
    && s.w == if |s.u| == 0 then 0 else places[s.u[|s.u| - 1]].w
  }

  /** The code to come next is that of k bits with this rank. */
  predicate AtCode(plan: Plan, s: Locals, k: nat, rank: nat, pos: nat)
    requires plan.g <= BMAX
  {
    && 0 < k <= plan.g && s.i < Pow2(k)
    && Rev(k, s.i) == FirstCode(plan.alpha.lens, k) + rank
    && pos == Start(plan.g, k, s.i)
  }

  /** The table on top of the stack contains the code, at the beginning of one of its entries. */
  predicate TopContains(s: Locals, k: nat)
    requires |s.u| == |s.l| == |s.x|
  {
    && s.i < Pow2(Reach(s))
    && (|s.u| > 0 ==> s.w < k && Low(s.i, s.w) == s.x[|s.x| - 1])
    && (|s.u| > 0 && k <= Reach(s) ==> s.q == s.u[|s.u| - 1] && s.z == Pow2(s.l[|s.l| - 1]))
  }

  ghost predicate Growing(plan: Plan, places: seq<Place>, s: Locals, k: nat, rank: nat, pos: nat) {
    && PlanOk(plan)
    && StacksAgree(places, s)
    && Forest(plan.alpha, plan.g, plan.el, places, s.tables, s.u, pos)
    && AtCode(plan, s, k, rank, pos)
    && TopContains(s, k)
    && (|s.u| == 0 ==> rank == 0 && forall j :: 1 <= j < k ==> Count(plan.alpha.lens, j) == 0)
  }

  function Min(a: nat, b: nat): nat { if a <= b then a else b }

  lemma Doubled(lens: Lengths, j: nat)
    requires j > 0
    ensures Pow2(j) - FirstCode(lens, j) == 2 * (Pow2(j - 1) - EndCode(lens, j - 1))
  {
  }

  /** Enough bits to use up the codes that are left, but at most what the limits allow.
      `a` is the number of codes of k bits after the current one. */
  method TableBits(plan: Plan, k: nat, w: nat, a: nat) returns (j: nat)
    requires PlanOk(plan) && w < k <= plan.g && a < plan.c[k]
    requires k == plan.g ==> Pow2(plan.g - w) <= a + 1
    ensures 1 <= j <= plan.g - w
    ensures w < plan.el ==> w + j <= plan.el
    ensures w == 0 && a + 1 == plan.c[k] && FirstCode(plan.alpha.lens, k) == 0 && plan.m >= plan.g && plan.el >= plan.g ==> j == plan.g
  {
    hide Rev; hide CountUpTo; hide Sorted; hide Offset; hide FirstCode; hide Pow2;
    var z := Min(plan.g - w, plan.m);
    j := k - w;
    var f: int := Pow2(j);
    Pow2Grows(j, plan.g - w);
    if k < plan.g { RoomBelowLongest(plan.alpha.lens, plan.g, k); }
    ghost var single := w == 0 && a + 1 == plan.c[k] && FirstCode(plan.alpha.lens, k) == 0 && plan.m >= plan.g && plan.el >= plan.g;
    if f > a + 1 {
      f := f - (a + 1);
      j := j + 1;
      while j < z
        invariant k - w < j && (j == k - w + 1 || j <= z) && f > 0
        invariant single ==> f == Pow2(j - 1) - EndCode(plan.alpha.lens, j - 1)
      {
        if single { Doubled(plan.alpha.lens, j); }
        f := 2 * f;
        if f <= plan.c[w + j] {
          if single { RoomBelowLongest(plan.alpha.lens, plan.g, j); }
          break;
        }
        f := f - plan.c[w + j];
        j := j + 1;
      }
    }
    if w + j > plan.el && w < plan.el {
      j := plan.el - w;
    }
  }

  /** A new table fits between the current code and the end of all codes. */
  lemma TableFits(plan: Plan, k: nat, w: nat, i: nat, rank: nat, pos: nat)
    requires PlanOk(plan) && w < k <= plan.g && i < Pow2(w)
    requires i < Pow2(k) && Rev(k, i) == FirstCode(plan.alpha.lens, k) + rank && rank < plan.c[k]
    ensures k == plan.g ==> Pow2(plan.g - w) <= plan.c[k] - rank
  {
    hide Rev; hide FirstCode; hide Sorted; hide Offset;
    SameStart(plan.g, w, k, i);
    StartBound(plan.g, w, i);
    if k == plan.g {
      assert Pow2(0) == 1;
      assert Start(plan.g, k, i) == Rev(k, i) * Pow2(0);
    }
  }

  /** The invariant after the first table has been allocated. */
  lemma GrowFirst(plan: Plan, s: Locals, k: nat, rank: nat, pos: nat, j: nat, blank: seq<Huft>)
    requires Growing(plan, [], s, k, rank, pos) && |s.u| == 0
    requires 1 <= j <= plan.g && (0 < plan.el ==> j <= plan.el) && |blank| == Pow2(j)
    ensures Growing(plan, [Place(0, 0, j)], Locals([blank], [0], [j], [0], 0, s.i, s.p, 0, Pow2(j)), k, rank, pos)
  {
    hide Rev; hide Sorted; hide Offset; hide EntryOk; hide PlanOk; hide FirstCode;
    FirstTable(plan.alpha, plan.g, plan.el, j, blank) by { PlanBasics(plan); }
    PlanBasics(plan);
    Pow2Grows(0, j);
    StartOfZero(plan.g, k, s.i);
  }

  lemma PlanBasics(plan: Plan)
    requires PlanOk(plan)
    ensures plan.alpha.Valid() && 1 <= plan.g <= BMAX && 1 <= plan.m && |plan.c| == BMAX + 1
  {
  }

  lemma StartOfZero(g: nat, k: nat, i: nat)
    requires k <= g && i < Pow2(0)
    ensures i == 0 && Start(g, k, i) == 0 && Low(i, 0) == 0
  {
    RevOfZero(k);
  }

  /** The locals after a further table has been allocated and entered in the one below. */
  function Linked(s: Locals, j: nat, blank: seq<Huft>): Locals
    requires |s.u| == |s.l| == |s.x| > 0 && s.u[|s.u| - 1] < |s.tables|
    requires Drop(Low(s.i, Reach(s)), s.w) < |s.tables[s.u[|s.u| - 1]]|
  {
    var t, q, below := s.u[|s.u| - 1], |s.tables|, s.l[|s.l| - 1];
    var entry := Drop(Low(s.i, Reach(s)), s.w);
    Locals(s.tables[t := s.tables[t][entry := Huft(16 + j, below, q)]] + [blank],
           s.u + [q], s.l + [j], s.x + [s.i], Reach(s), s.i, s.p, q, Pow2(j))
  }

  lemma GrowNext(plan: Plan, places: seq<Place>, s: Locals, k: nat, rank: nat, pos: nat, j: nat, blank: seq<Huft>)
    requires Growing(plan, places, s, k, rank, pos) && |s.u| > 0 && Reach(s) < k
    requires 1 <= j <= plan.g - Reach(s) && (Reach(s) < plan.el ==> Reach(s) + j <= plan.el) && |blank| == Pow2(j)
    ensures s.u[|s.u| - 1] < |s.tables| && Drop(Low(s.i, Reach(s)), s.w) < |s.tables[s.u[|s.u| - 1]]|
    ensures Growing(plan, places + [Place(Reach(s), s.i, j)], Linked(s, j, blank), k, rank, pos)
  {
    hide Rev; hide Sorted; hide Offset; hide EntryOk; hide PlanOk; hide FirstCode; hide Low; hide Drop; hide Start; hide Pow2;
    hide RightBefore; hide Progress; hide PlacesOk;
    PlanBasics(plan);
    var top := s.u[|s.u| - 1];
    var pl := places[top];
    LowHigh(s.i, Reach(s));
    AddTable(plan.alpha, plan.g, plan.el, places, s.tables, s.u, pos, k, s.i, j, blank);
    Pow2Grows(Reach(s), Reach(s) + j);
  }

  /** The loop over `k > w + l[h]`: tables are added up to the one the code of k bits ends in.
      What malloc returns holds anything. */
  method GrowTables(plan: Plan, k: nat, a: nat, s0: Locals, memory: Huft, ghost places0: seq<Place>, ghost pos: nat)
    returns (s: Locals, ghost places: seq<Place>)
    requires PlanOk(plan) && k <= plan.g && a < plan.c[k]
    requires Growing(plan, places0, s0, k, plan.c[k] - 1 - a, pos)
    ensures Growing(plan, places, s, k, plan.c[k] - 1 - a, pos)
    ensures |s.u| > 0 && k <= Reach(s) && s.p == s0.p && s.i == s0.i
    ensures |s0.u| > 0 ==> |places0| <= |places| && places[0] == places0[0]
    ensures |s0.u| == 0 && plan.m >= plan.g && plan.el >= plan.g ==> places[0].bits == plan.g
  {
    hide PlanOk; hide StacksAgree; hide Forest; hide AtCode; hide Low; hide Drop;
    s, places := s0, places0;
    PlanBasics(plan);
    StackShape(plan, places, s, k, plan.c[k] - 1 - a, pos);
    while k > Reach(s)
      invariant Growing(plan, places, s, k, plan.c[k] - 1 - a, pos)
      invariant s.p == s0.p && s.i == s0.i
      invariant |s0.u| > 0 ==> |s.u| > 0 && |places0| <= |places| && |places0| > 0 && places[0] == places0[0]
      invariant |s0.u| == 0 && |s.u| > 0 && plan.m >= plan.g && plan.el >= plan.g ==> |places| > 0 && places[0].bits == plan.g
      invariant |s.u| == 0 ==> Reach(s) < k
      decreases k - Reach(s)
    {
      StackFacts(plan, places, s, k, plan.c[k] - 1 - a, pos);
      var j := TableBits(plan, k, Reach(s), a);
      var blank := seq(Pow2(j), _ => memory);
      if |s.u| > 0 {
        GrowNext(plan, places, s, k, plan.c[k] - 1 - a, pos, j, blank);
        places := places + [Place(Reach(s), s.i, j)];
        s := Linked(s, j, blank);
      } else {
        GrowFirst(plan, s, k, plan.c[k] - 1 - a, pos, j, blank);
        places := [Place(0, 0, j)];
        s := Locals([blank], [0], [j], [0], 0, s.i, s.p, 0, Pow2(j));
      }
    }
  }

  lemma StackShape(plan: Plan, places: seq<Place>, s: Locals, k: nat, rank: nat, pos: nat)
    requires Growing(plan, places, s, k, rank, pos)
    ensures |s.u| == |s.l| == |s.x| && |places| == |s.tables|
    ensures |s.u| == 0 <==> |places| == 0
    ensures |s.u| == 0 ==> Reach(s) == 0
    ensures 0 < k <= plan.g
  {
  }

  lemma StackFacts(plan: Plan, places: seq<Place>, s: Locals, k: nat, rank: nat, pos: nat)
    requires Growing(plan, places, s, k, rank, pos) && k > Reach(s) && k <= plan.g && rank < plan.c[k]
    ensures k == plan.g ==> Pow2(plan.g - Reach(s)) <= plan.c[k] - rank
    ensures |s.u| == |s.l| == |s.x| && |places| == |s.tables|
    ensures |s.u| == 0 <==> |places| == 0
    ensures |s.u| == 0 ==> Reach(s) == 0 && rank == 0 && FirstCode(plan.alpha.lens, k) == 0
    ensures |s.u| > 0 ==> s.u[|s.u| - 1] < |s.tables|
    ensures 1 <= plan.m
  {
    hide Rev; hide FirstCode; hide Sorted; hide Offset; hide PlacesOk; hide RightBefore; hide Progress; hide Start; hide Pow2;
    TableFits(plan, k, Reach(s), s.i, rank, pos);
    if |s.u| == 0 { FirstIsZero(plan.alpha.lens, k); }
  }
}
