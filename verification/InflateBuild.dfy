/** huft_build of Common/Inflate.c. */
module InflateBuild {
  import opened Arithmetic
  import opened InflateBits
  import opened InflateHuffman
  import opened InflateTables
  import opened InflateForest

  const N_MAX := 288

  // ---- Counting ----

  method CountLengths(b: Lengths) returns (c: seq<nat>)
    requires |b| > 0
    ensures |c| == BMAX + 1
    ensures forall k :: 0 <= k <= BMAX ==> c[k] == CountUpTo(b, |b|, k)
  {
    c := seq(BMAX + 1, _ => 0);
    var p := 0;
    while p < |b|
      invariant p <= |b| && |c| == BMAX + 1
      invariant forall k :: 0 <= k <= BMAX ==> c[k] == CountUpTo(b, p, k)
    {
      c := c[b[p] := c[b[p]] + 1];
      p := p + 1;
    }
  }

  /** The least and the greatest length with a code. */
  method LengthRange(c: seq<nat>) returns (k: nat, g: nat)
    requires |c| == BMAX + 1 && exists j :: 1 <= j <= BMAX && c[j] > 0
    ensures 1 <= k <= g <= BMAX && c[k] > 0 && c[g] > 0
    ensures forall j :: 1 <= j < k || g < j <= BMAX ==> c[j] == 0
  {
    k := 1;
    while k <= BMAX && c[k] == 0
      invariant 1 <= k <= BMAX + 1
      invariant forall j :: 1 <= j < k ==> c[j] == 0
    {
      k := k + 1;
    }
    g := BMAX;
    while g > 0 && c[g] == 0
      invariant 0 <= g <= BMAX
      invariant forall j :: g < j <= BMAX ==> c[j] == 0
    {
      g := g - 1;
    }
  }

  // ---- Kraft's inequality ----

  predicate Counted(lens: Lengths, c: seq<nat>) {
    |c| == BMAX + 1 && forall k :: 1 <= k <= BMAX ==> c[k] == Count(lens, k)
  }

  /** The first code of the shortest length is zero. */
  lemma {:induction false} FirstIsZero(lens: Lengths, k: nat)
    requires forall j :: 1 <= j < k ==> Count(lens, j) == 0
    ensures FirstCode(lens, k) == 0
  {
    if k > 0 { FirstIsZero(lens, k - 1); }
  }

  lemma ExceedsMeansOversubscribed(lens: Lengths, k: nat)
    requires k <= BMAX && EndCode(lens, k) > Pow2(k)
    ensures Oversubscribed(lens)
  {
    hide Pow2; hide EndCode;
    EndCodeGrows(lens, k, BMAX);
    Pow2Add(k, BMAX - k);
    MulMono(Pow2(k) + 1, EndCode(lens, k), Pow2(BMAX - k));
    MulDist(Pow2(k), 1, Pow2(BMAX - k));
  }

  /** At the greatest length it is decided whether the lengths ask for too many codes or too few. */
  lemma DecidedAtLongest(lens: Lengths, g: nat)
    requires Longest(lens, g)
    ensures EndCode(lens, g) > Pow2(g) <==> Oversubscribed(lens)
    ensures EndCode(lens, g) == Pow2(g) <==> Complete(lens)
  {
    hide Pow2; hide EndCode; hide Count;
    EndCodeGrows(lens, g, BMAX);
    Pow2Add(g, BMAX - g);
    CompareProducts(EndCode(lens, g), Pow2(g), Pow2(BMAX - g));
  }

  lemma CompareProducts(a: nat, b: nat, c: nat)
    requires c > 0
    ensures a * c > b * c <==> a > b
    ensures a * c == b * c <==> a == b
  {
    if a > b { MulMono(b + 1, a, c); MulDist(b, 1, c); }
    if a < b { MulMono(a + 1, b, c); MulDist(a, 1, c); }
  }

  /** Unless too many codes are asked for, no length but the greatest uses up all patterns. */
  lemma {:induction false} RoomBelowLongest(lens: Lengths, g: nat, k: nat)
    requires k < g && Count(lens, g) > 0 && EndCode(lens, g) <= Pow2(g)
    ensures EndCode(lens, k) < Pow2(k)
    decreases g - k
  {
    if k == g - 1 {
    } else {
      RoomBelowLongest(lens, g, k + 1);
    }
  }

  /** How many patterns of the greatest length are left over; negative if there are too few of
      some length. */
  method FillOut(ghost lens: Lengths, c: seq<nat>, k: nat, g: nat) returns (y: int)
    requires Counted(lens, c) && 1 <= k <= g <= BMAX
    requires forall j :: 1 <= j < k || g < j <= BMAX ==> c[j] == 0
    ensures y < 0 <==> Oversubscribed(lens)
    ensures y >= 0 ==> y == Pow2(g) - EndCode(lens, g) && (y == 0 <==> Complete(lens))
  {
    var j := k;
    y := Pow2(j);
    FirstIsZero(lens, k);
    assert Longest(lens, g);
    while j < g
      invariant k <= j <= g
      invariant y == Pow2(j) - FirstCode(lens, j)
    {
      y := y - c[j];
      if y < 0 {
        ExceedsMeansOversubscribed(lens, j);
        return;
      }
      j := j + 1;
      y := y * 2;
    }
    y := y - c[g];
    DecidedAtLongest(lens, g);
  }

  // ---- Values in order of bit length ----

  /** How many symbols have codes shorter than k bits. */
  function Offset(lens: Lengths, n: nat, k: nat): nat
    requires n <= |lens|
  {
    if k <= 1 then 0 else Offset(lens, n, k - 1) + CountUpTo(lens, n, k - 1)
  }

  lemma {:induction false} OffsetGrows(lens: Lengths, n: nat, j: nat, k: nat)
    requires n <= |lens| && j <= k
    ensures Offset(lens, n, j) <= Offset(lens, n, k)
    ensures 0 < j < k ==> Offset(lens, n, j) + CountUpTo(lens, n, j) <= Offset(lens, n, k)
    decreases k
  {
    if j < k { OffsetGrows(lens, n, j, k - 1); }
  }

  lemma {:induction false} OffsetStep(lens: Lengths, n: nat, k: nat)
    requires 0 < n <= |lens|
    ensures Offset(lens, n, k) == Offset(lens, n - 1, k) + if 0 < lens[n - 1] < k then 1 else 0
  {
    if k > 1 { OffsetStep(lens, n, k - 1); }
  }

  lemma {:induction false} OffsetBound(lens: Lengths, n: nat, k: nat)
    requires n <= |lens|
    ensures Offset(lens, n, k) <= n
    decreases n
  {
    if n == 0 { OffsetOfNone(lens, k); } else { OffsetBound(lens, n - 1, k); OffsetStep(lens, n, k); }
  }

  lemma {:induction false} OffsetOfNone(lens: Lengths, k: nat)
    ensures Offset(lens, 0, k) == 0
  {
    if k > 1 { OffsetOfNone(lens, k - 1); }
  }

  /** Where a symbol comes when symbols are sorted by the lengths of their codes. */
  function SortedAt(lens: Lengths, s: nat): nat
    requires s < |lens|
  {
    Offset(lens, |lens|, lens[s]) + CountUpTo(lens, s, lens[s])
  }

  lemma SortedApart(lens: Lengths, s: nat, t: nat)
    requires s < |lens| && t < |lens| && s != t && lens[s] > 0 && lens[t] > 0
    ensures SortedAt(lens, s) != SortedAt(lens, t)
  {
    hide CountUpTo; hide Offset;
    RankBelowCount(lens, s);
    RankBelowCount(lens, t);
    if lens[s] == lens[t] {
      SymbolOfRank(lens, |lens|, s);
      SymbolOfRank(lens, |lens|, t);
    } else if lens[s] < lens[t] {
      OffsetGrows(lens, |lens|, lens[s], lens[t]);
    } else {
      OffsetGrows(lens, |lens|, lens[t], lens[s]);
    }
  }

  lemma SortedBelow(lens: Lengths, s: nat)
    requires s < |lens| && lens[s] > 0
    ensures SortedAt(lens, s) < Offset(lens, |lens|, lens[s] + 1) <= |lens|
  {
    RankBelowCount(lens, s);
    OffsetBound(lens, |lens|, lens[s] + 1);
  }

  /** The symbols that occur, in the order of their codes. */
  predicate Sorted(lens: Lengths, g: nat, v: seq<nat>) {
    forall s :: 0 <= s < |lens| && lens[s] > 0 ==> SortedAt(lens, s) < |v| && v[SortedAt(lens, s)] == s
  }

  /** Starting offsets into the value table for each length. */
  method StartingOffsets(ghost b: Lengths, c: seq<nat>, g: nat) returns (x: seq<nat>)
    requires |c| == BMAX + 1 && 1 <= g <= BMAX
    requires forall k :: 1 <= k < g ==> c[k] == Count(b, k)
    ensures |x| == BMAX + 1
    ensures forall k :: 1 <= k <= g ==> x[k] == Offset(b, |b|, k)
  {
    x := seq(BMAX + 1, _ => 0);
    var j: nat, xp := 0, 2;
    while xp <= g
      invariant 2 <= xp <= g + 1 && |x| == BMAX + 1
      invariant j == Offset(b, |b|, xp - 1)
      invariant forall k :: 1 <= k < xp ==> x[k] == Offset(b, |b|, k)
    {
      j := j + c[xp - 1];
      x := x[xp := j];
      xp := xp + 1;
    }
  }

  lemma CountStep(lens: Lengths, n: nat)
    requires n < |lens|
    ensures forall k :: CountUpTo(lens, n + 1, k) == CountUpTo(lens, n, k) + if lens[n] == k then 1 else 0
  {
  }

  lemma NothingCounted(lens: Lengths)
    ensures forall k :: CountUpTo(lens, 0, k) == 0
  {
  }

  /** The offset of each length has moved over the symbols of that length that have been placed. */
  predicate Moved(lens: Lengths, g: nat, x: seq<nat>, i: nat)
    requires |x| == BMAX + 1 && g <= BMAX && i <= |lens|
  {
    forall k :: 1 <= k <= g ==> x[k] == Offset(lens, |lens|, k) + CountUpTo(lens, i, k)
  }

  predicate Placed(lens: Lengths, v: seq<nat>, i: nat)
    requires i <= |lens|
  {
    forall s :: 0 <= s < i && lens[s] > 0 ==> SortedAt(lens, s) < |v| && v[SortedAt(lens, s)] == s
  }

  lemma PlaceOne(lens: Lengths, v: seq<nat>, i: nat)
    requires i < |lens| && lens[i] > 0 && Placed(lens, v, i) && |lens| <= |v|
    ensures SortedAt(lens, i) < |v|
    ensures Placed(lens, v[SortedAt(lens, i) := i], i + 1)
  {
    hide SortedAt;
    SortedBelow(lens, i);
    forall s | 0 <= s < i && lens[s] > 0 ensures SortedAt(lens, s) != SortedAt(lens, i) { SortedApart(lens, s, i); }
  }

  /** A stable sort by counting. */
  method SortValues(b: Lengths, c: seq<nat>, g: nat) returns (v: seq<nat>, n: nat)
    requires 0 < |b| <= N_MAX && |c| == BMAX + 1 && 1 <= g <= BMAX
    requires forall k :: 1 <= k < g ==> c[k] == Count(b, k)
    requires forall s :: 0 <= s < |b| ==> b[s] <= g
    ensures |v| == N_MAX && Sorted(b, g, v)
    ensures n == Offset(b, |b|, g + 1)
  {
    hide CountUpTo; hide Placed;
    var x := StartingOffsets(b, c, g);
    v := seq(N_MAX, _ => 0);
    NothingCounted(b);
    var i := 0;
    assert Placed(b, v, 0) by { NothingPlaced(b, v); }
    while i < |b|
      invariant i <= |b| && |x| == BMAX + 1 && |v| == N_MAX
      invariant Moved(b, g, x, i)
      invariant Placed(b, v, i)
    {
      CountStep(b, i);
      var j := b[i];
      if j != 0 {
        PlaceOne(b, v, i);
        v := v[x[j] := i];
        x := x[j := x[j] + 1];
      } else {
        PlaceNone(b, v, i);
      }
      i := i + 1;
    }
    n := x[g];
    AllPlaced(b, g, v);
  }

  lemma NothingPlaced(lens: Lengths, v: seq<nat>)
    ensures Placed(lens, v, 0)
  {
  }

  lemma PlaceNone(lens: Lengths, v: seq<nat>, i: nat)
    requires i < |lens| && lens[i] == 0 && Placed(lens, v, i)
    ensures Placed(lens, v, i + 1)
  {
  }

  lemma AllPlaced(lens: Lengths, g: nat, v: seq<nat>)
    requires Placed(lens, v, |lens|)
    ensures Sorted(lens, g, v)
  {
  }

  /** The r-th code of k bits belongs to the value at this place. */
  lemma SortedSymbol(lens: Lengths, g: nat, v: seq<nat>, k: nat, r: nat)
    requires Sorted(lens, g, v) && 0 < k && r < Count(lens, k)
    ensures var p := Offset(lens, |lens|, k) + r;
            p < |v| && v[p] == SymbolAt(lens, k, r) && v[p] < |lens|
  {
    var s := SymbolAt(lens, k, r);
    assert SortedAt(lens, s) == Offset(lens, |lens|, k) + r;
  }
}
