/** The lengths and distances of matches, section 3.2.5 of RFC 1951, by arithmetic. */
module InflateLengths {
  import opened Arithmetic
  import opened InflateBits
  import opened InflateHuffman
  import opened InflateFormat

  // ---- What the tables cover ----

  /** The first n entries stand for consecutive numbers. */
  predicate Consecutive(base: seq<nat>, extra: seq<nat>, n: nat) {
    n <= |base| && n <= |extra| && forall i :: 0 <= i < n - 1 ==> base[i + 1] == base[i] + Pow2(extra[i])
  }

  lemma SmallPowers()
    ensures Pow2(0) == 1 && Pow2(1) == 2 && Pow2(2) == 4 && Pow2(3) == 8 && Pow2(4) == 16 && Pow2(5) == 32 && Pow2(6) == 64
    ensures Pow2(7) == 128 && Pow2(8) == 256 && Pow2(9) == 512 && Pow2(10) == 1024 && Pow2(11) == 2048 && Pow2(12) == 4096 && Pow2(13) == 8192
  {
    assert Pow2(4) == 16;
    assert Pow2(8) == 256;
    assert Pow2(12) == 4096;
  }

  /** Lengths: from 3 on, with extra bits from symbol 8 on; the last symbol stands for 258 alone. */
  lemma LengthTable()
    ensures |LENGTH_BASE| == |LENGTH_EXTRA| == 29 && LENGTH_BASE[0] == 3
    ensures forall i :: 0 <= i < 28 ==> LENGTH_EXTRA[i] == if i < 8 then 0 else (i - 4) / 4
    ensures Consecutive(LENGTH_BASE, LENGTH_EXTRA, 28)
    ensures LENGTH_BASE[27] + Pow2(LENGTH_EXTRA[27]) == 259
    ensures LENGTH_BASE[28] == 258 && LENGTH_EXTRA[28] == 0
  {
    SmallPowers();
    assert |LENGTH_BASE| == |LENGTH_EXTRA| == 29;
    forall i | 0 <= i < 28 ensures LENGTH_EXTRA[i] == if i < 8 then 0 else (i - 4) / 4 { LengthExtra(i); }
    forall i | 0 <= i < 27 ensures LENGTH_BASE[i + 1] == LENGTH_BASE[i] + Pow2(LENGTH_EXTRA[i]) {
      LengthExtra(i);
      hide LENGTH_EXTRA; hide Pow2;
      LengthStep(i);
    }
  }

  lemma LengthExtra(i: nat)
    requires i < 28
    ensures LENGTH_EXTRA[i] == if i < 8 then 0 else (i - 4) / 4
  {
  }

  lemma LengthStep(i: nat)
    requires i < 27
    ensures LENGTH_BASE[i + 1] - LENGTH_BASE[i] == Pow2(if i < 8 then 0 else (i - 4) / 4)
  {
    SmallPowers();
    hide Pow2;
  }

  /** Distances: from 1 to 32768, with extra bits from symbol 4 on. */
  lemma DistanceTable()
    ensures |DISTANCE_BASE| == |DISTANCE_EXTRA| == 30 && DISTANCE_BASE[0] == 1
    ensures forall i :: 0 <= i < 30 ==> DISTANCE_EXTRA[i] == if i < 2 then 0 else i / 2 - 1
    ensures Consecutive(DISTANCE_BASE, DISTANCE_EXTRA, 30)
    ensures DISTANCE_BASE[29] + Pow2(DISTANCE_EXTRA[29]) == 32769
  {
    SmallPowers();
    assert |DISTANCE_BASE| == |DISTANCE_EXTRA| == 30;
    forall i | 0 <= i < 30 ensures DISTANCE_EXTRA[i] == if i < 2 then 0 else i / 2 - 1 { DistanceExtra(i); }
    forall i | 0 <= i < 29 ensures DISTANCE_BASE[i + 1] == DISTANCE_BASE[i] + Pow2(DISTANCE_EXTRA[i]) {
      DistanceExtra(i);
      hide DISTANCE_EXTRA; hide Pow2;
      DistanceStep(i);
    }
  }

  lemma DistanceExtra(i: nat)
    requires i < 30
    ensures DISTANCE_EXTRA[i] == if i < 2 then 0 else i / 2 - 1
  {
  }

  lemma DistanceStep(i: nat)
    requires i < 29
    ensures DISTANCE_BASE[i + 1] - DISTANCE_BASE[i] == Pow2(if i < 2 then 0 else i / 2 - 1)
  {
    SmallPowers();
    hide Pow2;
  }

  // ---- One symbol for each number ----

  /** Symbol i with the extra bits v stands for x. */
  predicate Means(base: seq<nat>, extra: seq<nat>, i: nat, v: nat, x: nat) {
    i < |base| && i < |extra| && v < Pow2(extra[i]) && base[i] + v == x
  }

  lemma {:induction false} Apart(base: seq<nat>, extra: seq<nat>, n: nat, i: nat, j: nat)
    requires Consecutive(base, extra, n) && i < j < n
    ensures base[i] + Pow2(extra[i]) <= base[j]
    decreases j
  {
    hide Pow2;
    if i < j - 1 { Apart(base, extra, n, i, j - 1); }
  }

  lemma {:induction false} Found(base: seq<nat>, extra: seq<nat>, n: nat, x: nat) returns (i: nat, v: nat)
    requires Consecutive(base, extra, n) && n > 0 && base[0] <= x < base[n - 1] + Pow2(extra[n - 1])
    ensures i < n && Means(base, extra, i, v, x)
    decreases n
  {
    hide Pow2;
    if x >= base[n - 1] { i, v := n - 1, x - base[n - 1]; } else { i, v := Found(base, extra, n - 1, x); }
  }

  /** Main result on consecutive entries: one symbol and one value of the extra bits for each number, in order. */
  lemma InOrder(base: seq<nat>, extra: seq<nat>, n: nat, i: nat, v: nat, x: nat, j: nat, w: nat, y: nat)
    requires Consecutive(base, extra, n) && i < n && j < n && Means(base, extra, i, v, x) && Means(base, extra, j, w, y)
    ensures x < y <==> i < j || (i == j && v < w)
    ensures x == y <==> i == j && v == w
  {
    hide Pow2;
    if i < j { Apart(base, extra, n, i, j); }
    if j < i { Apart(base, extra, n, j, i); }
  }

  /** Every length from 3 to 257 has exactly one symbol and one value of its extra bits; 258 has symbol 28, and the
      symbol before it with all its extra bits set. */
  lemma OneLength(x: nat)
    requires 3 <= x <= 258
    ensures exists i: nat, v: nat :: Means(LENGTH_BASE, LENGTH_EXTRA, i, v, x)
    ensures x < 258 ==> forall i: nat, v: nat, j: nat, w: nat ::
                Means(LENGTH_BASE, LENGTH_EXTRA, i, v, x) && Means(LENGTH_BASE, LENGTH_EXTRA, j, w, x) ==> i == j && v == w
    ensures forall i: nat, v: nat :: Means(LENGTH_BASE, LENGTH_EXTRA, i, v, 258) <==> (i == 28 && v == 0) || (i == 27 && v == 31)
  {
    SmallPowers();
    LengthTable();
    hide Pow2; hide LENGTH_BASE; hide LENGTH_EXTRA;
    var b, e := LENGTH_BASE, LENGTH_EXTRA;
    var k, u := Found(b, e, 28, x);
    forall i: nat, v: nat, j: nat, w: nat | x < 258 && Means(b, e, i, v, x) && Means(b, e, j, w, x) ensures i == j && v == w {
      InOrder(b, e, 28, i, v, x, j, w, x);
    }
    forall i: nat, v: nat ensures Means(b, e, i, v, 258) <==> (i == 28 && v == 0) || (i == 27 && v == 31) {
      assert Means(b, e, 27, 31, 258);
      if i < 28 && Means(b, e, i, v, 258) { InOrder(b, e, 28, i, v, 258, 27, 31, 258); }
    }
  }

  /** Every distance from 1 to 32768 has exactly one symbol and one value of its extra bits. */
  lemma OneDistance(x: nat)
    requires 1 <= x <= 32768
    ensures exists i: nat, v: nat :: Means(DISTANCE_BASE, DISTANCE_EXTRA, i, v, x)
    ensures forall i: nat, v: nat, j: nat, w: nat ::
              Means(DISTANCE_BASE, DISTANCE_EXTRA, i, v, x) && Means(DISTANCE_BASE, DISTANCE_EXTRA, j, w, x) ==> i == j && v == w
  {
    DistanceTable();
    hide Pow2; hide DISTANCE_BASE; hide DISTANCE_EXTRA;
    var b, e := DISTANCE_BASE, DISTANCE_EXTRA;
    var k, u := Found(b, e, 30, x);
    forall i: nat, v: nat, j: nat, w: nat | Means(b, e, i, v, x) && Means(b, e, j, w, x) ensures i == j && v == w {
      InOrder(b, e, 30, i, v, x, j, w, x);
    }
  }

  // ---- Symbols by arithmetic ----

  /** How many of the low bits of n are extra bits: as many as leave a number below top. */
  function ExtraBits(n: nat, top: nat): (e: nat)
    requires top > 0
    decreases n
  {
    if n < top then 0 else 1 + ExtraBits(n / 2, top)
  }

  /** What is left of n without them. */
  function Leading(n: nat, top: nat): (d: nat)
    requires top > 0
    ensures d < top && (n >= top ==> top <= 2 * d + 1)
    decreases n
  {
    if n < top then n else Leading(n / 2, top)
  }

  /** The symbol of a length, less 257. */
  function LengthSymbol(length: nat): nat
    requires length >= 3
  {
    if length == 258 then 28 else 4 * ExtraBits(length - 3, 8) + Leading(length - 3, 8)
  }

  /** How many extra bits follow it. */
  function LengthBits(length: nat): nat
    requires length >= 3
  {
    if length == 258 then 0 else ExtraBits(length - 3, 8)
  }

  /** The symbol of a distance. */
  function DistanceSymbol(distance: nat): nat
    requires distance >= 1
  {
    2 * ExtraBits(distance - 1, 4) + Leading(distance - 1, 4)
  }

  lemma {:induction false} LeadingIs(n: nat, top: nat)
    requires top > 0
    ensures Leading(n, top) == n / Pow2(ExtraBits(n, top))
    ensures Leading(n, top) * Pow2(ExtraBits(n, top)) + n % Pow2(ExtraBits(n, top)) == n
    decreases n
  {
    var e := ExtraBits(n, top);
    if n >= top {
      LeadingIs(n / 2, top);
      DivPow2(n, e);
      assert e - 1 == ExtraBits(n / 2, top);
    } else {
      assert Pow2(0) == 1;
    }
    hide *;
    DivMod(n, Pow2(e));
  }

  /** A number below top * 2^k has no more than k extra bits. */
  lemma {:induction false} FewExtraBits(n: nat, top: nat, k: nat)
    requires top > 0 && n < top * Pow2(k)
    ensures ExtraBits(n, top) <= k
    decreases k
  {
    if n >= top {
      assert Pow2(0) == 1;
      MulComm(top, Pow2(k));
      MulAssoc(2, Pow2(k - 1), top);
      MulComm(top, Pow2(k - 1));
      FewExtraBits(n / 2, top, k - 1);
    }
  }

  /** Entries in closed form: `half` symbols share a number of extra bits. */
  lemma {:induction false} EntryIs(base: seq<nat>, extra: seq<nat>, n: nat, half: nat, e: nat, d: nat)
    requires half > 0 && n > 0 && Consecutive(base, extra, n)
    requires forall i :: 0 <= i < n ==> extra[i] == if i < half then 0 else i / half - 1
    requires half * e + d < n && d < 2 * half && (e == 0 || d >= half)
    ensures extra[half * e + d] == e && base[half * e + d] == base[0] + d * Pow2(e)
    decreases e, d
  {
    hide Pow2;
    var i, p := half * e + d, Pow2(e);
    QuotientIs(half, e, d);
    PowerStep(e);
    if e == 0 {
      if d > 0 { EntryIs(base, extra, n, half, 0, d - 1); }
    } else if d > half {
      EntryIs(base, extra, n, half, e, d - 1);
      MulDist(d - 1, 1, p);
    } else {
      MulDist(e - 1, 1, half);
      MulComm(half, e - 1);
      MulComm(half, e);
      EntryIs(base, extra, n, half, e - 1, 2 * half - 1);
      MulDist(2 * half - 1, 1, Pow2(e - 1));
      MulAssoc(2, half, Pow2(e - 1));
      MulDouble(half, Pow2(e - 1));
    }
  }

  lemma PowerStep(e: nat)
    ensures Pow2(e) == if e == 0 then 1 else 2 * Pow2(e - 1)
  {
  }

  lemma QuotientIs(half: nat, e: nat, d: nat)
    requires half > 0 && d < 2 * half && (e == 0 || d >= half)
    ensures var i := half * e + d; e == if i < half then 0 else i / half - 1
  {
    MulComm(half, e);
    MulDist(e, 1, half);
    if d >= half { DivModUnique(e + 1, d - half, half); }
  }

  lemma ShortIsItself(n: nat, top: nat)
    requires 0 < top
    ensures n < top ==> ExtraBits(n, top) == 0 && Leading(n, top) == n && n % Pow2(0) == 0 && Pow2(0) == 1
    ensures n >= top ==> ExtraBits(n, top) > 0
  {
    assert Pow2(0) == 1;
  }

  /** Main result on lengths: the symbol by arithmetic, with the low bits of length - 3 as extra bits, stands for the
      length. */
  lemma LengthIsSent(length: nat)
    requires 3 <= length <= 258
    ensures var i, k := LengthSymbol(length), LengthBits(length);
            i < 29 && i < |LENGTH_EXTRA| && LENGTH_EXTRA[i] == k
            && Means(LENGTH_BASE, LENGTH_EXTRA, i, if length == 258 then 0 else (length - 3) % Pow2(k), length)
  {
    SmallPowers();
    LengthTable();
    hide LENGTH_BASE; hide LENGTH_EXTRA; hide Leading; hide ExtraBits; hide Pow2;
    if length < 258 {
      var n := length - 3;
      var e, d := ExtraBits(n, 8), Leading(n, 8);
      LeadingIs(n, 8);
      FewExtraBits(n, 8, 5);
      ShortIsItself(n, 8);
      EntryIs(LENGTH_BASE, LENGTH_EXTRA, 28, 4, e, d);
    }
  }

  /** Main result on distances: the symbol by arithmetic, with the low bits of distance - 1 as extra bits, stands for the
      distance. */
  lemma DistanceIsSent(distance: nat)
    requires 1 <= distance <= 32768
    ensures var i, k := DistanceSymbol(distance), ExtraBits(distance - 1, 4);
            i < 30 && i < |DISTANCE_EXTRA| && DISTANCE_EXTRA[i] == k
            && Means(DISTANCE_BASE, DISTANCE_EXTRA, i, (distance - 1) % Pow2(k), distance)
  {
    SmallPowers();
    DistanceTable();
    hide DISTANCE_BASE; hide DISTANCE_EXTRA; hide Leading; hide ExtraBits; hide Pow2;
    var n := distance - 1;
    var e, d := ExtraBits(n, 4), Leading(n, 4);
    LeadingIs(n, 4);
    FewExtraBits(n, 4, 13);
    ShortIsItself(n, 4);
    EntryIs(DISTANCE_BASE, DISTANCE_EXTRA, 30, 2, e, d);
  }
}
