/** Sums of chosen terms, and numbers of four bits that choose among four terms. */
module GfSums {

  datatype Group<!E> = Group(zero: E, add: (E, E) -> E)

  ghost predicate HasZero<E(!new)>(g: Group<E>) {
    forall x: E :: g.add(x, g.zero) == x && g.add(g.zero, x) == x
  }

  ghost predicate Associative<E(!new)>(g: Group<E>) {
    forall x: E, y: E, z: E :: g.add(g.add(x, y), z) == g.add(x, g.add(y, z))
  }

  ghost predicate Lawful<E(!new)>(g: Group<E>) { HasZero(g) && Associative(g) }

  /** The chosen ones among the terms from number `start` up to but not including number `end`. */
  function Sum<E>(g: Group<E>, term: nat -> E, chosen: nat -> bool, start: nat, end: nat): E
    decreases end
  {
    if end <= start then g.zero
    else if chosen(end - 1) then g.add(Sum(g, term, chosen, start, end - 1), term(end - 1))
    else Sum(g, term, chosen, start, end - 1)
  }

  lemma {:induction false} SumSplit<E(!new)>(g: Group<E>, term: nat -> E, chosen: nat -> bool, start: nat, mid: nat, end: nat)
    requires Lawful(g) && start <= mid <= end
    ensures Sum(g, term, chosen, start, end) == g.add(Sum(g, term, chosen, start, mid), Sum(g, term, chosen, mid, end))
    decreases end
  {
    if end > mid { SumSplit(g, term, chosen, start, mid, end - 1); }
  }

  lemma {:induction false} SumSame<E>(g: Group<E>, term: nat -> E, chosen: nat -> bool, chosen': nat -> bool, start: nat, end: nat)
    requires forall i: nat :: start <= i < end ==> chosen(i) == chosen'(i)
    ensures Sum(g, term, chosen, start, end) == Sum(g, term, chosen', start, end)
    decreases end
  {
    if end > start { SumSame(g, term, chosen, chosen', start, end - 1); }
  }

  lemma {:induction false} SumOfNothing<E>(g: Group<E>, term: nat -> E, chosen: nat -> bool, start: nat, end: nat)
    requires forall i: nat :: start <= i < end ==> !chosen(i)
    ensures Sum(g, term, chosen, start, end) == g.zero
    decreases end
  {
    if end > start { SumOfNothing(g, term, chosen, start, end - 1); }
  }

  // ---- Four bits at a time ----

  /** Bit k of a number of four bits. */
  function BitOf(v: nat, k: nat): bool {
    if k == 0 then v % 2 == 1
    else if k == 1 then v / 2 % 2 == 1
    else if k == 2 then v / 4 % 2 == 1
    else k == 3 && v / 8 % 2 == 1
  }

  /** Four bits in the opposite order. */
  function Mirrored4(j: nat): (r: nat)
    ensures r < 16
  {
    8 * (j % 2) + 4 * (j / 2 % 2) + 2 * (j / 4 % 2) + j / 8 % 2
  }

  lemma Digits(j: nat, b0: nat, b1: nat, b2: nat, b3: nat)
    requires b0 < 2 && b1 < 2 && b2 < 2 && b3 < 2 && j == 8 * b3 + 4 * b2 + 2 * b1 + b0
    ensures j % 2 == b0 && j / 2 % 2 == b1 && j / 4 % 2 == b2 && j / 8 == b3 && j / 8 % 2 == b3
  {
    assert j / 2 == 4 * b3 + 2 * b2 + b1;
    assert j / 4 == 2 * b3 + b2;
  }

  lemma HasDigits(j: nat) returns (b0: nat, b1: nat, b2: nat, b3: nat)
    requires j < 16
    ensures b0 < 2 && b1 < 2 && b2 < 2 && b3 < 2 && j == 8 * b3 + 4 * b2 + 2 * b1 + b0
  {
    b0 := j % 2;
    var k := j / 2;
    b1 := k % 2;
    var l := k / 2;
    b2, b3 := l % 2, l / 2;
  }

  lemma MirroredBits(j: nat)
    requires j < 16
    ensures var m := Mirrored4(j);
            && Mirrored4(m) == j
            && BitOf(m, 0) == (j / 8 == 1) && BitOf(m, 1) == (j / 4 % 2 == 1) && BitOf(m, 2) == (j / 2 % 2 == 1) && BitOf(m, 3) == (j % 2 == 1)
  {
    var b0, b1, b2, b3 := HasDigits(j);
    Digits(j, b0, b1, b2, b3);
    var m := Mirrored4(j);
    Digits(m, b3, b2, b1, b0);
  }

  /** The bits of v choose among four terms from number `base` on. */
  function Window(v: nat, base: nat): nat -> bool { (i: nat) => i >= base && BitOf(v, i - base) }

  function Nibble<E>(g: Group<E>, term: nat -> E, base: nat, v: nat): E { Sum(g, term, Window(v, base), base, base + 4) }

  function If<E>(g: Group<E>, c: bool, x: E): E { if c then x else g.zero }

  lemma NibbleIs<E(!new)>(g: Group<E>, term: nat -> E, base: nat, v: nat)
    requires Lawful(g)
    ensures Nibble(g, term, base, v)
         == g.add(g.add(g.add(If(g, BitOf(v, 0), term(base)), If(g, BitOf(v, 1), term(base + 1))),
                        If(g, BitOf(v, 2), term(base + 2))), If(g, BitOf(v, 3), term(base + 3)))
  {
    var w := Window(v, base);
    var s0 := Sum(g, term, w, base, base);
    var s1 := Sum(g, term, w, base, base + 1);
    var s2 := Sum(g, term, w, base, base + 2);
    var s3 := Sum(g, term, w, base, base + 3);
    assert s0 == g.zero && w(base) == BitOf(v, 0) && w(base + 1) == BitOf(v, 1) && w(base + 2) == BitOf(v, 2) && w(base + 3) == BitOf(v, 3);
    assert s1 == g.add(s0, If(g, BitOf(v, 0), term(base)));
    assert s2 == g.add(s1, If(g, BitOf(v, 1), term(base + 1)));
    assert s3 == g.add(s2, If(g, BitOf(v, 2), term(base + 2)));
    hide Window; hide BitOf;
  }

  /** Entry j of a row whose highest bit stands for the first of the four terms. */
  function Entry<E>(g: Group<E>, term: nat -> E, base: nat, j: nat): E { Nibble(g, term, base, Mirrored4(j)) }

  lemma EntryIs<E(!new)>(g: Group<E>, term: nat -> E, base: nat, j: nat)
    requires Lawful(g) && j < 16
    ensures Entry(g, term, base, j)
         == g.add(g.add(g.add(If(g, j / 8 == 1, term(base)), If(g, j / 4 % 2 == 1, term(base + 1))),
                        If(g, j / 2 % 2 == 1, term(base + 2))), If(g, j % 2 == 1, term(base + 3)))
  {
    hide BitOf; hide Mirrored4; hide Lawful;
    NibbleIs(g, term, base, Mirrored4(j));
    MirroredBits(j);
  }

  lemma EntryBits<E(!new)>(g: Group<E>, term: nat -> E, base: nat, j: nat, b0: bool, b1: bool, b2: bool, b3: bool)
    requires Lawful(g) && j < 16
    requires b0 == (j / 8 == 1) && b1 == (j / 4 % 2 == 1) && b2 == (j / 2 % 2 == 1) && b3 == (j % 2 == 1)
    ensures Entry(g, term, base, j)
         == g.add(g.add(g.add(If(g, b0, term(base)), If(g, b1, term(base + 1))), If(g, b2, term(base + 2))), If(g, b3, term(base + 3)))
  {
    hide Entry; hide If; hide Lawful;
    EntryIs(g, term, base, j);
  }

  lemma SingleEntries<E(!new)>(g: Group<E>, term: nat -> E, base: nat)
    requires Lawful(g)
    ensures Entry(g, term, base, 0) == g.zero
    ensures Entry(g, term, base, 8) == term(base) && Entry(g, term, base, 4) == term(base + 1)
    ensures Entry(g, term, base, 2) == term(base + 2) && Entry(g, term, base, 1) == term(base + 3)
  {
    hide Entry; hide If; hide Lawful;
    EntryBits(g, term, base, 0, false, false, false, false);
    EntryBits(g, term, base, 8, true, false, false, false);
    EntryBits(g, term, base, 4, false, true, false, false);
    EntryBits(g, term, base, 2, false, false, true, false);
    EntryBits(g, term, base, 1, false, false, false, true);
    Zeros(g, g.zero, true);
    Zeros(g, term(base), true);
    Zeros(g, term(base + 1), true);
    Zeros(g, term(base + 2), true);
    Zeros(g, term(base + 3), true);
  }

  lemma AddFour<E(!new)>(g: Group<E>, a: E, b: E, c: E, d: E)
    requires Lawful(g)
    ensures g.add(a, g.add(g.add(b, c), d)) == g.add(g.add(g.add(a, b), c), d)
  {
    assert g.add(a, g.add(g.add(b, c), d)) == g.add(g.add(a, g.add(b, c)), d);
    assert g.add(a, g.add(b, c)) == g.add(g.add(a, b), c);
  }

  lemma AddThree<E(!new)>(g: Group<E>, a: E, b: E, c: E)
    requires Lawful(g)
    ensures g.add(a, g.add(b, c)) == g.add(g.add(a, b), c)
  {
  }

  lemma Zeros<E(!new)>(g: Group<E>, x: E, c: bool)
    requires Lawful(g)
    ensures g.add(g.zero, x) == x && g.add(x, g.zero) == x && If(g, true, x) == x && If(g, false, x) == g.zero
  {
  }

  lemma HighBit(j: nat, k: nat)
    requires (j == 4 || j == 8) && k < j
    ensures ((j + k) / 8 == 1) == (j == 8) && k / 8 == 0
    ensures (j + k) / 4 % 2 == (if j == 4 then 1 else k / 4 % 2) && (j == 4 ==> k / 4 == 0)
    ensures (j + k) / 2 % 2 == k / 2 % 2 && (j + k) % 2 == k % 2
  {
    match k
    case 0 =>
    case 1 =>
    case 2 =>
    case 3 =>
    case 4 =>
    case 5 =>
    case 6 =>
    case _ =>
  }

  lemma FirstOfFour<E(!new)>(g: Group<E>, t: E, u: E, c: E, d: E, e: E)
    requires Lawful(g)
    ensures g.add(g.add(g.add(If(g, true, t), c), d), e) == g.add(t, g.add(g.add(g.add(If(g, false, t), c), d), e))
    ensures g.add(g.add(g.add(If(g, false, u), If(g, true, t)), d), e)
         == g.add(t, g.add(g.add(g.add(If(g, false, u), If(g, false, t)), d), e))
  {
    Zeros(g, c, true);
    Zeros(g, t, true);
    Zeros(g, u, true);
    Zeros(g, g.zero, true);
    Zeros(g, d, true);
    AddFour(g, t, c, d, e);
    AddThree(g, t, d, e);
    hide If; hide Lawful;
  }

  lemma Closure8<E(!new)>(g: Group<E>, term: nat -> E, base: nat, k: nat)
    requires Lawful(g) && 0 < k < 8
    ensures Entry(g, term, base, 8 + k) == g.add(Entry(g, term, base, 8), Entry(g, term, base, k))
  {
    hide Entry; hide If; hide Lawful;
    var b0, b1, b2 := k / 4 % 2 == 1, k / 2 % 2 == 1, k % 2 == 1;
    HighBit(8, k);
    EntryBits(g, term, base, 8 + k, true, b0, b1, b2);
    EntryBits(g, term, base, k, false, b0, b1, b2);
    SingleEntries(g, term, base);
    FirstOfFour(g, term(base), term(base), If(g, b0, term(base + 1)), If(g, b1, term(base + 2)), If(g, b2, term(base + 3)));
  }

  lemma Closure4<E(!new)>(g: Group<E>, term: nat -> E, base: nat, k: nat)
    requires Lawful(g) && 0 < k < 4
    ensures Entry(g, term, base, 4 + k) == g.add(Entry(g, term, base, 4), Entry(g, term, base, k))
  {
    hide Entry; hide If; hide Lawful;
    var b1, b2 := k / 2 % 2 == 1, k % 2 == 1;
    HighBit(4, k);
    EntryBits(g, term, base, 4 + k, false, true, b1, b2);
    EntryBits(g, term, base, k, false, false, b1, b2);
    SingleEntries(g, term, base);
    FirstOfFour(g, term(base + 1), term(base), g.zero, If(g, b1, term(base + 2)), If(g, b2, term(base + 3)));
  }

  lemma Closure2<E(!new)>(g: Group<E>, term: nat -> E, base: nat)
    requires Lawful(g)
    ensures Entry(g, term, base, 3) == g.add(Entry(g, term, base, 2), Entry(g, term, base, 1))
  {
    hide Entry;
    EntryIs(g, term, base, 3);
    SingleEntries(g, term, base);
    Zeros(g, g.zero, true);
    Zeros(g, term(base + 2), true);
  }

  /** Rows are closed: an entry is the sum of the entry of its highest bit and that of the others. */
  lemma EntryClosure<E(!new)>(g: Group<E>, term: nat -> E, base: nat, j: nat, k: nat)
    requires Lawful(g) && (j == 2 || j == 4 || j == 8) && 0 < k < j
    ensures Entry(g, term, base, j + k) == g.add(Entry(g, term, base, j), Entry(g, term, base, k))
  {
    hide Entry;
    if j == 8 { Closure8(g, term, base, k); } else if j == 4 { Closure4(g, term, base, k); } else { Closure2(g, term, base); }
  }
}
