/** Facts about multiplication, division and remainder that the other modules build on. */
module Arithmetic {

  lemma MulMono(a: nat, b: nat, c: nat)
    requires a <= b
    ensures a * c <= b * c
  {
  }

  lemma MulDist(a: int, b: int, c: int)
    ensures (a + b) * c == a * c + b * c
  {
  }

  lemma MulAssoc(a: int, b: int, c: int)
    ensures (a * b) * c == a * (b * c)
  {
  }

  /** Quotient and remainder are determined by what they add up to. */
  lemma DivModUnique(q: int, r: int, d: int)
    requires d > 0 && 0 <= r < d
    ensures (q * d + r) / d == q && (q * d + r) % d == r
  {
    var x := q * d + r;
    var e := x / d - q;
    assert x == (x / d) * d + x % d;
    assert e * d == r - x % d;
    assert e >= 1 ==> e * d >= d;
    assert e <= -1 ==> e * d <= -d;
  }

  lemma DivMod(x: nat, d: nat)
    requires d > 0
    ensures x == (x / d) * d + x % d && x % d < d
  {
  }

  lemma PositiveProduct(a: nat, b: nat)
    requires a > 0 && b > 0
    ensures a * b > 0
  {
    MulMono(1, a, b);
  }

  lemma DivDiv(x: nat, a: nat, b: nat)
    requires a > 0 && b > 0
    ensures a * b > 0
    ensures x / (a * b) == x / a / b
    ensures x % (a * b) == x % a + a * (x / a % b)
  {
    var q, r := x / a, x % a;
    var qq, rr := q / b, q % b;
    PositiveProduct(a, b);
    DivMod(x, a);
    DivMod(q, b);
    Recombine(qq, rr, r, a, b);
    DivModUnique(qq, r + a * rr, a * b);
  }

  /** A number of two digits over a remainder. */
  lemma Recombine(qq: nat, rr: nat, r: nat, a: nat, b: nat)
    requires rr < b && r < a
    ensures (qq * b + rr) * a + r == qq * (a * b) + (r + a * rr)
    ensures r + a * rr < a * b
  {
    MulDist(qq * b, rr, a);
    MulAssoc(qq, b, a);
    MulComm(a, b);
    MulComm(a, rr);
    MulDist(rr, 1, a);
    MulMono(rr + 1, b, a);
  }

  lemma MulComm(a: int, b: int)
    ensures a * b == b * a
  {
  }

  /** Numbers with the same quotient by p are those in the same slot of size p. */
  lemma SameSlot(a: nat, b: nat, p: nat, tail: nat)
    requires tail < p
    ensures a == b <==> b * p <= a * p + tail < b * p + p
  {
    MulDist(b, 1, p);
    MulDist(a, 1, p);
    if a < b { MulMono(a + 1, b, p); }
    if b < a { MulMono(b + 1, a, p); }
  }

  lemma MultipleOf(q: nat, d: nat)
    requires d > 0
    ensures (q * d) % d == 0 && q * d / d == q
  {
    DivModUnique(q, 0, d);
  }

  /** Taking remainders in between does not change the remainder of a sum. */
  lemma AddModulo(a: nat, b: nat, m: nat)
    requires m > 0
    ensures (a % m + b) % m == (a + b) % m
  {
    var q := a / m;
    DivMod(a, m);
    var x := a % m + b;
    DivMod(x, m);
    MulDist(q, x / m, m);
    DivModUnique(q + x / m, x % m, m);
  }

  lemma ModShift(x: int, t: int, m: nat)
    requires m > 0
    ensures (x + t * m) % m == x % m
  {
    var q := x / m;
    assert x == q * m + x % m;
    MulDist(q, t, m);
    DivModUnique(q + t, x % m, m);
  }

  /** A remainder may be taken before multiplying and adding. */
  lemma ModLinear(a: int, m: nat, k: int, c: int)
    requires m > 0
    ensures ((a % m) * k + c) % m == (a * k + c) % m
  {
    var q, r := a / m, a % m;
    assert a == q * m + r;
    MulDist(q * m, r, k);
    MulAssoc(q, m, k);
    MulAssoc(q, k, m);
    assert a * k + c == (r * k + c) + (q * k) * m;
    ModShift(r * k + c, q * k, m);
  }

  lemma DivNat(x: nat, d: nat)
    requires d > 0
    ensures x / d >= 0
  {
  }
}
