/** Numbers as strings of bits.  DEFLATE packs bits starting with the least significant one, but
    reads a Huffman code with its most significant bit first (section 3.1.1 of RFC 1951), so the
    first n bits of a window x, read as a code, are Rev(n, x). */
module InflateBits {
  import opened Arithmetic

  function Pow2(n: nat): (p: nat)
    ensures p > 0
  {
    if n == 0 then 1 else 2 * Pow2(n - 1)
  }

  /** The low n bits of x. */
  function Low(x: nat, n: nat): (r: nat)
    ensures r < Pow2(n)
  {
    x % Pow2(n)
  }

  /** x without its low n bits. */
  function Drop(x: nat, n: nat): nat {
    DivNat(x, Pow2(n));
    x / Pow2(n)
  }

  /** The low n bits of x, read with the lowest one as the most significant. */
  function Rev(n: nat, x: nat): (r: nat)
    ensures r < Pow2(n)
    decreases n
  {
    if n == 0 then 0
    else
      var high, low := x % 2, Rev(n - 1, x / 2);
      if high == 1 then Pow2(n - 1) + low else low
  }

  lemma {:induction false} Pow2Add(a: nat, b: nat)
    ensures Pow2(a + b) == Pow2(a) * Pow2(b)
  {
    if a > 0 { Pow2Add(a - 1, b); }
  }

  lemma {:induction false} Pow2Grows(a: nat, b: nat)
    requires a <= b
    ensures Pow2(a) <= Pow2(b)
    ensures a < b ==> 2 * Pow2(a) <= Pow2(b)
    decreases b
  {
    if a < b { Pow2Grows(a, b - 1); }
  }

  lemma DivPow2(x: nat, a: nat)
    requires a > 0
    ensures x / Pow2(a) == x / 2 / Pow2(a - 1)
    ensures x % Pow2(a) == x % 2 + 2 * (x / 2 % Pow2(a - 1))
  {
    DivDiv(x, 2, Pow2(a - 1));
  }

  lemma RevStep(n: nat, x: nat)
    requires n > 0
    ensures Rev(n, x) == (if x % 2 == 1 then Pow2(n - 1) else 0) + Rev(n - 1, x / 2)
  {
  }

  lemma DistOptional(bit: bool, a: int, b: int, c: int)
    ensures ((if bit then a else 0) + b) * c == (if bit then a * c else 0) + b * c
  {
  }

  /** Reading a + b bits is reading a bits and then b bits. */
  lemma {:induction false} RevSplit(a: nat, b: nat, x: nat)
    ensures Rev(a + b, x) == Rev(a, x) * Pow2(b) + Rev(b, Drop(x, a))
    decreases a
  {
    hide Pow2; hide Rev;
    if a > 0 {
      RevSplit(a - 1, b, x / 2);
      DivPow2(x, a);
      Pow2Add(a - 1, b);
      RevStep(a + b, x);
      RevStep(a, x);
      DistOptional(x % 2 == 1, Pow2(a - 1), Rev(a - 1, x / 2), Pow2(b));
    } else {
      RevZero(b, x);
    }
  }

  lemma RevZero(b: nat, x: nat)
    ensures Rev(0, x) == 0 && x / Pow2(0) == x
  {
  }

  lemma OneBit(x: nat)
    ensures Rev(1, x) == x % 2 && Pow2(1) == 2
  {
    assert Rev(0, x / 2) == 0 && Pow2(0) == 1;
  }

  /** Reading one more bit. */
  lemma RevAppend(k: nat, x: nat)
    ensures Rev(k + 1, x) == 2 * Rev(k, x) + x / Pow2(k) % 2
    ensures Rev(k + 1, x) / 2 == Rev(k, x)
  {
    hide Pow2; hide Rev;
    RevSplit(k, 1, x);
    OneBit(x / Pow2(k));
  }

  /** Only the low n bits matter. */
  lemma {:induction false} RevMod(n: nat, x: nat, y: nat)
    requires x % Pow2(n) == y % Pow2(n)
    ensures Rev(n, x) == Rev(n, y)
    decreases n
  {
    if n > 0 {
      DivDiv(x, 2, Pow2(n - 1));
      DivDiv(y, 2, Pow2(n - 1));
      RevMod(n - 1, x / 2, y / 2);
    }
  }

  lemma {:induction false} RevInjective(n: nat, x: nat, y: nat)
    requires Rev(n, x) == Rev(n, y)
    ensures x % Pow2(n) == y % Pow2(n)
    decreases n
  {
    if n > 0 {
      DivDiv(x, 2, Pow2(n - 1));
      DivDiv(y, 2, Pow2(n - 1));
      RevInjective(n - 1, x / 2, y / 2);
    }
  }

  /** Where the windows that begin with the n low bits of x start, when all windows of g bits are
      sorted by the code they read as. */
  function Start(g: nat, n: nat, x: nat): nat
    requires n <= g
  {
    Rev(n, x) * Pow2(g - n)
  }

  lemma StartBound(g: nat, n: nat, x: nat)
    requires n <= g
    ensures Start(g, n, x) + Pow2(g - n) <= Pow2(g)
  {
    Pow2Add(n, g - n);
    assert Rev(n, x) * Pow2(g - n) + Pow2(g - n) == (Rev(n, x) + 1) * Pow2(g - n);
    MulMono(Rev(n, x) + 1, Pow2(n), Pow2(g - n));
  }

  lemma StartSplit(g: nat, n: nat, m: nat, x: nat)
    requires n <= m <= g
    ensures Start(g, m, x) == Start(g, n, x) + Rev(m - n, Drop(x, n)) * Pow2(g - m)
    ensures Rev(m - n, Drop(x, n)) * Pow2(g - m) + Pow2(g - m) <= Pow2(g - n)
  {
    var low, q := Rev(m - n, Drop(x, n)), Pow2(g - m);
    RevSplit(n, m - n, x);
    Pow2Add(m - n, g - m);
    MulDist(Rev(n, x) * Pow2(m - n), low, q);
    MulAssoc(Rev(n, x), Pow2(m - n), q);
    MulMono(low + 1, Pow2(m - n), q);
    MulDist(low, 1, q);
  }

  /** The windows that begin with the n low bits of y are those within Pow2(g - n) of its start. */
  lemma Inside(g: nat, n: nat, y: nat, m: nat, x: nat)
    requires n <= m <= g
    ensures x % Pow2(n) == y % Pow2(n)
       <==> Start(g, n, y) <= Start(g, m, x) < Start(g, n, y) + Pow2(g - n)
    ensures x % Pow2(n) == y % Pow2(n) ==> Start(g, m, x) + Pow2(g - m) <= Start(g, n, y) + Pow2(g - n)
  {
    hide Pow2; hide Rev;
    StartSplit(g, n, m, x);
    if x % Pow2(n) == y % Pow2(n) { RevMod(n, x, y); }
    if Rev(n, x) == Rev(n, y) { RevInjective(n, x, y); }
    SameSlot(Rev(n, x), Rev(n, y), Pow2(g - n), Rev(m - n, Drop(x, n)) * Pow2(g - m));
  }
}
