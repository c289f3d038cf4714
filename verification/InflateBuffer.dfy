/** The bit buffer: its bits are the next ones of the stream. */
module InflateBuffer {
  import opened Arithmetic
  import opened InflateBits
  import opened InflateFormat

  lemma {:induction false} ByteOfValue(bytes: seq<Byte>, i: nat)
    requires i < |bytes|
    ensures Low(Drop(Value(bytes), 8 * i), 8) == bytes[i]
  {
    assert Pow2(8) == 256 by { assert Pow2(4) == 16; Pow2Add(4, 4); }
    var rest := Value(bytes[1..]);
    if i == 0 {
      assert Pow2(0) == 1;
    } else {
      ByteOfValue(bytes[1..], i - 1);
      hide Pow2;
      Pow2Add(8, 8 * (i - 1));
      DivDiv(Value(bytes), 256, Pow2(8 * (i - 1)));
      assert Value(bytes) / 256 == rest;
    }
  }

  /** One more byte in the buffer. */
  lemma AddByte(x: nat, k: nat, c: nat)
    requires c == Low(Drop(x, k), 8)
    ensures Low(x, k + 8) == Low(x, k) + c * Pow2(k)
  {
    hide Pow2;
    Pow2Add(k, 8);
    DivDiv(x, Pow2(k), Pow2(8));
  }

  /** n bits of the buffer dumped. */
  lemma DumpLow(x: nat, k: nat, n: nat)
    requires n <= k
    ensures Drop(Low(x, k), n) == Low(Drop(x, n), k - n)
  {
    hide Pow2;
    Pow2Add(n, k - n);
    DivDiv(x, Pow2(n), Pow2(k - n));
    var a, b := x / Pow2(n) % Pow2(k - n), x % Pow2(n);
    DivModUnique(a, b, Pow2(n));
  }

  lemma DropDrop(x: nat, a: nat, b: nat)
    ensures Drop(Drop(x, a), b) == Drop(x, a + b)
  {
    hide Pow2;
    Pow2Add(a, b);
    DivDiv(x, Pow2(a), Pow2(b));
  }

  lemma PeekLow(x: nat, k: nat, n: nat)
    requires n <= k
    ensures Low(Low(x, k), n) == Low(x, n)
  {
    hide Pow2;
    Pow2Add(n, k - n);
    DivDiv(x, Pow2(n), Pow2(k - n));
    var a, b := x / Pow2(n) % Pow2(k - n), x % Pow2(n);
    DivModUnique(a, b, Pow2(n));
  }
}
