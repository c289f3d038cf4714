/** Modes of operation as functions on byte strings: block by block with a running number, chained
    blocks, and the stages of a cascade. */
module CryptoModes {
  import opened Arithmetic

  type Bytes = seq<bv8>

  /** A transformation of a block, or of a data unit, that also depends on its number. */
  type Numbered = (nat, Bytes) -> Bytes

  /** A transformation of a block. */
  type Block = Bytes -> Bytes

  /** a with b added byte by byte. */
  function Xor(a: Bytes, b: Bytes): (r: Bytes)
    ensures |r| == |a|
  {
    seq(|a|, i requires 0 <= i < |a| => if i < |b| then a[i] ^ b[i] else a[i])
  }

  lemma XorTwice(a: Bytes, b: Bytes)
    ensures Xor(Xor(a, b), b) == a
  {
    forall i | 0 <= i < |a| && i < |b| ensures (a[i] ^ b[i]) ^ b[i] == a[i] { XorByte(a[i], b[i]); }
  }

  lemma XorByte(x: bv8, y: bv8)
    ensures (x ^ y) ^ y == x
  {
  }

  // ---- Numbered blocks ----

  /** The blocks of `size` bytes one after another, numbered from `first` on modulo `modulus`. */
  function Blocks(f: Numbered, modulus: nat, size: nat, first: nat, data: Bytes): Bytes
    requires size > 0 && modulus > 0
    decreases |data|
  {
    if |data| < size then []
    else f(first, data[..size]) + Blocks(f, modulus, size, (first + 1) % modulus, data[size..])
  }

  /** Blocks keep their length. */
  ghost predicate Keeps(f: Numbered, size: nat) {
    forall n: nat, x: Bytes :: |x| == size ==> |f(n, x)| == size
  }

  /** g undoes f on blocks of this size. */
  ghost predicate Undoes(g: Numbered, f: Numbered, size: nat) {
    forall n: nat, x: Bytes :: |x| == size ==> |f(n, x)| == size && g(n, f(n, x)) == x
  }

  lemma {:induction false} BlocksLength(f: Numbered, modulus: nat, size: nat, first: nat, data: Bytes)
    requires size > 0 && modulus > 0 && |data| % size == 0 && Keeps(f, size)
    ensures |Blocks(f, modulus, size, first, data)| == |data|
    decreases |data|
  {
    hide Keeps;
    WholeBlocksLeft(|data|, size);
    var next := (first + 1) % modulus;
    if |data| >= size {
      KeepsOne(f, size, first, data[..size]);
      BlocksLength(f, modulus, size, next, data[size..]);
    }
  }

  lemma KeepsOne(f: Numbered, size: nat, n: nat, x: Bytes)
    requires Keeps(f, size) && |x| == size
    ensures |f(n, x)| == size
  {
  }

  lemma WholeBlocksLeft(n: nat, size: nat)
    requires size > 0 && n % size == 0
    ensures n >= size ==> (n - size) % size == 0 && n / size == (n - size) / size + 1
    ensures n < size ==> n == 0
  {
    if n >= size {
      assert n == (n / size) * size;
      assert n - size == (n / size - 1) * size;
      MultipleOf(n / size - 1, size);
    }
  }

  lemma NextNumber(first: nat, n: nat, modulus: nat)
    requires modulus > 0
    ensures ((first + 1) % modulus + n) % modulus == (first + (n + 1)) % modulus
  {
    AddModulo(first + 1, n, modulus);
  }

  lemma BlocksFirst(f: Numbered, modulus: nat, size: nat, first: nat, x: Bytes, rest: Bytes)
    requires size > 0 && modulus > 0 && |x| == size
    ensures Blocks(f, modulus, size, first, x + rest) == f(first, x) + Blocks(f, modulus, size, (first + 1) % modulus, rest)
  {
    assert (x + rest)[..size] == x && (x + rest)[size..] == rest;
  }

  lemma BlocksSplitStep(f: Numbered, modulus: nat, size: nat, first: nat, next: nat, last: nat, x: Bytes, rest: Bytes, b: Bytes)
    requires size > 0 && modulus > 0 && |x| == size && next == (first + 1) % modulus
    requires Blocks(f, modulus, size, next, rest + b) == Blocks(f, modulus, size, next, rest) + Blocks(f, modulus, size, last, b)
    ensures Blocks(f, modulus, size, first, x + rest + b) == Blocks(f, modulus, size, first, x + rest) + Blocks(f, modulus, size, last, b)
  {
    hide Blocks;
    assert x + rest + b == x + (rest + b);
    BlocksFirst(f, modulus, size, first, x, rest);
    BlocksFirst(f, modulus, size, first, x, rest + b);
  }

  lemma {:induction false} BlocksSplitAfter(f: Numbered, modulus: nat, size: nat, first: nat, count: nat, a: Bytes, b: Bytes)
    requires size > 0 && modulus > 0 && |a| == count * size && first < modulus
    ensures Blocks(f, modulus, size, first, a + b)
         == Blocks(f, modulus, size, first, a) + Blocks(f, modulus, size, (first + count) % modulus, b)
    decreases count
  {
    if count == 0 {
      assert a == [] && a + b == b;
      DivModUnique(0, first, modulus);
    } else {
      hide Blocks;
      MulDist(count - 1, 1, size);
      MulMono(0, count - 1, size);
      var x, rest := a[..size], a[size..];
      var next := (first + 1) % modulus;
      BlocksSplitAfter(f, modulus, size, next, count - 1, rest, b);
      NextNumber(first, count - 1, modulus);
      BlocksSplitStep(f, modulus, size, first, next, (first + count) % modulus, x, rest, b);
      assert a == x + rest;
    }
  }

  /** Numbers run on over a split at a block boundary. */
  lemma BlocksSplit(f: Numbered, modulus: nat, size: nat, first: nat, a: Bytes, b: Bytes)
    requires size > 0 && modulus > 0 && |a| % size == 0 && first < modulus
    ensures Blocks(f, modulus, size, first, a + b)
         == Blocks(f, modulus, size, first, a) + Blocks(f, modulus, size, (first + |a| / size) % modulus, b)
  {
    hide Blocks;
    DivMod(|a|, size);
    BlocksSplitAfter(f, modulus, size, first, |a| / size, a, b);
  }

  /** Undoing block by block undoes the whole. */
  lemma {:induction false} BlocksUndone(g: Numbered, f: Numbered, modulus: nat, size: nat, first: nat, data: Bytes)
    requires size > 0 && modulus > 0 && |data| % size == 0 && Undoes(g, f, size)
    ensures Blocks(g, modulus, size, first, Blocks(f, modulus, size, first, data)) == data
    decreases |data|
  {
    WholeBlocksLeft(|data|, size);
    if data != [] {
      var x, rest := data[..size], data[size..];
      var next := (first + 1) % modulus;
      BlocksUndone(g, f, modulus, size, next, rest);
      var head, tail := f(first, x), Blocks(f, modulus, size, next, rest);
      assert |x| == size && |head| == size && g(first, head) == x;
      assert (head + tail)[..size] == head && (head + tail)[size..] == tail;
    }
  }

  // ---- Cipher block chaining ----

  /** CBC with the ciphertext whitened after it has been chained. */
  function CbcEncrypt(e: Block, size: nat, chain: Bytes, white: Bytes, data: Bytes): Bytes
    requires size > 0
    decreases |data|
  {
    if |data| < size then []
    else
      var c := e(Xor(data[..size], chain));
      Xor(c, white) + CbcEncrypt(e, size, c, white, data[size..])
  }

  function CbcDecrypt(d: Block, size: nat, chain: Bytes, white: Bytes, data: Bytes): Bytes
    requires size > 0
    decreases |data|
  {
    if |data| < size then []
    else
      var c := Xor(data[..size], white);
      Xor(d(c), chain) + CbcDecrypt(d, size, c, white, data[size..])
  }

  ghost predicate UndoesBlock(d: Block, e: Block, size: nat) {
    forall x: Bytes :: |x| == size ==> |e(x)| == size && d(e(x)) == x
  }

  lemma CbcDecryptFirst(d: Block, size: nat, chain: Bytes, white: Bytes, head: Bytes, tail: Bytes)
    requires size > 0 && |head| == size
    ensures var c := Xor(head, white);
            CbcDecrypt(d, size, chain, white, head + tail) == Xor(d(c), chain) + CbcDecrypt(d, size, c, white, tail)
  {
    hide Xor;
    assert (head + tail)[..size] == head && (head + tail)[size..] == tail;
  }

  lemma CbcEncryptFirst(e: Block, size: nat, chain: Bytes, white: Bytes, head: Bytes, tail: Bytes)
    requires size > 0 && |head| == size
    ensures var c := e(Xor(head, chain));
            CbcEncrypt(e, size, chain, white, head + tail) == Xor(c, white) + CbcEncrypt(e, size, c, white, tail)
  {
    hide Xor;
    assert (head + tail)[..size] == head && (head + tail)[size..] == tail;
  }

  lemma OneBlockUndone(d: Block, e: Block, size: nat, x: Bytes)
    requires UndoesBlock(d, e, size) && |x| == size
    ensures |e(x)| == size && d(e(x)) == x
  {
  }

  lemma {:induction false} CbcUndone(d: Block, e: Block, size: nat, chain: Bytes, white: Bytes, data: Bytes)
    requires size > 0 && |data| % size == 0 && UndoesBlock(d, e, size)
    ensures |CbcEncrypt(e, size, chain, white, data)| == |data|
    ensures CbcDecrypt(d, size, chain, white, CbcEncrypt(e, size, chain, white, data)) == data
    decreases |data|
  {
    hide Xor; hide CbcDecrypt; hide UndoesBlock;
    WholeBlocksLeft(|data|, size);
    if |data| >= size {
      hide CbcEncrypt;
      var x, rest := data[..size], data[size..];
      var mixed := Xor(x, chain);
      var c := e(mixed);
      assert data == x + rest;
      OneBlockUndone(d, e, size, mixed);
      CbcUndone(d, e, size, c, white, rest);
      CbcEncryptFirst(e, size, chain, white, x, rest);
      CbcDecryptFirst(d, size, chain, white, Xor(c, white), CbcEncrypt(e, size, c, white, rest));
      XorTwice(c, white);
      XorTwice(x, chain);
    } else {
      CbcNothing(d, size, chain, white);
    }
  }

  lemma CbcNothing(d: Block, size: nat, chain: Bytes, white: Bytes)
    requires size > 0
    ensures CbcDecrypt(d, size, chain, white, []) == []
  {
  }

  // ---- Stages of a cascade ----

  /** The first n stages, the first of them first. */
  function Forward(f: Numbered, n: nat, x: Bytes): Bytes {
    if n == 0 then x else f(n - 1, Forward(f, n - 1, x))
  }

  /** The first n stages, the last of them first. */
  function Backward(g: Numbered, n: nat, x: Bytes): Bytes {
    if n == 0 then x else Backward(g, n - 1, g(n - 1, x))
  }

  /** Each of n stages can be undone on strings of this length. */
  ghost predicate StagesUndone(g: Numbered, f: Numbered, n: nat, length: nat) {
    forall j: nat, x: Bytes :: j < n && |x| == length ==> |f(j, x)| == length && g(j, f(j, x)) == x
  }

  lemma {:induction false} CascadeUndone(g: Numbered, f: Numbered, n: nat, length: nat, x: Bytes)
    requires StagesUndone(g, f, n, length) && |x| == length
    ensures |Forward(f, n, x)| == length
    ensures Backward(g, n, Forward(f, n, x)) == x
  {
    if n > 0 {
      CascadeUndone(g, f, n - 1, length, x);
    }
  }
}
