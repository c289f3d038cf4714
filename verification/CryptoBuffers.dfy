/** The functions of Common/Crypto.c and Common/Xts.c that work on a buffer in place.  A pointer into
    the buffer is an index, a pointer into key schedules an offset. */
module CryptoBuffers {
  import opened Arithmetic
  import opened CryptoModes
  import opened CryptoSpec
  import opened CryptoNumbers
  import opened CryptoLaws
  import Crc

  // ---- Lists of ciphers ----

  method EAGetFirstCipher(ea: nat) returns (c: nat)
    requires IsAlgorithm(ea)
    ensures c == CipherAt(ea, 0)
  {
    c := Algorithm(ea).ciphers[0];
  }

  /** The lists end with the only zero, and name each cipher once. */
  lemma ListShape(ea: nat)
    requires IsAlgorithm(ea)
    ensures var l := Algorithm(ea).ciphers;
            && |l| >= 2 && l[|l| - 1] == 0
            && (forall i :: 0 <= i < |l| - 1 ==> l[i] != 0)
            && (forall i, j :: 0 <= i < j < |l| ==> l[i] != l[j])
  {
  }

  method EAGetCipherCount(ea: nat) returns (count: nat)
    requires IsAlgorithm(ea)
    ensures count == CipherCount(ea)
  {
    hide Algorithm;
    ListShape(ea);
    var i := 0;
    while Algorithm(ea).ciphers[i] != 0
      invariant 0 <= i < |Algorithm(ea).ciphers|
      decreases |Algorithm(ea).ciphers| - i
    {
      i := i + 1;
    }
    count := i;
  }

  method EAGetLastCipher(ea: nat) returns (c: nat)
    requires IsAlgorithm(ea)
    ensures c == CipherAt(ea, CipherCount(ea) - 1)
  {
    hide Algorithm;
    ListShape(ea);
    var i := 0;
    while Algorithm(ea).ciphers[i] != 0
      invariant 0 <= i < |Algorithm(ea).ciphers|
      decreases |Algorithm(ea).ciphers| - i
    {
      i := i + 1;
    }
    c := Algorithm(ea).ciphers[i - 1];
  }

  /** The cipher after a given one, zero after the last. */
  method EAGetNextCipher(ea: nat, previous: nat) returns (next: nat)
    requires IsAlgorithm(ea)
    ensures forall j: nat :: j < CipherCount(ea) && CipherAt(ea, j) == previous ==> next == CipherAt(ea, j + 1)
  {
    hide Algorithm;
    ListShape(ea);
    var l, i := Algorithm(ea).ciphers, 0;
    while l[i] != 0
      invariant 0 <= i < |l|
      invariant forall j :: 0 <= j < i ==> l[j] != previous
      decreases |l| - i
    {
      i := i + 1;
      if l[i - 1] == previous { return l[i]; }
    }
    next := 0;
  }

  /** The cipher before a given one, zero before the first. */
  method EAGetPreviousCipher(ea: nat, previous: nat) returns (next: nat)
    requires IsAlgorithm(ea)
    ensures forall j: nat :: j < CipherCount(ea) && CipherAt(ea, j) == previous ==> next == if j == 0 then 0 else CipherAt(ea, j - 1)
  {
    hide Algorithm;
    ListShape(ea);
    var l, i := Algorithm(ea).ciphers, 1;
    if l[0] == previous { return 0; }
    while l[i] != 0
      invariant 1 <= i < |l|
      invariant forall j :: 0 <= j < i ==> l[j] != previous
      decreases |l| - i
    {
      i := i + 1;
      if l[i - 1] == previous { return l[i - 2]; }
    }
    next := 0;
  }

  method EAGetKeyScheduleSize(ciphers: Ciphers, ea: nat) returns (size: nat)
    requires IsAlgorithm(ea)
    ensures size == KsOffset(ciphers, ea, CipherCount(ea))
  {
    hide Algorithm;
    ListShape(ea);
    var i := EAGetFirstCipher(ea);
    size := ciphers.scheduleSize(i);
    ghost var j := 0;
    FirstOffset(ciphers, ea);
    i := EAGetNextCipher(ea, i);
    while i != 0
      invariant j < CipherCount(ea) && i == CipherAt(ea, j + 1) && size == KsOffset(ciphers, ea, j + 1)
      decreases CipherCount(ea) - j
    {
      size := size + ciphers.scheduleSize(i);
      i := EAGetNextCipher(ea, i);
      j := j + 1;
    }
  }

  lemma FirstOffset(ciphers: Ciphers, ea: nat)
    ensures KsOffset(ciphers, ea, 1) == ciphers.scheduleSize(CipherAt(ea, 0))
  {
    assert KsOffset(ciphers, ea, 0) == 0;
  }

  // ---- One block ----

  /** The buffer with some bytes replaced. */
  function Replace(s: Bytes, p: nat, x: Bytes): Bytes
    requires p + |x| <= |s|
  {
    s[..p] + x + s[p + |x|..]
  }

  lemma ReplaceTwice(s: Bytes, p: nat, x: Bytes, y: Bytes)
    requires p + |x| <= |s| && |y| == |x|
    ensures |Replace(s, p, x)| == |s|
    ensures Replace(s, p, x)[p..p + |x|] == x
    ensures Replace(Replace(s, p, x), p, y) == Replace(s, p, y)
  {
  }

  lemma ReplaceSame(s: Bytes, p: nat, n: nat)
    requires p + n <= |s|
    ensures Replace(s, p, s[p..p + n]) == s
  {
  }

  method Store(buf: array<bv8>, p: nat, x: Bytes)
    requires p + |x| <= buf.Length
    modifies buf
    ensures buf[..] == Replace(old(buf[..]), p, x)
  {
    forall i | 0 <= i < |x| {
      buf[p + i] := x[i];
    }
  }

  method EncipherBlock(ciphers: Ciphers, cipher: nat, buf: array<bv8>, p: nat, ks: Bytes, offset: nat)
    requires LengthPreserving(ciphers) && p + BlockSize(cipher) <= buf.Length
    modifies buf
    ensures var x := old(buf[p..p + BlockSize(cipher)]);
            && |ciphers.encipher(cipher, ScheduleAt(ciphers, ks, offset, cipher), x)| == BlockSize(cipher)
            && buf[..] == Replace(old(buf[..]), p, ciphers.encipher(cipher, ScheduleAt(ciphers, ks, offset, cipher), x))
  {
    Store(buf, p, ciphers.encipher(cipher, ScheduleAt(ciphers, ks, offset, cipher), buf[p..p + BlockSize(cipher)]));
  }

  method DecipherBlock(ciphers: Ciphers, cipher: nat, buf: array<bv8>, p: nat, ks: Bytes, offset: nat)
    requires LengthPreserving(ciphers) && p + BlockSize(cipher) <= buf.Length
    modifies buf
    ensures var x := old(buf[p..p + BlockSize(cipher)]);
            && |ciphers.decipher(cipher, ScheduleAt(ciphers, ks, offset, cipher), x)| == BlockSize(cipher)
            && buf[..] == Replace(old(buf[..]), p, ciphers.decipher(cipher, ScheduleAt(ciphers, ks, offset, cipher), x))
  {
    Store(buf, p, ciphers.decipher(cipher, ScheduleAt(ciphers, ks, offset, cipher), buf[p..p + BlockSize(cipher)]));
  }

  /** Adds t to the n bytes at p. */
  method XorInto(buf: array<bv8>, p: nat, n: nat, t: Bytes)
    requires p + n <= buf.Length
    modifies buf
    ensures buf[..] == Replace(old(buf[..]), p, Xor(old(buf[p..p + n]), t))
  {
    forall i | 0 <= i < n {
      buf[p + i] := if i < |t| then buf[p + i] ^ t[i] else buf[p + i];
    }
    assert buf[..] == Replace(old(buf[..]), p, Xor(old(buf[p..p + n]), t));
  }

  /** All ciphers of a cascade over one block, with key schedules one after another. */
  method EncipherCascade(ciphers: Ciphers, ci: CryptoInfo, buf: array<bv8>, p: nat)
    requires LengthPreserving(ciphers) && ValidInfo(ciphers, ci) && ci.mode != INNER_CBC && p + FirstSize(ci) <= buf.Length
    modifies buf
    ensures var x := old(buf[p..p + FirstSize(ci)]);
            |EncipherAll(ciphers, ci)(x)| == |x| && buf[..] == Replace(old(buf[..]), p, EncipherAll(ciphers, ci)(x))
  {
    hide Algorithm; hide LengthPreserving; hide Replace; hide Schedule; hide ScheduleAt; hide EncipherStage;
    ghost var before, x, f := buf[..], buf[p..p + FirstSize(ci)], EncipherStage(ciphers, ci);
    ListShape(ci.ea);
    ReplaceSame(before, p, |x|);
    var ks := 0;
    var cipher := EAGetFirstCipher(ci.ea);
    ghost var j := 0;
    while cipher != 0
      invariant 0 <= j <= CipherCount(ci.ea) && cipher == CipherAt(ci.ea, j) && ks == KsOffset(ciphers, ci.ea, j)
      invariant |Forward(f, j, x)| == |x| && buf[..] == Replace(before, p, Forward(f, j, x))
      decreases CipherCount(ci.ea) - j
    {
      SameSizes(ci, j);
      ReplaceTwice(before, p, Forward(f, j, x), Forward(f, j, x));
      EncipherBlock(ciphers, cipher, buf, p, ci.ks, ks);
      StageIs(ciphers, ci, j, Forward(f, j, x));
      ReplaceTwice(before, p, Forward(f, j, x), Forward(f, j + 1, x));
      ks := ks + ciphers.scheduleSize(cipher);
      cipher := EAGetNextCipher(ci.ea, cipher);
      j := j + 1;
    }
  }

  lemma StageIs(ciphers: Ciphers, ci: CryptoInfo, j: nat, x: Bytes)
    ensures EncipherStage(ciphers, ci)(j, x)
         == ciphers.encipher(CipherAt(ci.ea, j), ScheduleAt(ciphers, ci.ks, KsOffset(ciphers, ci.ea, j), CipherAt(ci.ea, j)), x)
    ensures DecipherStage(ciphers, ci)(j, x)
         == ciphers.decipher(CipherAt(ci.ea, j), ScheduleAt(ciphers, ci.ks, KsOffset(ciphers, ci.ea, j), CipherAt(ci.ea, j)), x)
  {
    hide Algorithm;
    var c, k := CipherAt(ci.ea, j), Schedule(ciphers, ci.ea, ci.ks, j);
    assert EncipherStage(ciphers, ci)(j, x) == ciphers.encipher(c, k, x);
    assert DecipherStage(ciphers, ci)(j, x) == ciphers.decipher(c, k, x);
  }

  /** All ciphers of a cascade over one block in the opposite order, with key schedules from the end on. */
  method DecipherCascade(ciphers: Ciphers, ci: CryptoInfo, buf: array<bv8>, p: nat)
    requires LengthPreserving(ciphers) && ValidInfo(ciphers, ci) && ci.mode != INNER_CBC && p + FirstSize(ci) <= buf.Length
    modifies buf
    ensures var x := old(buf[p..p + FirstSize(ci)]);
            |DecipherAll(ciphers, ci)(x)| == |x| && buf[..] == Replace(old(buf[..]), p, DecipherAll(ciphers, ci)(x))
  {
    hide Algorithm; hide LengthPreserving; hide Replace; hide Schedule; hide ScheduleAt; hide DecipherStage;
    ghost var before, x, g := buf[..], buf[p..p + FirstSize(ci)], DecipherStage(ciphers, ci);
    ghost var y := x;
    ListShape(ci.ea);
    ReplaceSame(before, p, |x|);
    var ks := EAGetKeyScheduleSize(ciphers, ci.ea);
    var cipher := EAGetLastCipher(ci.ea);
    ghost var j := CipherCount(ci.ea);
    while cipher != 0
      invariant 0 <= j <= CipherCount(ci.ea) && cipher == (if j == 0 then 0 else CipherAt(ci.ea, j - 1)) && ks == KsOffset(ciphers, ci.ea, j)
      invariant |y| == |x| && buf[..] == Replace(before, p, y)
      invariant Backward(g, CipherCount(ci.ea), x) == Backward(g, j, y)
      decreases j
    {
      SameSizes(ci, j - 1);
      ReplaceTwice(before, p, y, y);
      ks := ks - ciphers.scheduleSize(cipher);
      DecipherBlock(ciphers, cipher, buf, p, ci.ks, ks);
      StageIs(ciphers, ci, j - 1, y);
      ReplaceTwice(before, p, y, g(j - 1, y));
      y := g(j - 1, y);
      cipher := EAGetPreviousCipher(ci.ea, cipher);
      j := j - 1;
    }
  }

  // ---- Piece by piece in place ----

  /** The first k bytes of `data`, which lies at `at`, have been transformed; `rest` is what the
      others are going to become, `total` what all of them are. */
  ghost predicate Partly(before: Bytes, at: nat, data: Bytes, now: Bytes, k: nat, rest: Bytes, total: Bytes)
    requires at + |data| <= |before| && k <= |data|
  {
    && |now| == |before|
    && now[..at] == before[..at] && now[at + k..] == before[at + k..]
    && data == before[at..at + |data|]
    && now[at..at + k] + rest == total
  }

  lemma PartlyStart(before: Bytes, at: nat, data: Bytes, total: Bytes)
    requires at + |data| <= |before| && data == before[at..at + |data|]
    ensures Partly(before, at, data, before, 0, total, total)
  {
    assert before[at..at] == [];
  }

  /** What is next in the buffer is still as it was. */
  lemma PartlyUntouched(before: Bytes, at: nat, data: Bytes, now: Bytes, k: nat, size: nat, rest: Bytes, total: Bytes)
    requires at + |data| <= |before| && k + size <= |data| && Partly(before, at, data, now, k, rest, total)
    ensures |now| == |before| && now[at + k..at + k + size] == data[k..k + size]
  {
    assert now == now[..at + k] + before[at + k..];
    assert before == before[..at + k] + before[at + k..];
    var later := before[at + k..];
    assert now[at + k..at + k + size] == later[..size] && before[at + k..at + k + size] == later[..size];
    SliceOfSlice(before, at, |data|, k, size);
  }

  lemma SliceOfSlice(s: Bytes, a: nat, n: nat, k: nat, m: nat)
    requires a + n <= |s| && k + m <= n
    ensures s[a..a + n][k..k + m] == s[a + k..a + k + m]
  {
    var x, y := s[a..a + n][k..k + m], s[a + k..a + k + m];
    assert |x| == |y|;
    forall i | 0 <= i < |x| ensures x[i] == y[i] { assert x[i] == s[a..a + n][k + i]; }
  }

  lemma PartlyNext(before: Bytes, at: nat, data: Bytes, now: Bytes, k: nat, y: Bytes, rest: Bytes, total: Bytes)
    requires at + |data| <= |before| && k + |y| <= |data| && Partly(before, at, data, now, k, y + rest, total)
    ensures Partly(before, at, data, Replace(now, at + k, y), k + |y|, rest, total)
  {
    var next := Replace(now, at + k, y);
    assert next[at..at + k + |y|] == now[at..at + k] + y;
    assert next[at + k + |y|..] == now[at + k..][|y|..];
    assert before[at + k..][|y|..] == before[at + k + |y|..];
    assert now[at..at + k] + (y + rest) == (now[at..at + k] + y) + rest;
  }

  lemma PartlyEnd(before: Bytes, at: nat, data: Bytes, now: Bytes, total: Bytes)
    requires at + |data| <= |before| && Partly(before, at, data, now, |data|, [], total)
    ensures |total| == |data| && now == Replace(before, at, total)
  {
    assert total == now[at..at + |data|];
    assert now == now[..at] + now[at..at + |data|] + now[at + |data|..];
  }

  /** Block number n is the next one to be transformed in place. */
  ghost predicate InPlace(f: Numbered, modulus: nat, size: nat, first: nat, before: Bytes, at: nat, data: Bytes, now: Bytes, k: nat, n: nat)
    requires size > 0 && modulus > 0 && at + |data| <= |before| && k <= |data|
  {
    Partly(before, at, data, now, k, Blocks(f, modulus, size, n, data[k..]), Blocks(f, modulus, size, first, data))
  }

  lemma InPlaceStart(f: Numbered, modulus: nat, size: nat, first: nat, before: Bytes, at: nat, data: Bytes)
    requires size > 0 && modulus > 0 && at + |data| <= |before| && data == before[at..at + |data|]
    ensures InPlace(f, modulus, size, first, before, at, data, before, 0, first)
  {
    hide Blocks;
    assert data[0..] == data;
    PartlyStart(before, at, data, Blocks(f, modulus, size, first, data));
  }

  lemma InPlaceNext(f: Numbered, modulus: nat, size: nat, first: nat, before: Bytes, at: nat, data: Bytes, now: Bytes, k: nat, n: nat)
    requires size > 0 && modulus > 0 && at + |data| <= |before| && k + size <= |data|
    requires InPlace(f, modulus, size, first, before, at, data, now, k, n)
    ensures |now| == |before| && now[at + k..at + k + size] == data[k..k + size]
    ensures var y := f(n, data[k..k + size]);
            |y| == size ==>
              InPlace(f, modulus, size, first, before, at, data, Replace(now, at + k, y), k + size, (n + 1) % modulus)
  {
    hide Partly; hide Replace;
    var total := Blocks(f, modulus, size, first, data);
    var y, rest := f(n, data[k..k + size]), Blocks(f, modulus, size, (n + 1) % modulus, data[k + size..]);
    assert data[k..][..size] == data[k..k + size] && data[k..][size..] == data[k + size..];
    PartlyUntouched(before, at, data, now, k, size, Blocks(f, modulus, size, n, data[k..]), total);
    if |y| == size { PartlyNext(before, at, data, now, k, y, rest, total); }
  }

  lemma InPlaceEnd(f: Numbered, modulus: nat, size: nat, first: nat, before: Bytes, at: nat, data: Bytes, now: Bytes, n: nat)
    requires size > 0 && modulus > 0 && at + |data| <= |before|
    requires InPlace(f, modulus, size, first, before, at, data, now, |data|, n)
    ensures var y := Blocks(f, modulus, size, first, data);
            |y| == |data| && now == Replace(before, at, y)
  {
    assert data[|data|..] == [];
    PartlyEnd(before, at, data, now, Blocks(f, modulus, size, first, data));
  }

  // ---- LRW ----

  function BigEndianValue(bytes: seq<nat>): nat {
    if bytes == [] then 0 else BigEndianValue(bytes[..|bytes| - 1]) * 256 + bytes[|bytes| - 1]
  }

  lemma {:induction false} BigEndianRoundTrip(n: nat, count: nat, limit: nat)
    requires limit == Power256(count) && n < limit
    ensures |BigEndian(n, count)| == count && BigEndianValue(BigEndian(n, count)) == n
    decreases count
  {
    if count > 0 {
      assert n / 256 < Power256(count - 1);
      BigEndianRoundTrip(n / 256, count - 1, Power256(count - 1));
      var b := BigEndian(n / 256, count - 1);
      assert (b + [n % 256])[..count - 1] == b;
    }
  }

  lemma EightBytes()
    ensures Power256(8) == TWO_TO_THE_64
  {
    assert Power256(4) == 0x1_0000_0000;
  }

  /** The next index: usually only its last byte changes. */
  method NextIndex(i: seq<nat>, ghost n: nat) returns (i': seq<nat>)
    requires n < TWO_TO_THE_64 && i == BigEndian(n, 8)
    ensures i' == BigEndian((n + 1) % TWO_TO_THE_64, 8)
  {
    hide BigEndian; hide BigEndianValue; hide Power256;
    EightBytes();
    BigEndianRoundTrip(n, 8, TWO_TO_THE_64);
    NoCarry(n);
    if i[7] != 0xff {
      i' := i[7 := i[7] + 1];
    } else {
      i' := BigEndian((BigEndianValue(i) + 1) % TWO_TO_THE_64, 8);
    }
  }

  lemma NoCarry(n: nat)
    requires n < TWO_TO_THE_64
    ensures |BigEndian(n, 8)| == 8 && BigEndian(n, 8)[7] == n % 256
    ensures n % 256 != 255 ==> n + 1 < TWO_TO_THE_64 && BigEndian(n + 1, 8) == BigEndian(n, 8)[7 := n % 256 + 1]
  {
    EightBytes();
    BigEndianRoundTrip(n, 8, TWO_TO_THE_64);
    var b := BigEndian(n / 256, 7);
    assert BigEndian(n, 8) == b + [n % 256];
    if n % 256 != 255 {
      assert (n + 1) / 256 == n / 256 && (n + 1) % 256 == n % 256 + 1;
      assert BigEndian(n + 1, 8) == b + [n % 256 + 1];
    }
  }

  lemma LrwBlockIs(ciphers: Ciphers, ci: CryptoInfo, size: nat, n: nat, x: Bytes)
    ensures var t := LrwTweak(ci, size, n);
            && LrwEncrypt(ciphers, ci, size)(n, x) == Xor(EncipherAll(ciphers, ci)(Xor(x, t)), t)
            && LrwDecrypt(ciphers, ci, size)(n, x) == Xor(DecipherAll(ciphers, ci)(Xor(x, t)), t)
  {
    hide Xor; hide EncipherAll; hide DecipherAll; hide LrwTweak;
  }

  lemma SingleCipher(ciphers: Ciphers, ci: CryptoInfo, x: Bytes)
    requires CipherCount(ci.ea) == 1
    ensures EncipherAll(ciphers, ci)(x) == ciphers.encipher(CipherAt(ci.ea, 0), ScheduleAt(ciphers, ci.ks, 0, CipherAt(ci.ea, 0)), x)
    ensures DecipherAll(ciphers, ci)(x) == ciphers.decipher(CipherAt(ci.ea, 0), ScheduleAt(ciphers, ci.ks, 0, CipherAt(ci.ea, 0)), x)
  {
    hide Algorithm; hide ScheduleAt;
    StageIs(ciphers, ci, 0, x);
    var f, g := EncipherStage(ciphers, ci), DecipherStage(ciphers, ci);
    assert Forward(f, 0, x) == x && Forward(f, 1, x) == f(0, x);
    assert Backward(g, 1, x) == Backward(g, 0, g(0, x)) == g(0, x);
    assert KsOffset(ciphers, ci.ea, 0) == 0;
  }

  /** One block of EncryptBufferLRW128 or EncryptBufferLRW64. */
  method EncryptLrwBlock(ciphers: Ciphers, ci: CryptoInfo, size: nat, buf: array<bv8>, p: nat, i: seq<nat>, ghost n: nat)
    requires LengthPreserving(ciphers) && ValidInfo(ciphers, ci) && ci.mode == LRW && size == FirstSize(ci) && p + size <= buf.Length
    requires i == BigEndian(n, 8)
    modifies buf
    ensures var y := LrwEncrypt(ciphers, ci, size)(n, old(buf[p..p + size]));
            |y| == size && buf[..] == Replace(old(buf[..]), p, y)
  {
    hide Algorithm; hide LengthPreserving; hide Replace; hide EncipherAll; hide Xor; hide BigEndian; hide KsOffset; hide ScheduleAt;
    ghost var before, x := buf[..], buf[p..p + size];
    var t := if size == 8 then ci.tweak64(i) else ci.tweak128(i);
    XorInto(buf, p, size, t);
    ReplaceTwice(before, p, Xor(x, t), Xor(x, t));
    var cipherCount := EAGetCipherCount(ci.ea);
    if cipherCount > 1 {
      EncipherCascade(ciphers, ci, buf, p);
    } else {
      var cipher := EAGetFirstCipher(ci.ea);
      FirstCipher(ci);
      SingleCipher(ciphers, ci, Xor(x, t));
      EncipherBlock(ciphers, cipher, buf, p, ci.ks, 0);
    }
    ghost var y := EncipherAll(ciphers, ci)(Xor(x, t));
    LrwBlockIs(ciphers, ci, size, n, x);
    ReplaceTwice(before, p, Xor(x, t), y);
    ReplaceTwice(before, p, y, Xor(y, t));
    XorInto(buf, p, size, t);
  }

  /** EncryptBufferLRW128 and EncryptBufferLRW64, which differ in the block size.  The length is one of whole
      blocks; otherwise the program stops. */
  method EncryptBufferLRW(ciphers: Ciphers, ci: CryptoInfo, size: nat, buf: array<bv8>, at: nat, length: nat, blockIndex: nat)
    requires LengthPreserving(ciphers) && ValidInfo(ciphers, ci) && ci.mode == LRW && size == FirstSize(ci)
    requires at + length <= buf.Length && length % size == 0 && blockIndex < TWO_TO_THE_64
    modifies buf
    ensures var y := Blocks(LrwEncrypt(ciphers, ci, size), TWO_TO_THE_64, size, blockIndex, old(buf[at..at + length]));
            |y| == length && buf[..] == Replace(old(buf[..]), at, y)
  {
    hide Algorithm; hide LengthPreserving; hide ValidInfo; hide LrwEncrypt; hide Replace; hide BigEndian; hide Blocks; hide InPlace;
    ghost var before, data, f, n: nat := buf[..], buf[at..at + length], LrwEncrypt(ciphers, ci, size), blockIndex;
    var i := BigEndian(blockIndex, 8);
    var p: nat, left: nat := at, length;
    InPlaceStart(f, TWO_TO_THE_64, size, n, before, at, data);
    while left > 0
      invariant p + left == at + length && left % size == 0 && n < TWO_TO_THE_64 && i == BigEndian(n, 8)
      invariant |data| == length && InPlace(f, TWO_TO_THE_64, size, blockIndex, before, at, data, buf[..], p - at, n)
    {
      WholeBlocksLeft(left, size);
      ghost var now := buf[..];
      InPlaceNext(f, TWO_TO_THE_64, size, blockIndex, before, at, data, now, p - at, n);
      EncryptLrwBlock(ciphers, ci, size, buf, p, i, n);
      i := NextIndex(i, n);
      n := (n + 1) % TWO_TO_THE_64;
      p, left := p + size, left - size;
    }
    InPlaceEnd(f, TWO_TO_THE_64, size, blockIndex, before, at, data, buf[..], n);
  }

  /** One block of DecryptBufferLRW128 or DecryptBufferLRW64. */
  method DecryptLrwBlock(ciphers: Ciphers, ci: CryptoInfo, size: nat, buf: array<bv8>, p: nat, i: seq<nat>, ghost n: nat)
    requires LengthPreserving(ciphers) && ValidInfo(ciphers, ci) && ci.mode == LRW && size == FirstSize(ci) && p + size <= buf.Length
    requires i == BigEndian(n, 8)
    modifies buf
    ensures var y := LrwDecrypt(ciphers, ci, size)(n, old(buf[p..p + size]));
            |y| == size && buf[..] == Replace(old(buf[..]), p, y)
  {
    hide Algorithm; hide LengthPreserving; hide Replace; hide DecipherAll; hide Xor; hide BigEndian; hide KsOffset; hide ScheduleAt;
    ghost var before, x := buf[..], buf[p..p + size];
    var t := if size == 8 then ci.tweak64(i) else ci.tweak128(i);
    XorInto(buf, p, size, t);
    ReplaceTwice(before, p, Xor(x, t), Xor(x, t));
    var cipherCount := EAGetCipherCount(ci.ea);
    if cipherCount > 1 {
      DecipherCascade(ciphers, ci, buf, p);
    } else {
      var cipher := EAGetFirstCipher(ci.ea);
      FirstCipher(ci);
      SingleCipher(ciphers, ci, Xor(x, t));
      DecipherBlock(ciphers, cipher, buf, p, ci.ks, 0);
    }
    ghost var y := DecipherAll(ciphers, ci)(Xor(x, t));
    LrwBlockIs(ciphers, ci, size, n, x);
    ReplaceTwice(before, p, Xor(x, t), y);
    ReplaceTwice(before, p, y, Xor(y, t));
    XorInto(buf, p, size, t);
  }

  /** DecryptBufferLRW128 and DecryptBufferLRW64, which differ in the block size.  The length is one of whole
      blocks; otherwise the program stops. */
  method DecryptBufferLRW(ciphers: Ciphers, ci: CryptoInfo, size: nat, buf: array<bv8>, at: nat, length: nat, blockIndex: nat)
    requires LengthPreserving(ciphers) && ValidInfo(ciphers, ci) && ci.mode == LRW && size == FirstSize(ci)
    requires at + length <= buf.Length && length % size == 0 && blockIndex < TWO_TO_THE_64
    modifies buf
    ensures var y := Blocks(LrwDecrypt(ciphers, ci, size), TWO_TO_THE_64, size, blockIndex, old(buf[at..at + length]));
            |y| == length && buf[..] == Replace(old(buf[..]), at, y)
  {
    hide Algorithm; hide LengthPreserving; hide ValidInfo; hide LrwDecrypt; hide Replace; hide BigEndian; hide Blocks; hide InPlace;
    ghost var before, data, f, n: nat := buf[..], buf[at..at + length], LrwDecrypt(ciphers, ci, size), blockIndex;
    var i := BigEndian(blockIndex, 8);
    var p: nat, left: nat := at, length;
    InPlaceStart(f, TWO_TO_THE_64, size, n, before, at, data);
    while left > 0
      invariant p + left == at + length && left % size == 0 && n < TWO_TO_THE_64 && i == BigEndian(n, 8)
      invariant |data| == length && InPlace(f, TWO_TO_THE_64, size, blockIndex, before, at, data, buf[..], p - at, n)
    {
      WholeBlocksLeft(left, size);
      ghost var now := buf[..];
      InPlaceNext(f, TWO_TO_THE_64, size, blockIndex, before, at, data, now, p - at, n);
      DecryptLrwBlock(ciphers, ci, size, buf, p, i, n);
      i := NextIndex(i, n);
      n := (n + 1) % TWO_TO_THE_64;
      p, left := p + size, left - size;
    }
    InPlaceEnd(f, TWO_TO_THE_64, size, blockIndex, before, at, data, buf[..], n);
  }
}
