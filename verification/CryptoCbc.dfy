/** CBC over a buffer in place: EncryptBufferCBC and DecryptBufferCBC of Common/Crypto.c. */
module CryptoCbc {
  import opened Arithmetic
  import opened CryptoModes
  import opened CryptoSpec
  import opened CryptoLaws
  import opened CryptoBuffers
  import Crc

  /** Outer-CBC chains around the whole cascade, otherwise one cipher is used. */
  datatype Chained = Outer | Single(j: nat)

  predicate ValidChained(ci: CryptoInfo, how: Chained) {
    match how
    case Outer => ci.mode == OUTER_CBC
    case Single(j) => j < CipherCount(ci.ea)
  }

  function ChainedSize(ci: CryptoInfo, how: Chained): (size: nat)
    ensures size == 8 || size == 16
  {
    match how
    case Outer => FirstSize(ci)
    case Single(j) => BlockSize(CipherAt(ci.ea, j))
  }

  function ChainedEncipher(ciphers: Ciphers, ci: CryptoInfo, how: Chained): Block {
    match how
    case Outer => EncipherAll(ciphers, ci)
    case Single(j) => CbcEncipher(ciphers, ci, j)
  }

  function ChainedDecipher(ciphers: Ciphers, ci: CryptoInfo, how: Chained): Block {
    match how
    case Outer => DecipherAll(ciphers, ci)
    case Single(j) => CbcDecipher(ciphers, ci, j)
  }

  /** The ciphers on one block: the cascade with its schedules from the beginning, or one cipher. */
  method EncipherChained(ciphers: Ciphers, ci: CryptoInfo, ghost how: Chained, outer: bool, cipher: nat, ks: nat, buf: array<bv8>, p: nat)
    requires LengthPreserving(ciphers) && ValidInfo(ciphers, ci) && ValidChained(ci, how)
    requires outer <==> how.Outer?
    requires how.Single? ==> cipher == CipherAt(ci.ea, how.j) && ks == KsOffset(ciphers, ci.ea, how.j)
    requires p + ChainedSize(ci, how) <= buf.Length
    modifies buf
    ensures var y := ChainedEncipher(ciphers, ci, how)(old(buf[p..p + ChainedSize(ci, how)]));
            |y| == ChainedSize(ci, how) && buf[..] == Replace(old(buf[..]), p, y)
  {
    hide Algorithm; hide LengthPreserving; hide EncipherAll; hide KsOffset; hide ScheduleAt; hide Replace;
    if outer {
      EncipherCascade(ciphers, ci, buf, p);
    } else {
      CbcCipherIs(ciphers, ci, how.j, buf[p..p + ChainedSize(ci, how)]);
      EncipherBlock(ciphers, cipher, buf, p, ci.ks, ks);
    }
  }

  method DecipherChained(ciphers: Ciphers, ci: CryptoInfo, ghost how: Chained, outer: bool, cipher: nat, ks: nat, buf: array<bv8>, p: nat)
    requires LengthPreserving(ciphers) && ValidInfo(ciphers, ci) && ValidChained(ci, how)
    requires outer <==> how.Outer?
    requires how.Single? ==> cipher == CipherAt(ci.ea, how.j) && ks == KsOffset(ciphers, ci.ea, how.j)
    requires p + ChainedSize(ci, how) <= buf.Length
    modifies buf
    ensures var y := ChainedDecipher(ciphers, ci, how)(old(buf[p..p + ChainedSize(ci, how)]));
            |y| == ChainedSize(ci, how) && buf[..] == Replace(old(buf[..]), p, y)
  {
    hide Algorithm; hide LengthPreserving; hide DecipherAll; hide KsOffset; hide ScheduleAt; hide Replace;
    if outer {
      DecipherCascade(ciphers, ci, buf, p);
    } else {
      CbcCipherIs(ciphers, ci, how.j, buf[p..p + ChainedSize(ci, how)]);
      DecipherBlock(ciphers, cipher, buf, p, ci.ks, ks);
    }
  }

  lemma CbcCipherIs(ciphers: Ciphers, ci: CryptoInfo, j: nat, x: Bytes)
    ensures CbcEncipher(ciphers, ci, j)(x)
         == ciphers.encipher(CipherAt(ci.ea, j), ScheduleAt(ciphers, ci.ks, KsOffset(ciphers, ci.ea, j), CipherAt(ci.ea, j)), x)
    ensures CbcDecipher(ciphers, ci, j)(x)
         == ciphers.decipher(CipherAt(ci.ea, j), ScheduleAt(ciphers, ci.ks, KsOffset(ciphers, ci.ea, j), CipherAt(ci.ea, j)), x)
  {
    hide EncipherStage; hide DecipherStage; hide ScheduleAt; hide Algorithm;
    StageIs(ciphers, ci, j, x);
  }

  /** One more block of the chain. */
  lemma CbcNext(e: Block, size: nat, chain: Bytes, white: Bytes, data: Bytes)
    requires size > 0 && |data| >= size
    ensures var c := e(Xor(data[..size], chain));
            CbcEncrypt(e, size, chain, white, data) == Xor(c, white) + CbcEncrypt(e, size, c, white, data[size..])
    ensures var c := Xor(data[..size], white);
            CbcDecrypt(e, size, chain, white, data) == Xor(e(c), chain) + CbcDecrypt(e, size, c, white, data[size..])
  {
    hide Xor;
  }

  lemma CbcEmpty(e: Block, size: nat, chain: Bytes, white: Bytes)
    requires size > 0
    ensures CbcEncrypt(e, size, chain, white, []) == [] && CbcDecrypt(e, size, chain, white, []) == []
  {
  }

  lemma RoomForBlock(len: nat, k: nat, size: nat)
    requires size > 0 && len % size == 0 && k % size == 0 && k < len
    ensures k + size <= len && (k + size) % size == 0
  {
    DivMod(len, size);
    DivMod(k, size);
    var a, b := k / size, len / size;
    if b < a + 1 { MulMono(b, a, size); }
    MulMono(a + 1, b, size);
    MulDist(a, 1, size);
    MultipleOf(a + 1, size);
  }

  lemma PartlyIf(before: Bytes, at: nat, data: Bytes, now: Bytes, k: nat, size: nat, y: Bytes, rest: Bytes, total: Bytes)
    requires at + |data| <= |before| && k + size <= |data| && |now| == |before| && Partly(before, at, data, now, k, y + rest, total)
    ensures |y| == size ==> Partly(before, at, data, Replace(now, at + k, y), k + size, rest, total)
  {
    hide Partly; hide Replace;
    if |y| == size { PartlyNext(before, at, data, now, k, y, rest, total); }
  }

  /** Both words of the whitening value are added, twice for a block of four words. */
  method Whiten(buf: array<bv8>, p: nat, size: nat, white: Bytes)
    requires (size == 8 || size == 16) && p + size <= buf.Length
    modifies buf
    ensures buf[..] == Replace(old(buf[..]), p, Xor(old(buf[p..p + size]), BlockWhite(white, size)))
  {
    hide Xor; hide Replace;
    XorInto(buf, p, size, if size == 16 then white + white else white);
  }

  /** One block of EncryptBufferCBC; returns what the next one is chained to. */
  method EncryptCbcBlock(ciphers: Ciphers, ci: CryptoInfo, ghost how: Chained, outer: bool, cipher: nat, ks: nat,
                         bufIV: Bytes, white: Bytes, size: nat, buf: array<bv8>, p: nat) returns (next: Bytes)
    requires LengthPreserving(ciphers) && ValidInfo(ciphers, ci) && ValidChained(ci, how)
    requires outer <==> how.Outer?
    requires how.Single? ==> cipher == CipherAt(ci.ea, how.j) && ks == KsOffset(ciphers, ci.ea, how.j)
    requires size == ChainedSize(ci, how) && p + size <= buf.Length
    modifies buf
    ensures var x, e := old(buf[p..p + size]), ChainedEncipher(ciphers, ci, how);
            var c := e(Xor(x, bufIV));
            |c| == size && next == c && buf[..] == Replace(old(buf[..]), p, Xor(c, BlockWhite(white, size)))
  {
    hide Algorithm; hide LengthPreserving; hide ValidInfo; hide ChainedEncipher; hide KsOffset; hide Replace; hide Xor; hide BlockWhite;
    ghost var now, x, e, w := buf[..], buf[p..p + size], ChainedEncipher(ciphers, ci, how), BlockWhite(white, size);
    XorInto(buf, p, size, bufIV);
    ReplaceTwice(now, p, Xor(x, bufIV), Xor(x, bufIV));
    EncipherChained(ciphers, ci, how, outer, cipher, ks, buf, p);
    ghost var c := e(Xor(x, bufIV));
    ReplaceTwice(now, p, Xor(x, bufIV), c);
    ReplaceTwice(now, p, c, Xor(c, w));
    next := buf[p..p + size];
    Whiten(buf, p, size, white);
  }

  /** EncryptBufferCBC.  The length is one of whole blocks; otherwise the program stops. */
  method EncryptBufferCBC(ciphers: Ciphers, ci: CryptoInfo, ghost how: Chained, outer: bool, cipher: nat, ks: nat,
                          iv: Bytes, white: Bytes, buf: array<bv8>, at: nat, len: nat)
    requires LengthPreserving(ciphers) && ValidInfo(ciphers, ci) && ValidChained(ci, how)
    requires outer <==> how.Outer?
    requires how.Single? ==> cipher == CipherAt(ci.ea, how.j) && ks == KsOffset(ciphers, ci.ea, how.j)
    requires at + len <= buf.Length && len % ChainedSize(ci, how) == 0
    modifies buf
    ensures var size := ChainedSize(ci, how);
            var y := CbcEncrypt(ChainedEncipher(ciphers, ci, how), size, iv, BlockWhite(white, size), old(buf[at..at + len]));
            |y| == len && buf[..] == Replace(old(buf[..]), at, y)
  {
    hide Algorithm; hide LengthPreserving; hide ChainedEncipher; hide KsOffset; hide Replace; hide Xor; hide CbcEncrypt; hide CbcDecrypt;
    hide Partly; hide BlockWhite;
    var first := EAGetFirstCipher(ci.ea);
    var size := BlockSize(if outer then first else cipher);
    ghost var before, data, e, w := buf[..], buf[at..at + len], ChainedEncipher(ciphers, ci, how), BlockWhite(white, size);
    ghost var total := CbcEncrypt(e, size, iv, w, data);
    var bufIV := iv;
    var k: nat := 0;
    PartlyStart(before, at, data, total);
    assert data[0..] == data;
    while k < len
      invariant k <= len && k % size == 0 && |data| == len
      invariant Partly(before, at, data, buf[..], k, CbcEncrypt(e, size, bufIV, w, data[k..]), total)
    {
      RoomForBlock(len, k, size);
      ghost var now, x := buf[..], data[k..k + size];
      PartlyUntouched(before, at, data, now, k, size, CbcEncrypt(e, size, bufIV, w, data[k..]), total);
      assert data[k..][..size] == x && data[k..][size..] == data[k + size..];
      CbcNext(e, size, bufIV, w, data[k..]);
      ghost var c := e(Xor(x, bufIV));
      PartlyIf(before, at, data, now, k, size, Xor(c, w), CbcEncrypt(e, size, c, w, data[k + size..]), total);
      bufIV := EncryptCbcBlock(ciphers, ci, how, outer, cipher, ks, bufIV, white, size, buf, at + k);
      k := k + size;
    }
    assert data[len..] == [];
    CbcEmpty(e, size, bufIV, w);
    PartlyEnd(before, at, data, buf[..], total);
  }

  /** One block of DecryptBufferCBC; returns what the next one is chained to. */
  method DecryptCbcBlock(ciphers: Ciphers, ci: CryptoInfo, ghost how: Chained, outer: bool, cipher: nat, ks: nat,
                         bufIV: Bytes, white: Bytes, size: nat, buf: array<bv8>, p: nat) returns (next: Bytes)
    requires LengthPreserving(ciphers) && ValidInfo(ciphers, ci) && ValidChained(ci, how)
    requires outer <==> how.Outer?
    requires how.Single? ==> cipher == CipherAt(ci.ea, how.j) && ks == KsOffset(ciphers, ci.ea, how.j)
    requires size == ChainedSize(ci, how) && p + size <= buf.Length
    modifies buf
    ensures var x, d := old(buf[p..p + size]), ChainedDecipher(ciphers, ci, how);
            var c := Xor(x, BlockWhite(white, size));
            |d(c)| == size && next == c && buf[..] == Replace(old(buf[..]), p, Xor(d(c), bufIV))
  {
    hide Algorithm; hide LengthPreserving; hide ValidInfo; hide ChainedDecipher; hide KsOffset; hide Replace; hide Xor; hide BlockWhite;
    ghost var now, x, d, w := buf[..], buf[p..p + size], ChainedDecipher(ciphers, ci, how), BlockWhite(white, size);
    Whiten(buf, p, size, white);
    ghost var c := Xor(x, w);
    ReplaceTwice(now, p, c, c);
    next := buf[p..p + size];
    DecipherChained(ciphers, ci, how, outer, cipher, ks, buf, p);
    ReplaceTwice(now, p, c, d(c));
    ReplaceTwice(now, p, d(c), Xor(d(c), bufIV));
    XorInto(buf, p, size, bufIV);
  }

  /** DecryptBufferCBC.  The length is one of whole blocks; otherwise the program stops. */
  method DecryptBufferCBC(ciphers: Ciphers, ci: CryptoInfo, ghost how: Chained, outer: bool, cipher: nat, ks: nat,
                          iv: Bytes, white: Bytes, buf: array<bv8>, at: nat, len: nat)
    requires LengthPreserving(ciphers) && ValidInfo(ciphers, ci) && ValidChained(ci, how)
    requires outer <==> how.Outer?
    requires how.Single? ==> cipher == CipherAt(ci.ea, how.j) && ks == KsOffset(ciphers, ci.ea, how.j)
    requires at + len <= buf.Length && len % ChainedSize(ci, how) == 0
    modifies buf
    ensures var size := ChainedSize(ci, how);
            var y := CbcDecrypt(ChainedDecipher(ciphers, ci, how), size, iv, BlockWhite(white, size), old(buf[at..at + len]));
            |y| == len && buf[..] == Replace(old(buf[..]), at, y)
  {
    hide Algorithm; hide LengthPreserving; hide ChainedDecipher; hide KsOffset; hide Replace; hide Xor; hide CbcEncrypt; hide CbcDecrypt;
    hide Partly; hide BlockWhite;
    var first := EAGetFirstCipher(ci.ea);
    var size := BlockSize(if outer then first else cipher);
    ghost var before, data, d, w := buf[..], buf[at..at + len], ChainedDecipher(ciphers, ci, how), BlockWhite(white, size);
    ghost var total := CbcDecrypt(d, size, iv, w, data);
    var bufIV := iv;
    var k: nat := 0;
    PartlyStart(before, at, data, total);
    assert data[0..] == data;
    while k < len
      invariant k <= len && k % size == 0 && |data| == len
      invariant Partly(before, at, data, buf[..], k, CbcDecrypt(d, size, bufIV, w, data[k..]), total)
    {
      RoomForBlock(len, k, size);
      ghost var now, x := buf[..], data[k..k + size];
      PartlyUntouched(before, at, data, now, k, size, CbcDecrypt(d, size, bufIV, w, data[k..]), total);
      assert data[k..][..size] == x && data[k..][size..] == data[k + size..];
      CbcNext(d, size, bufIV, w, data[k..]);
      ghost var c := Xor(x, w);
      PartlyIf(before, at, data, now, k, size, Xor(d(c), bufIV), CbcDecrypt(d, size, c, w, data[k + size..]), total);
      bufIV := DecryptCbcBlock(ciphers, ci, how, outer, cipher, ks, bufIV, white, size, buf, at + k);
      k := k + size;
    }
    assert data[len..] == [];
    CbcEmpty(d, size, bufIV, w);
    PartlyEnd(before, at, data, buf[..], total);
  }
}
