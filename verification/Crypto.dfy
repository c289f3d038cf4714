/** Common/Crypto.c: buffers and data units are encrypted and decrypted in place, in every mode. */
module Crypto {
  import opened Arithmetic
  import opened CryptoModes
  import opened CryptoSpec
  import opened CryptoLaws
  import opened CryptoBuffers
  import opened CryptoCbc
  import opened CryptoXts
  import Crc
  import Words

  // ---- IVs and indices ----

  function Add64(a: bv64, b: bv64): bv64 { a ^ b }

  function AddByte(a: bv8, b: bv8): bv8 { a ^ b }

  lemma WordSum(a: bv32, b: bv32)
    ensures Widen(Words.Xor(a, b)) == Add64(Widen(a), Widen(b))
  {
  }

  lemma ByteOfSum(a: bv64, b: bv64)
    ensures LowByte(Add64(a, b)) == AddByte(LowByte(a), LowByte(b))
    ensures DropByte(Add64(a, b)) == Add64(DropByte(a), DropByte(b))
  {
  }

  lemma XorCons(x: bv8, a: Bytes, y: bv8, b: Bytes)
    ensures Xor([x] + a, [y] + b) == [AddByte(x, y)] + Xor(a, b)
  {
    var l, r := Xor([x] + a, [y] + b), [AddByte(x, y)] + Xor(a, b);
    assert |l| == |r| && l[0] == r[0];
    forall i | 1 <= i < |l| ensures l[i] == r[i] {
      var k := i - 1;
      assert ([x] + a)[i] == a[k] && (k < |b| ==> ([y] + b)[i] == b[k]) && r[i] == Xor(a, b)[k];
    }
  }

  lemma {:induction false} BytesOfSum(a: bv64, b: bv64, count: nat)
    ensures BytesOfWord(Add64(a, b), count) == Xor(BytesOfWord(a, count), BytesOfWord(b, count))
    decreases count
  {
    hide Add64; hide AddByte; hide LowByte; hide DropByte; hide Xor;
    if count > 0 {
      ByteOfSum(a, b);
      BytesOfSum(DropByte(a), DropByte(b), count - 1);
      XorCons(LowByte(a), BytesOfWord(DropByte(a), count - 1), LowByte(b), BytesOfWord(DropByte(b), count - 1));
    } else {
      XorNothing();
    }
  }

  lemma XorNothing()
    ensures Xor([], []) == []
  {
  }

  /** The bytes of a sum are the sums of bytes. */
  lemma SumBytes(a: bv32, b: bv32)
    ensures BytesOfWord(Widen(Words.Xor(a, b)), 4) == Xor(BytesOfWord(Widen(a), 4), BytesOfWord(Widen(b), 4))
  {
    hide Words.Xor; hide Widen; hide Add64; hide BytesOfWord; hide Xor;
    WordSum(a, b);
    BytesOfSum(Widen(a), Widen(b), 4);
  }

  /** Sixteen bytes from w on, as words, give the whitening. */
  lemma SeedWords(ci: CryptoInfo, iv: Bytes, unitNo: nat, size: nat, w: nat)
    requires |ci.k2| >= 32 && (size == 8 || size == 16) && w == size
    requires iv == Xor(ci.k2, LittleEndian(unitNo, 8) + LittleEndian(unitNo, 8) + LittleEndian(unitNo, 8) + LittleEndian(unitNo, 8))
    ensures SeedOfUnit(ci, unitNo, size)
         == UnitSeed(iv[..size], Xor(Crc32Bytes(iv[w..w + 4]), Crc32Bytes(iv[w + 12..w + 16]))
                     + Xor(Crc32Bytes(iv[w + 4..w + 8]), Crc32Bytes(iv[w + 8..w + 12])))
  {
    hide Xor; hide Crc32Bytes; hide LittleEndian;
  }

  /** InitSectorIVAndWhitening: IV and whitening of a data unit. */
  method InitSectorIVAndWhitening(ci: CryptoInfo, unitNo: nat, blockSize: nat) returns (seed: UnitSeed)
    requires |ci.k2| >= 32 && (blockSize == 8 || blockSize == 16)
    ensures seed == SeedOfUnit(ci, unitNo, blockSize)
  {
    hide LittleEndian; hide BytesOfWord; hide Xor; hide Crc.Crc32; hide Words.Xor; hide Widen; hide SeedOfUnit;
    var n := LittleEndian(unitNo, 8);
    var iv := Xor(ci.k2, n + n + n + n);
    var w := blockSize;
    SeedWords(ci, iv, unitNo, blockSize, w);
    var crc0 := Crc.Crc32Int(iv[w..w + 4]);
    var crc1 := Crc.Crc32Int(iv[w + 4..w + 8]);
    var crc2 := Crc.Crc32Int(iv[w + 8..w + 12]);
    var crc3 := Crc.Crc32Int(iv[w + 12..w + 16]);
    SumBytes(crc0, crc3);
    SumBytes(crc1, crc2);
    seed := UnitSeed(iv[..blockSize], BytesOfWord(Widen(Words.Xor(crc0, crc3)), 4) + BytesOfWord(Widen(Words.Xor(crc1, crc2)), 4));
  }

  /** DataUnit2LRWIndex: in 64-bit arithmetic, the index of the first LRW block of a data unit. */
  method DataUnit2LRWIndex(dataUnit: nat, blockSize: nat, ci: CryptoInfo) returns (index: nat)
    requires dataUnit < TWO_TO_THE_64 && (blockSize == 8 || blockSize == 16)
    ensures index == UnitToLrwIndex(ci, dataUnit, blockSize) && index < TWO_TO_THE_64
  {
    var first := if ci.hiddenVolume then ci.hiddenVolumeOffset / ENCRYPTION_DATA_UNIT_SIZE
    else TC_VOLUME_HEADER_SIZE_LEGACY / ENCRYPTION_DATA_UNIT_SIZE;
    var unit := (dataUnit - first) % TWO_TO_THE_64;
    var shift: nat := if blockSize == 8 then 6 else 5;
    index := SetLowBit(ShiftLeft(unit, shift));
    Powers();
    ShiftedUnit(dataUnit - first, if blockSize == 8 then 64 else 32);
  }

  /** x << n on 64 bits. */
  function ShiftLeft(x: nat, n: nat): nat { x * Power2(n) % TWO_TO_THE_64 }

  function Power2(n: nat): (r: nat) ensures r > 0 { if n == 0 then 1 else 2 * Power2(n - 1) }

  /** x | 1 */
  function SetLowBit(x: nat): nat { if x % 2 == 0 then x + 1 else x }

  lemma Powers()
    ensures Power2(5) == 32 && Power2(6) == 64
  {
    assert Power2(3) == 8;
  }

  /** 2^64 is even, and so is a multiple of k. */
  lemma ShiftedUnit(d: int, k: nat)
    requires k == 32 || k == 64
    ensures var s := d % TWO_TO_THE_64 * k % TWO_TO_THE_64; s % 2 == 0 && s + 1 == (d * k + 1) % TWO_TO_THE_64
  {
    var r := d % TWO_TO_THE_64;
    MultipleOf(r * (k / 2), 2);
    MulAssoc(r, k / 2, 2);
    EvenRemainder(r * k);
    ModLinear(d, TWO_TO_THE_64, k, 1);
  }

  lemma EvenRemainder(u: nat)
    requires u % 2 == 0
    ensures var s := u % TWO_TO_THE_64; s % 2 == 0 && s + 1 == (u + 1) % TWO_TO_THE_64
  {
    var q, s := u / TWO_TO_THE_64, u % TWO_TO_THE_64;
    assert u == q * TWO_TO_THE_64 + s;
    assert s + 1 < TWO_TO_THE_64 by { assert s % 2 == 0; }
    DivModUnique(q, s + 1, TWO_TO_THE_64);
  }

  // ---- Ciphers one after another over a buffer ----

  lemma StageXts(ciphers: Ciphers, ci: CryptoInfo, unitNo: nat, j: nat, data: Bytes)
    ensures EncryptXtsStage(ciphers, ci, unitNo)(j, data)
         == EncryptXts(ciphers, CipherAt(ci.ea, j), ScheduleAt(ciphers, ci.ks, KsOffset(ciphers, ci.ea, j), CipherAt(ci.ea, j)),
                       ScheduleAt(ciphers, ci.ks2, KsOffset(ciphers, ci.ea, j), CipherAt(ci.ea, j)), unitNo, data)
    ensures DecryptXtsStage(ciphers, ci, unitNo)(j, data)
         == DecryptXts(ciphers, CipherAt(ci.ea, j), ScheduleAt(ciphers, ci.ks, KsOffset(ciphers, ci.ea, j), CipherAt(ci.ea, j)),
                       ScheduleAt(ciphers, ci.ks2, KsOffset(ciphers, ci.ea, j), CipherAt(ci.ea, j)), unitNo, data)
  {
    hide EncryptXts; hide DecryptXts; hide Algorithm; hide ScheduleAt; hide KsOffset;
    var c, k, k2 := CipherAt(ci.ea, j), Schedule(ciphers, ci.ea, ci.ks, j), Schedule(ciphers, ci.ea, ci.ks2, j);
    assert EncryptXtsStage(ciphers, ci, unitNo)(j, data) == EncryptXts(ciphers, c, k, k2, unitNo, data);
    assert DecryptXtsStage(ciphers, ci, unitNo)(j, data) == DecryptXts(ciphers, c, k, k2, unitNo, data);
  }

  /** One cipher over a buffer in XTS mode. */
  method EncryptXtsOnce(ciphers: Ciphers, ci: CryptoInfo, ghost j: nat, cipher: nat, ks: nat, ks2: nat, buf: array<bv8>, at: nat, length: nat, unitNo: nat, parallel: bool)
    requires LengthPreserving(ciphers) && ValidInfo(ciphers, ci) && ci.mode == XTS && j < CipherCount(ci.ea) && at + length <= buf.Length
    requires cipher == CipherAt(ci.ea, j) && ks == ks2 == KsOffset(ciphers, ci.ea, j)
    requires length % BYTES_PER_XTS_BLOCK == 0 && unitNo < TWO_TO_THE_64
    modifies buf
    ensures var y := EncryptXtsStage(ciphers, ci, unitNo)(j, old(buf[at..at + length]));
            |y| == length && buf[..] == Replace(old(buf[..]), at, y)
  {
    hide Algorithm; hide LengthPreserving; hide ScheduleAt; hide Replace; hide EncryptedXts; hide EncryptXts; hide EncryptXtsStage; hide KsOffset;
    XtsSize(ci, j);
    AlignedXts(ciphers, cipher, ScheduleAt(ciphers, ci.ks, ks, cipher), ScheduleAt(ciphers, ci.ks2, ks2, cipher), unitNo, buf[at..at + length]);
    StageXts(ciphers, ci, unitNo, j, buf[at..at + length]);
    EncryptBufferXTS(ciphers, cipher, ci.ks, ks, ci.ks2, ks2, buf, at, length, unitNo, 0, parallel);
  }

  /** The loop over the ciphers in XTS mode. */
  method EncryptXtsCascade(ciphers: Ciphers, ci: CryptoInfo, buf: array<bv8>, at: nat, length: nat, unitNo: nat, parallel: bool)
    requires LengthPreserving(ciphers) && ValidInfo(ciphers, ci) && ci.mode == XTS
    requires at + length <= buf.Length && length % BYTES_PER_XTS_BLOCK == 0 && unitNo < TWO_TO_THE_64
    modifies buf
    ensures var y := Forward(EncryptXtsStage(ciphers, ci, unitNo), CipherCount(ci.ea), old(buf[at..at + length]));
            |y| == length && buf[..] == Replace(old(buf[..]), at, y)
  {
    hide Algorithm; hide LengthPreserving; hide ScheduleAt; hide Replace; hide EncryptXtsStage;
    ghost var before, x, f := buf[..], buf[at..at + length], EncryptXtsStage(ciphers, ci, unitNo);
    ListShape(ci.ea);
    ReplaceSame(before, at, |x|);
    var ks, ks2 := 0, 0;
    var cipher := EAGetFirstCipher(ci.ea);
    ghost var j := 0;
    while cipher != 0
      invariant 0 <= j <= CipherCount(ci.ea) && cipher == CipherAt(ci.ea, j) && ks == ks2 == KsOffset(ciphers, ci.ea, j)
      invariant |Forward(f, j, x)| == length && buf[..] == Replace(before, at, Forward(f, j, x))
      decreases CipherCount(ci.ea) - j
    {
      ReplaceTwice(before, at, Forward(f, j, x), Forward(f, j, x));
      EncryptXtsOnce(ciphers, ci, j, cipher, ks, ks2, buf, at, length, unitNo, parallel);
      ReplaceTwice(before, at, Forward(f, j, x), Forward(f, j + 1, x));
      ks, ks2 := ks + ciphers.scheduleSize(cipher), ks2 + ciphers.scheduleSize(cipher);
      cipher := EAGetNextCipher(ci.ea, cipher);
      j := j + 1;
    }
  }

  /** One cipher over a buffer in XTS mode. */
  method DecryptXtsOnce(ciphers: Ciphers, ci: CryptoInfo, ghost j: nat, cipher: nat, ks: nat, ks2: nat, buf: array<bv8>, at: nat, length: nat, unitNo: nat, parallel: bool)
    requires LengthPreserving(ciphers) && ValidInfo(ciphers, ci) && ci.mode == XTS && j < CipherCount(ci.ea) && at + length <= buf.Length
    requires cipher == CipherAt(ci.ea, j) && ks == ks2 == KsOffset(ciphers, ci.ea, j)
    requires length % BYTES_PER_XTS_BLOCK == 0 && unitNo < TWO_TO_THE_64
    modifies buf
    ensures var y := DecryptXtsStage(ciphers, ci, unitNo)(j, old(buf[at..at + length]));
            |y| == length && buf[..] == Replace(old(buf[..]), at, y)
  {
    hide Algorithm; hide LengthPreserving; hide ScheduleAt; hide Replace; hide DecryptedXts; hide DecryptXts; hide DecryptXtsStage; hide KsOffset;
    XtsSize(ci, j);
    AlignedXts(ciphers, cipher, ScheduleAt(ciphers, ci.ks, ks, cipher), ScheduleAt(ciphers, ci.ks2, ks2, cipher), unitNo, buf[at..at + length]);
    StageXts(ciphers, ci, unitNo, j, buf[at..at + length]);
    DecryptBufferXTS(ciphers, cipher, ci.ks, ks, ci.ks2, ks2, buf, at, length, unitNo, 0, parallel);
  }

  /** The loop over the ciphers in XTS mode, from the last one back. */
  method DecryptXtsCascade(ciphers: Ciphers, ci: CryptoInfo, buf: array<bv8>, at: nat, length: nat, unitNo: nat, parallel: bool)
    requires LengthPreserving(ciphers) && ValidInfo(ciphers, ci) && ci.mode == XTS
    requires at + length <= buf.Length && length % BYTES_PER_XTS_BLOCK == 0 && unitNo < TWO_TO_THE_64
    modifies buf
    ensures var y := Backward(DecryptXtsStage(ciphers, ci, unitNo), CipherCount(ci.ea), old(buf[at..at + length]));
            |y| == length && buf[..] == Replace(old(buf[..]), at, y)
  {
    hide Algorithm; hide LengthPreserving; hide ScheduleAt; hide Replace; hide DecryptXtsStage;
    ghost var before, x, g := buf[..], buf[at..at + length], DecryptXtsStage(ciphers, ci, unitNo);
    ghost var y := x;
    ListShape(ci.ea);
    ReplaceSame(before, at, |x|);
    var ks := EAGetKeyScheduleSize(ciphers, ci.ea);
    var ks2 := EAGetKeyScheduleSize(ciphers, ci.ea);
    var cipher := EAGetLastCipher(ci.ea);
    ghost var j := CipherCount(ci.ea);
    while cipher != 0
      invariant 0 <= j <= CipherCount(ci.ea) && cipher == (if j == 0 then 0 else CipherAt(ci.ea, j - 1))
      invariant ks == ks2 == KsOffset(ciphers, ci.ea, j)
      invariant |y| == length && buf[..] == Replace(before, at, y)
      invariant Backward(g, CipherCount(ci.ea), x) == Backward(g, j, y)
      decreases j
    {
      ReplaceTwice(before, at, y, y);
      ks, ks2 := ks - ciphers.scheduleSize(cipher), ks2 - ciphers.scheduleSize(cipher);
      DecryptXtsOnce(ciphers, ci, j - 1, cipher, ks, ks2, buf, at, length, unitNo, parallel);
      ReplaceTwice(before, at, y, g(j - 1, y));
      y := g(j - 1, y);
      cipher := EAGetPreviousCipher(ci.ea, cipher);
      j := j - 1;
    }
  }

  lemma StageCbc(ciphers: Ciphers, ci: CryptoInfo, seed: nat -> UnitSeed, j: nat, data: Bytes)
    ensures var size := BlockSize(CipherAt(ci.ea, j));
            && EncryptCbcStage(ciphers, ci, seed)(j, data)
               == CbcEncrypt(CbcEncipher(ciphers, ci, j), size, seed(size).iv, BlockWhite(seed(size).white, size), data)
            && DecryptCbcStage(ciphers, ci, seed)(j, data)
               == CbcDecrypt(CbcDecipher(ciphers, ci, j), size, seed(size).iv, BlockWhite(seed(size).white, size), data)
  {
    hide CbcEncrypt; hide CbcDecrypt; hide Algorithm; hide BlockWhite;
  }

  /** Which IV and whitening a buffer gets: those of a data unit or the ones stored with the key. */
  datatype SeedSource = OfUnit(unitNo: nat) | OfBuffer

  function Seeds(ci: CryptoInfo, source: SeedSource): nat -> UnitSeed {
    match source
    case OfUnit(unitNo) => SeedsOfUnit(ci, unitNo)
    case OfBuffer => SeedsOfBuffer(ci)
  }

  lemma SeedIs(ci: CryptoInfo, source: SeedSource, size: nat)
    requires |ci.k2| >= 32 && (size == 8 || size == 16)
    ensures Seeds(ci, source)(size)
         == match source case OfUnit(unitNo) => SeedOfUnit(ci, unitNo, size) case OfBuffer => UnitSeed(ci.k2[..size], ci.k2[8..16])
  {
    hide SeedOfUnit;
    match source
    case OfUnit(unitNo) => assert SeedsOfUnit(ci, unitNo)(size) == SeedOfUnit(ci, unitNo, size);
    case OfBuffer => assert SeedsOfBuffer(ci)(size) == SeedOfBuffer(ci, size);
  }

  method GetSeed(ci: CryptoInfo, source: SeedSource, blockSize: nat) returns (seed: UnitSeed)
    requires |ci.k2| >= 32 && (blockSize == 8 || blockSize == 16)
    ensures seed == Seeds(ci, source)(blockSize)
  {
    SeedIs(ci, source, blockSize);
    match source
    case OfUnit(unitNo) => seed := InitSectorIVAndWhitening(ci, unitNo, blockSize);
    case OfBuffer => seed := UnitSeed(ci.k2[..blockSize], ci.k2[8..16]);
  }

  /** One cipher over a buffer in CBC or inner-CBC mode. */
  method EncryptCbcOnce(ciphers: Ciphers, ci: CryptoInfo, source: SeedSource, ghost j: nat, cipher: nat, ks: nat, buf: array<bv8>, at: nat, length: nat)
    requires LengthPreserving(ciphers) && ValidInfo(ciphers, ci) && j < CipherCount(ci.ea) && at + length <= buf.Length
    requires cipher == CipherAt(ci.ea, j) && ks == KsOffset(ciphers, ci.ea, j) && length % BlockSize(cipher) == 0
    modifies buf
    ensures var y := EncryptCbcStage(ciphers, ci, Seeds(ci, source))(j, old(buf[at..at + length]));
            |y| == length && buf[..] == Replace(old(buf[..]), at, y)
  {
    hide Algorithm; hide LengthPreserving; hide Replace; hide EncryptCbcStage; hide CbcEncrypt; hide CbcEncipher; hide BlockWhite; hide Seeds; hide KsOffset;
    StageCbc(ciphers, ci, Seeds(ci, source), j, buf[at..at + length]);
    var seed := GetSeed(ci, source, BlockSize(cipher));
    EncryptBufferCBC(ciphers, ci, Single(j), false, cipher, ks, seed.iv, seed.white, buf, at, length);
  }

  /** The loop over the ciphers in CBC and inner-CBC mode. */
  method EncryptCbcCascade(ciphers: Ciphers, ci: CryptoInfo, source: SeedSource, buf: array<bv8>, at: nat, length: nat)
    requires LengthPreserving(ciphers) && ValidInfo(ciphers, ci) && WholeBlocks(ci, length) && at + length <= buf.Length
    modifies buf
    ensures var y := Forward(EncryptCbcStage(ciphers, ci, Seeds(ci, source)), CipherCount(ci.ea), old(buf[at..at + length]));
            |y| == length && buf[..] == Replace(old(buf[..]), at, y)
  {
    hide Algorithm; hide LengthPreserving; hide ScheduleAt; hide Replace; hide EncryptCbcStage; hide Seeds;
    ghost var before, x, f := buf[..], buf[at..at + length], EncryptCbcStage(ciphers, ci, Seeds(ci, source));
    ghost var y := x;
    ListShape(ci.ea);
    ReplaceSame(before, at, |x|);
    var ks := 0;
    var cipher := EAGetFirstCipher(ci.ea);
    ghost var j := 0;
    while cipher != 0
      invariant 0 <= j <= CipherCount(ci.ea) && cipher == CipherAt(ci.ea, j) && ks == KsOffset(ciphers, ci.ea, j)
      invariant y == Forward(f, j, x) && |y| == length && buf[..] == Replace(before, at, y)
      decreases CipherCount(ci.ea) - j
    {
      ReplaceTwice(before, at, y, y);
      EncryptCbcOnce(ciphers, ci, source, j, cipher, ks, buf, at, length);
      ReplaceTwice(before, at, y, f(j, y));
      y := f(j, y);
      ks := ks + ciphers.scheduleSize(cipher);
      cipher := EAGetNextCipher(ci.ea, cipher);
      j := j + 1;
    }
  }

  /** One cipher over a buffer in CBC or inner-CBC mode. */
  method DecryptCbcOnce(ciphers: Ciphers, ci: CryptoInfo, source: SeedSource, ghost j: nat, cipher: nat, ks: nat, buf: array<bv8>, at: nat, length: nat)
    requires LengthPreserving(ciphers) && ValidInfo(ciphers, ci) && j < CipherCount(ci.ea) && at + length <= buf.Length
    requires cipher == CipherAt(ci.ea, j) && ks == KsOffset(ciphers, ci.ea, j) && length % BlockSize(cipher) == 0
    modifies buf
    ensures var y := DecryptCbcStage(ciphers, ci, Seeds(ci, source))(j, old(buf[at..at + length]));
            |y| == length && buf[..] == Replace(old(buf[..]), at, y)
  {
    hide Algorithm; hide LengthPreserving; hide Replace; hide DecryptCbcStage; hide CbcDecrypt; hide CbcDecipher; hide BlockWhite; hide Seeds; hide KsOffset;
    StageCbc(ciphers, ci, Seeds(ci, source), j, buf[at..at + length]);
    var seed := GetSeed(ci, source, BlockSize(cipher));
    DecryptBufferCBC(ciphers, ci, Single(j), false, cipher, ks, seed.iv, seed.white, buf, at, length);
  }

  /** The loop over the ciphers in CBC and inner-CBC mode, from the last one back. */
  method DecryptCbcCascade(ciphers: Ciphers, ci: CryptoInfo, source: SeedSource, buf: array<bv8>, at: nat, length: nat)
    requires LengthPreserving(ciphers) && ValidInfo(ciphers, ci) && WholeBlocks(ci, length) && at + length <= buf.Length
    modifies buf
    ensures var y := Backward(DecryptCbcStage(ciphers, ci, Seeds(ci, source)), CipherCount(ci.ea), old(buf[at..at + length]));
            |y| == length && buf[..] == Replace(old(buf[..]), at, y)
  {
    hide Algorithm; hide LengthPreserving; hide ScheduleAt; hide Replace; hide DecryptCbcStage; hide Seeds;
    ghost var before, x, g := buf[..], buf[at..at + length], DecryptCbcStage(ciphers, ci, Seeds(ci, source));
    ghost var y := x;
    ListShape(ci.ea);
    ReplaceSame(before, at, |x|);
    var ks := EAGetKeyScheduleSize(ciphers, ci.ea);
    var cipher := EAGetLastCipher(ci.ea);
    ghost var j := CipherCount(ci.ea);
    while cipher != 0
      invariant 0 <= j <= CipherCount(ci.ea) && cipher == (if j == 0 then 0 else CipherAt(ci.ea, j - 1)) && ks == KsOffset(ciphers, ci.ea, j)
      invariant |y| == length && buf[..] == Replace(before, at, y)
      invariant Backward(g, CipherCount(ci.ea), x) == Backward(g, j, y)
      decreases j
    {
      ReplaceTwice(before, at, y, y);
      ks := ks - ciphers.scheduleSize(cipher);
      DecryptCbcOnce(ciphers, ci, source, j - 1, cipher, ks, buf, at, length);
      ReplaceTwice(before, at, y, g(j - 1, y));
      y := g(j - 1, y);
      cipher := EAGetPreviousCipher(ci.ea, cipher);
      j := j - 1;
    }
  }

  // ---- Data units one after another ----

  lemma InnerUnitIs(ciphers: Ciphers, ci: CryptoInfo, unitNo: nat, x: Bytes)
    ensures EncryptInnerUnit(ciphers, ci)(unitNo, x)
         == Forward(EncryptCbcStage(ciphers, ci, Seeds(ci, OfUnit(unitNo))), CipherCount(ci.ea), x)
    ensures DecryptInnerUnit(ciphers, ci)(unitNo, x)
         == Backward(DecryptCbcStage(ciphers, ci, Seeds(ci, OfUnit(unitNo))), CipherCount(ci.ea), x)
  {
    hide Forward; hide Backward; hide EncryptCbcStage; hide DecryptCbcStage; hide Algorithm; hide SeedsOfUnit;
  }

  lemma OuterUnitIs(ciphers: Ciphers, ci: CryptoInfo, unitNo: nat, x: Bytes)
    ensures var seed, size := SeedOfUnit(ci, unitNo, FirstSize(ci)), FirstSize(ci);
            && EncryptOuterUnit(ciphers, ci)(unitNo, x)
               == CbcEncrypt(EncipherAll(ciphers, ci), size, seed.iv, BlockWhite(seed.white, size), x)
            && DecryptOuterUnit(ciphers, ci)(unitNo, x)
               == CbcDecrypt(DecipherAll(ciphers, ci), size, seed.iv, BlockWhite(seed.white, size), x)
  {
    hide EncipherAll; hide DecipherAll; hide CbcEncrypt; hide CbcDecrypt; hide Algorithm; hide SeedOfUnit; hide BlockWhite;
  }

  /** All data units of a buffer in CBC and inner-CBC mode. */
  method EncryptInnerUnits(ciphers: Ciphers, ci: CryptoInfo, buf: array<bv8>, at: nat, unitNo: nat, nbrUnits: nat)
    requires LengthPreserving(ciphers) && ValidInfo(ciphers, ci) && (ci.mode == CBC || ci.mode == INNER_CBC)
    requires at + nbrUnits * ENCRYPTION_DATA_UNIT_SIZE <= buf.Length && unitNo < TWO_TO_THE_64
    modifies buf
    ensures var y := Blocks(EncryptInnerUnit(ciphers, ci), TWO_TO_THE_64, ENCRYPTION_DATA_UNIT_SIZE, unitNo, old(buf[at..at + nbrUnits * ENCRYPTION_DATA_UNIT_SIZE]));
            |y| == nbrUnits * ENCRYPTION_DATA_UNIT_SIZE && buf[..] == Replace(old(buf[..]), at, y)
  {
    hide Algorithm; hide LengthPreserving; hide ValidInfo; hide Replace; hide EncryptInnerUnit; hide EncryptCbcStage; hide Blocks; hide InPlace; hide WholeBlocks; hide Seeds; hide Forward;
    ghost var length := nbrUnits * ENCRYPTION_DATA_UNIT_SIZE;
    ghost var before, data, f := buf[..], buf[at..at + length], EncryptInnerUnit(ciphers, ci);
    var left: nat, p: nat, n: nat := nbrUnits, at, unitNo;
    InPlaceStart(f, TWO_TO_THE_64, 512, unitNo, before, at, data);
    UnitIsWholeBlocks(ci);
    while left > 0
      invariant p + left * 512 == at + length && at <= p && |data| == length && n < TWO_TO_THE_64
      invariant InPlace(f, TWO_TO_THE_64, 512, unitNo, before, at, data, buf[..], p - at, n)
    {
      ghost var x := buf[p..p + 512];
      InPlaceNext(f, TWO_TO_THE_64, 512, unitNo, before, at, data, buf[..], p - at, n);
      InnerUnitIs(ciphers, ci, n, x);
      EncryptCbcCascade(ciphers, ci, OfUnit(n), buf, p, 512);
      p, left := p + 512, left - 1;
      n := (n + 1) % TWO_TO_THE_64;
    }
    InPlaceEnd(f, TWO_TO_THE_64, 512, unitNo, before, at, data, buf[..], n);
  }

  /** All data units of a buffer in outer-CBC mode. */
  method EncryptOuterUnits(ciphers: Ciphers, ci: CryptoInfo, buf: array<bv8>, at: nat, unitNo: nat, nbrUnits: nat)
    requires LengthPreserving(ciphers) && ValidInfo(ciphers, ci) && ci.mode == OUTER_CBC
    requires at + nbrUnits * ENCRYPTION_DATA_UNIT_SIZE <= buf.Length && unitNo < TWO_TO_THE_64
    modifies buf
    ensures var y := Blocks(EncryptOuterUnit(ciphers, ci), TWO_TO_THE_64, ENCRYPTION_DATA_UNIT_SIZE, unitNo, old(buf[at..at + nbrUnits * ENCRYPTION_DATA_UNIT_SIZE]));
            |y| == nbrUnits * ENCRYPTION_DATA_UNIT_SIZE && buf[..] == Replace(old(buf[..]), at, y)
  {
    hide Algorithm; hide LengthPreserving; hide Replace; hide EncryptOuterUnit; hide EncipherAll; hide CbcEncrypt; hide Blocks; hide InPlace; hide SeedOfUnit; hide BlockWhite;
    ghost var length := nbrUnits * ENCRYPTION_DATA_UNIT_SIZE;
    ghost var before, data, f := buf[..], buf[at..at + length], EncryptOuterUnit(ciphers, ci);
    var left: nat, p: nat, n: nat := nbrUnits, at, unitNo;
    InPlaceStart(f, TWO_TO_THE_64, 512, unitNo, before, at, data);
    UnitsAreBlocks(ci, 512);
    while left > 0
      invariant p + left * 512 == at + length && at <= p && |data| == length && n < TWO_TO_THE_64
      invariant InPlace(f, TWO_TO_THE_64, 512, unitNo, before, at, data, buf[..], p - at, n)
    {
      ghost var x := buf[p..p + 512];
      InPlaceNext(f, TWO_TO_THE_64, 512, unitNo, before, at, data, buf[..], p - at, n);
      OuterUnitIs(ciphers, ci, n, x);
      var first := EAGetFirstCipher(ci.ea);
      var seed := InitSectorIVAndWhitening(ci, n, BlockSize(first));
      FirstCipher(ci);
      EncryptBufferCBC(ciphers, ci, Outer, true, 0, 0, seed.iv, seed.white, buf, p, 512);
      p, left := p + 512, left - 1;
      n := (n + 1) % TWO_TO_THE_64;
    }
    InPlaceEnd(f, TWO_TO_THE_64, 512, unitNo, before, at, data, buf[..], n);
  }

  /** EncryptDataUnitsCurrentThread: the buffer from `at` on starts with data unit `unitNo`. */
  method EncryptDataUnitsCurrentThread(ciphers: Ciphers, ci: CryptoInfo, buf: array<bv8>, at: nat, unitNo: nat, nbrUnits: nat, parallel: bool)
    requires LengthPreserving(ciphers) && ValidInfo(ciphers, ci)
    requires at + nbrUnits * ENCRYPTION_DATA_UNIT_SIZE <= buf.Length && unitNo < TWO_TO_THE_64
    modifies buf
    ensures var y := EncryptUnits(ciphers, ci, unitNo, old(buf[at..at + nbrUnits * ENCRYPTION_DATA_UNIT_SIZE]));
            |y| == nbrUnits * ENCRYPTION_DATA_UNIT_SIZE && buf[..] == Replace(old(buf[..]), at, y)
  {
    hide Algorithm; hide LengthPreserving; hide Replace; hide Forward; hide Backward; hide Blocks; hide UnitToLrwIndex; hide KsOffset;
    hide EncryptXtsStage; hide LrwEncrypt; hide EncryptInnerUnit; hide EncryptOuterUnit; hide EncipherAll;
    var length := nbrUnits * ENCRYPTION_DATA_UNIT_SIZE;
    UnitsAreBlocks(ci, length);
    match ci.mode
    case XTS =>
      EncryptXtsCascade(ciphers, ci, buf, at, length, unitNo, parallel);
    case LRW =>
      var first := EAGetFirstCipher(ci.ea);
      var index := DataUnit2LRWIndex(unitNo, BlockSize(first), ci);
      EncryptBufferLRW(ciphers, ci, BlockSize(first), buf, at, length, index);
    case OUTER_CBC =>
      EncryptOuterUnits(ciphers, ci, buf, at, unitNo, nbrUnits);
    case _ =>
      EncryptInnerUnits(ciphers, ci, buf, at, unitNo, nbrUnits);
  }

  lemma UsedBlocks(ci: CryptoInfo, length: nat)
    requires WholeBlocks(ci, length)
    ensures WholeBlocks(ci, UsedLength(ci.mode, length))
  {
    var n := UsedLength(ci.mode, length);
    forall j | 0 <= j < CipherCount(ci.ea) ensures n % BlockSize(CipherAt(ci.ea, j)) == 0 {
      CutOff(length, BlockSize(CipherAt(ci.ea, j)));
    }
  }

  /** EncryptBuffer: a buffer that starts with data unit 0, in CBC modes a buffer with the IV stored with the key.  What
      is not used of it stays as it is. */
  method EncryptBuffer(ciphers: Ciphers, ci: CryptoInfo, buf: array<bv8>, parallel: bool)
    requires LengthPreserving(ciphers) && ValidInfo(ciphers, ci) && WholeBlocks(ci, buf.Length)
    modifies buf
    ensures buf[..] == EncryptedBuffer(ciphers, ci, old(buf[..]))
  {
    hide Algorithm; hide LengthPreserving; hide Forward; hide Backward; hide Blocks; hide KsOffset; hide CbcEncrypt;
    hide EncryptXtsStage; hide LrwEncrypt; hide EncryptCbcStage; hide EncipherAll; hide BlockWhite;
    var len := UsedLength(ci.mode, buf.Length);
    UsedBlocks(ci, buf.Length);
    assert buf[0..len] == buf[..len];
    FirstCipher(ci);
    assert len % FirstSize(ci) == 0;
    match ci.mode
    case XTS =>
      XtsSize(ci, 0);
      EncryptXtsCascade(ciphers, ci, buf, 0, len, 0, parallel);
    case LRW =>
      var first := EAGetFirstCipher(ci.ea);
      EncryptBufferLRW(ciphers, ci, BlockSize(first), buf, 0, len, 1);
    case OUTER_CBC =>
      SeedIs(ci, OfBuffer, FirstSize(ci));
      EncryptBufferCBC(ciphers, ci, Outer, true, 0, 0, ci.k2[..FirstSize(ci)], ci.k2[8..16], buf, 0, len);
    case _ =>
      EncryptCbcCascade(ciphers, ci, OfBuffer, buf, 0, len);
  }

  method DecryptInnerUnits(ciphers: Ciphers, ci: CryptoInfo, buf: array<bv8>, at: nat, unitNo: nat, nbrUnits: nat)
    requires LengthPreserving(ciphers) && ValidInfo(ciphers, ci) && (ci.mode == CBC || ci.mode == INNER_CBC)
    requires at + nbrUnits * ENCRYPTION_DATA_UNIT_SIZE <= buf.Length && unitNo < TWO_TO_THE_64
    modifies buf
    ensures var y := Blocks(DecryptInnerUnit(ciphers, ci), TWO_TO_THE_64, ENCRYPTION_DATA_UNIT_SIZE, unitNo, old(buf[at..at + nbrUnits * ENCRYPTION_DATA_UNIT_SIZE]));
            |y| == nbrUnits * ENCRYPTION_DATA_UNIT_SIZE && buf[..] == Replace(old(buf[..]), at, y)
  {
    hide Algorithm; hide LengthPreserving; hide ValidInfo; hide Replace; hide DecryptInnerUnit; hide DecryptCbcStage; hide Blocks; hide InPlace; hide WholeBlocks; hide Seeds; hide Backward;
    ghost var length := nbrUnits * ENCRYPTION_DATA_UNIT_SIZE;
    ghost var before, data, f := buf[..], buf[at..at + length], DecryptInnerUnit(ciphers, ci);
    var left: nat, p: nat, n: nat := nbrUnits, at, unitNo;
    InPlaceStart(f, TWO_TO_THE_64, 512, unitNo, before, at, data);
    UnitIsWholeBlocks(ci);
    while left > 0
      invariant p + left * 512 == at + length && at <= p && |data| == length && n < TWO_TO_THE_64
      invariant InPlace(f, TWO_TO_THE_64, 512, unitNo, before, at, data, buf[..], p - at, n)
    {
      ghost var x := buf[p..p + 512];
      InPlaceNext(f, TWO_TO_THE_64, 512, unitNo, before, at, data, buf[..], p - at, n);
      InnerUnitIs(ciphers, ci, n, x);
      DecryptCbcCascade(ciphers, ci, OfUnit(n), buf, p, 512);
      p, left := p + 512, left - 1;
      n := (n + 1) % TWO_TO_THE_64;
    }
    InPlaceEnd(f, TWO_TO_THE_64, 512, unitNo, before, at, data, buf[..], n);
  }

  method DecryptOuterUnits(ciphers: Ciphers, ci: CryptoInfo, buf: array<bv8>, at: nat, unitNo: nat, nbrUnits: nat)
    requires LengthPreserving(ciphers) && ValidInfo(ciphers, ci) && ci.mode == OUTER_CBC
    requires at + nbrUnits * ENCRYPTION_DATA_UNIT_SIZE <= buf.Length && unitNo < TWO_TO_THE_64
    modifies buf
    ensures var y := Blocks(DecryptOuterUnit(ciphers, ci), TWO_TO_THE_64, ENCRYPTION_DATA_UNIT_SIZE, unitNo, old(buf[at..at + nbrUnits * ENCRYPTION_DATA_UNIT_SIZE]));
            |y| == nbrUnits * ENCRYPTION_DATA_UNIT_SIZE && buf[..] == Replace(old(buf[..]), at, y)
  {
    hide Algorithm; hide LengthPreserving; hide Replace; hide DecryptOuterUnit; hide DecipherAll; hide CbcDecrypt; hide Blocks; hide InPlace; hide SeedOfUnit; hide BlockWhite;
    ghost var length := nbrUnits * ENCRYPTION_DATA_UNIT_SIZE;
    ghost var before, data, f := buf[..], buf[at..at + length], DecryptOuterUnit(ciphers, ci);
    var left: nat, p: nat, n: nat := nbrUnits, at, unitNo;
    InPlaceStart(f, TWO_TO_THE_64, 512, unitNo, before, at, data);
    UnitsAreBlocks(ci, 512);
    while left > 0
      invariant p + left * 512 == at + length && at <= p && |data| == length && n < TWO_TO_THE_64
      invariant InPlace(f, TWO_TO_THE_64, 512, unitNo, before, at, data, buf[..], p - at, n)
    {
      ghost var x := buf[p..p + 512];
      InPlaceNext(f, TWO_TO_THE_64, 512, unitNo, before, at, data, buf[..], p - at, n);
      OuterUnitIs(ciphers, ci, n, x);
      var first := EAGetFirstCipher(ci.ea);
      var seed := InitSectorIVAndWhitening(ci, n, BlockSize(first));
      FirstCipher(ci);
      DecryptBufferCBC(ciphers, ci, Outer, true, 0, 0, seed.iv, seed.white, buf, p, 512);
      p, left := p + 512, left - 1;
      n := (n + 1) % TWO_TO_THE_64;
    }
    InPlaceEnd(f, TWO_TO_THE_64, 512, unitNo, before, at, data, buf[..], n);
  }

  method DecryptDataUnitsCurrentThread(ciphers: Ciphers, ci: CryptoInfo, buf: array<bv8>, at: nat, unitNo: nat, nbrUnits: nat, parallel: bool)
    requires LengthPreserving(ciphers) && ValidInfo(ciphers, ci)
    requires at + nbrUnits * ENCRYPTION_DATA_UNIT_SIZE <= buf.Length && unitNo < TWO_TO_THE_64
    modifies buf
    ensures var y := DecryptUnits(ciphers, ci, unitNo, old(buf[at..at + nbrUnits * ENCRYPTION_DATA_UNIT_SIZE]));
            |y| == nbrUnits * ENCRYPTION_DATA_UNIT_SIZE && buf[..] == Replace(old(buf[..]), at, y)
  {
    hide Algorithm; hide LengthPreserving; hide Replace; hide Forward; hide Backward; hide Blocks; hide UnitToLrwIndex; hide KsOffset;
    hide DecryptXtsStage; hide LrwDecrypt; hide DecryptInnerUnit; hide DecryptOuterUnit; hide DecipherAll;
    var length := nbrUnits * ENCRYPTION_DATA_UNIT_SIZE;
    UnitsAreBlocks(ci, length);
    match ci.mode
    case XTS =>
      DecryptXtsCascade(ciphers, ci, buf, at, length, unitNo, parallel);
    case LRW =>
      var first := EAGetFirstCipher(ci.ea);
      var index := DataUnit2LRWIndex(unitNo, BlockSize(first), ci);
      DecryptBufferLRW(ciphers, ci, BlockSize(first), buf, at, length, index);
    case OUTER_CBC =>
      DecryptOuterUnits(ciphers, ci, buf, at, unitNo, nbrUnits);
    case _ =>
      DecryptInnerUnits(ciphers, ci, buf, at, unitNo, nbrUnits);
  }

  method DecryptBuffer(ciphers: Ciphers, ci: CryptoInfo, buf: array<bv8>, parallel: bool)
    requires LengthPreserving(ciphers) && ValidInfo(ciphers, ci) && WholeBlocks(ci, buf.Length)
    modifies buf
    ensures buf[..] == DecryptedBuffer(ciphers, ci, old(buf[..]))
  {
    hide Algorithm; hide LengthPreserving; hide Forward; hide Backward; hide Blocks; hide KsOffset; hide CbcDecrypt;
    hide DecryptXtsStage; hide LrwDecrypt; hide DecryptCbcStage; hide DecipherAll; hide BlockWhite;
    var len := UsedLength(ci.mode, buf.Length);
    UsedBlocks(ci, buf.Length);
    assert buf[0..len] == buf[..len];
    FirstCipher(ci);
    assert len % FirstSize(ci) == 0;
    match ci.mode
    case XTS =>
      XtsSize(ci, 0);
      DecryptXtsCascade(ciphers, ci, buf, 0, len, 0, parallel);
    case LRW =>
      var first := EAGetFirstCipher(ci.ea);
      DecryptBufferLRW(ciphers, ci, BlockSize(first), buf, 0, len, 1);
    case OUTER_CBC =>
      SeedIs(ci, OfBuffer, FirstSize(ci));
      DecryptBufferCBC(ciphers, ci, Outer, true, 0, 0, ci.k2[..FirstSize(ci)], ci.k2[8..16], buf, 0, len);
    case _ =>
      DecryptCbcCascade(ciphers, ci, OfBuffer, buf, 0, len);
  }
}
