/** What the modes leave in each block of a buffer, with plain numbers: XTS as in IEEE Std 1619, LRW and CBC. */
module CryptoStandard {
  import opened Arithmetic
  import opened CryptoModes
  import opened CryptoSpec
  import opened CryptoNumbers
  import Crc
  import Laws = CryptoLaws
  import Gf = CryptoGf
  import Gf128 = GfMul128
  import Gf64 = GfMul64

  /** Block m of a string. */
  function At(s: Bytes, size: nat, m: nat): Bytes
    requires size * m + size <= |s|
  {
    s[size * m..size * m + size]
  }

  lemma BlockAt(f: Numbered, modulus: nat, size: nat, first: nat, data: Bytes, m: nat)
    requires size > 0 && first < modulus && Keeps(f, size) && |data| % size == 0 && size * m + size <= |data|
    ensures var y := Blocks(f, modulus, size, first, data);
            |y| == |data| && At(y, size, m) == f((first + m) % modulus, At(data, size, m))
  {
    hide Blocks; hide Keeps;
    var p := size * m;
    var a, x, rest := data[..p], data[p..p + size], data[p + size..];
    assert data == a + (x + rest);
    MulComm(size, m);
    BlocksSplitAfter(f, modulus, size, first, m, a, x + rest);
    BlocksFirst(f, modulus, size, (first + m) % modulus, x, rest);
    BlocksLength(f, modulus, size, first, data);
    MultipleOf(m, size);
    BlocksLength(f, modulus, size, first, a);
    KeepsOne(f, size, (first + m) % modulus, x);
  }

  // ---- XTS ----

  /** The tweak of block m after the start of data unit unitNo: the encrypted number of its data unit, times x^j for block
      j of the unit. */
  function StandardTweak(ciphers: Ciphers, cipher: nat, ks2: Bytes, unitNo: nat, m: nat): Bytes {
    var t := ciphers.encipher(cipher, ks2, UnitBytes((unitNo + m / 32) % 0x1_0000_0000_0000_0000));
    if |t| == 16 then Gf.Flipped(Gf128.Product(Gf.Flipped(t), Gf.PowerOf(m % 32))) else []
  }

  lemma FlippedTwice(x: Bytes)
    requires |x| == 16
    ensures Gf.Flipped(Gf.Flipped(x)) == x
  {
  }

  /** Blocks are numbered through all data units. */
  lemma NumberOf(unitNo: nat, m: nat)
    requires unitNo < TWO_TO_THE_64
    ensures (unitNo * 32 + m) % XTS_MODULUS == (unitNo + m / 32) % TWO_TO_THE_64 * 32 + m % 32
    ensures (unitNo * 32) % XTS_MODULUS == unitNo * 32
  {
    var u, q := unitNo + m / 32, (unitNo + m / 32) / TWO_TO_THE_64;
    DivMod(m, 32);
    DivMod(u, TWO_TO_THE_64);
    assert unitNo * 32 + m == u * 32 + m % 32;
    assert u * 32 + m % 32 == q * XTS_MODULUS + (u % TWO_TO_THE_64 * 32 + m % 32);
    DivModUnique(q, u % TWO_TO_THE_64 * 32 + m % 32, XTS_MODULUS);
  }

  lemma TweakIsStandard(ciphers: Ciphers, cipher: nat, ks2: Bytes, unitNo: nat, m: nat)
    requires Laws.LengthPreserving(ciphers) && BlockSize(cipher) == 16 && unitNo < TWO_TO_THE_64
    ensures XtsTweak(ciphers, cipher, ks2, (unitNo * 32 + m) % XTS_MODULUS) == StandardTweak(ciphers, cipher, ks2, unitNo, m)
  {
    hide LittleEndian; hide UnitBytes; hide WhiteningAt; hide WhiteningBytes; hide Gf128.Product; hide Gf.PowerOf; hide Gf.Flipped;
    var u := (unitNo + m / 32) % TWO_TO_THE_64;
    NumberOf(unitNo, m);
    UnitBytesAre(u);
    assert |ciphers.encipher(cipher, ks2, UnitBytes(u))| == 16;
    Gf.XtsTweakIsProduct(ciphers, cipher, ks2, u, m % 32);
    FlippedTwice(XtsTweak(ciphers, cipher, ks2, u * 32 + m % 32));
  }

  lemma XtsKeeps(ciphers: Ciphers, cipher: nat, ks: Bytes, ks2: Bytes)
    requires Laws.LengthPreserving(ciphers) && BlockSize(cipher) == 16
    ensures Keeps(XtsEncipher(ciphers, cipher, ks, ks2), 16) && Keeps(XtsDecipher(ciphers, cipher, ks, ks2), 16)
  {
    hide XtsTweak;
    forall n: nat, x: Bytes | |x| == 16
      ensures |XtsEncipher(ciphers, cipher, ks, ks2)(n, x)| == 16 && |XtsDecipher(ciphers, cipher, ks, ks2)(n, x)| == 16
    {
      var y := Xor(x, XtsTweak(ciphers, cipher, ks2, n));
      assert |ciphers.encipher(cipher, ks, y)| == 16 && |ciphers.decipher(cipher, ks, y)| == 16;
    }
  }

  /** Main result on XTS: every block is added to its tweak, enciphered, and added to it again. */
  lemma XtsIsStandard(ciphers: Ciphers, cipher: nat, ks: Bytes, ks2: Bytes, unitNo: nat, data: Bytes, m: nat)
    requires Laws.LengthPreserving(ciphers) && BlockSize(cipher) == 16 && unitNo < TWO_TO_THE_64
    requires |data| % 16 == 0 && 16 * m + 16 <= |data|
    ensures var t, x := StandardTweak(ciphers, cipher, ks2, unitNo, m), At(data, 16, m);
            var y, z := EncryptXts(ciphers, cipher, ks, ks2, unitNo, data), DecryptXts(ciphers, cipher, ks, ks2, unitNo, data);
            && |y| == |z| == |data|
            && At(y, 16, m) == Xor(ciphers.encipher(cipher, ks, Xor(x, t)), t)
            && At(z, 16, m) == Xor(ciphers.decipher(cipher, ks, Xor(x, t)), t)
  {
    hide Xor; hide XtsTweak; hide StandardTweak; hide Keeps; hide Blocks; hide At;
    XtsKeeps(ciphers, cipher, ks, ks2);
    NumberOf(unitNo, m);
    TweakIsStandard(ciphers, cipher, ks2, unitNo, m);
    BlockAt(XtsEncipher(ciphers, cipher, ks, ks2), XTS_MODULUS, 16, unitNo * 32, data, m);
    BlockAt(XtsDecipher(ciphers, cipher, ks, ks2), XTS_MODULUS, 16, unitNo * 32, data, m);
  }

  // ---- Cascades ----

  /** Key schedules follow each other, the one of the first cipher at the beginning. */
  lemma Offsets(ciphers: Ciphers, ci: CryptoInfo, ks: Bytes)
    requires ValidInfo(ciphers, ci) && |ks| >= KsOffset(ciphers, ci.ea, CipherCount(ci.ea)) && 1 <= CipherCount(ci.ea) <= 3
    ensures var a := ciphers.scheduleSize(CipherAt(ci.ea, 0));
            var b := a + ciphers.scheduleSize(CipherAt(ci.ea, 1));
            var c := b + ciphers.scheduleSize(CipherAt(ci.ea, 2));
            && a <= |ks| && Schedule(ciphers, ci.ea, ks, 0) == ks[..a]
            && (CipherCount(ci.ea) >= 2 ==> b <= |ks| && Schedule(ciphers, ci.ea, ks, 1) == ks[a..b])
            && (CipherCount(ci.ea) >= 3 ==> c <= |ks| && Schedule(ciphers, ci.ea, ks, 2) == ks[b..c])
  {
    hide Algorithm;
    assert KsOffset(ciphers, ci.ea, 0) == 0;
    assert KsOffset(ciphers, ci.ea, 1) == ciphers.scheduleSize(CipherAt(ci.ea, 0));
    assert KsOffset(ciphers, ci.ea, 2) == KsOffset(ciphers, ci.ea, 1) + ciphers.scheduleSize(CipherAt(ci.ea, 1));
    assert KsOffset(ciphers, ci.ea, 3) == KsOffset(ciphers, ci.ea, 2) + ciphers.scheduleSize(CipherAt(ci.ea, 2));
  }

  lemma Counted(ea: nat)
    requires IsAlgorithm(ea)
    ensures 1 <= CipherCount(ea) <= 3
  {
  }

  lemma Staged(f: Numbered, g: Numbered, x: Bytes)
    ensures Forward(f, 1, x) == f(0, x) && Forward(f, 2, x) == f(1, f(0, x)) && Forward(f, 3, x) == f(2, f(1, f(0, x)))
    ensures Backward(g, 1, x) == g(0, x) && Backward(g, 2, x) == g(0, g(1, x)) && Backward(g, 3, x) == g(0, g(1, g(2, x)))
  {
    assert Forward(f, 0, x) == x;
    assert Forward(f, 1, x) == f(0, x);
    assert Forward(f, 2, x) == f(1, Forward(f, 1, x));
    assert forall z :: Backward(g, 0, z) == z;
    assert forall z :: Backward(g, 1, z) == g(0, z);
    assert forall z :: Backward(g, 2, z) == g(0, g(1, z));
  }

  /** Main result on cascades in XTS: the ciphers of the list one after another over the whole buffer, each with its own
      key schedules; to decrypt, in the opposite order. */
  lemma XtsCascade(ciphers: Ciphers, ci: CryptoInfo, unitNo: nat, data: Bytes)
    requires ValidInfo(ciphers, ci) && ci.mode == XTS
    ensures var c0, c1, c2 := CipherAt(ci.ea, 0), CipherAt(ci.ea, 1), CipherAt(ci.ea, 2);
            var a := ciphers.scheduleSize(c0);
            var b := a + ciphers.scheduleSize(c1);
            var c := b + ciphers.scheduleSize(c2);
            && 1 <= CipherCount(ci.ea) <= 3 && a <= |ci.ks| && a <= |ci.ks2|
            && (CipherCount(ci.ea) == 1 ==>
                  && EncryptUnits(ciphers, ci, unitNo, data) == EncryptXts(ciphers, c0, ci.ks[..a], ci.ks2[..a], unitNo, data)
                  && DecryptUnits(ciphers, ci, unitNo, data) == DecryptXts(ciphers, c0, ci.ks[..a], ci.ks2[..a], unitNo, data))
            && (CipherCount(ci.ea) == 2 ==>
                  && b <= |ci.ks| && b <= |ci.ks2|
                  && EncryptUnits(ciphers, ci, unitNo, data)
                     == EncryptXts(ciphers, c1, ci.ks[a..b], ci.ks2[a..b], unitNo, EncryptXts(ciphers, c0, ci.ks[..a], ci.ks2[..a], unitNo, data))
                  && DecryptUnits(ciphers, ci, unitNo, data)
                     == DecryptXts(ciphers, c0, ci.ks[..a], ci.ks2[..a], unitNo, DecryptXts(ciphers, c1, ci.ks[a..b], ci.ks2[a..b], unitNo, data)))
            && (CipherCount(ci.ea) == 3 ==>
                  && c <= |ci.ks| && c <= |ci.ks2|
                  && EncryptUnits(ciphers, ci, unitNo, data)
                     == EncryptXts(ciphers, c2, ci.ks[b..c], ci.ks2[b..c], unitNo,
                                   EncryptXts(ciphers, c1, ci.ks[a..b], ci.ks2[a..b], unitNo,
                                              EncryptXts(ciphers, c0, ci.ks[..a], ci.ks2[..a], unitNo, data)))
                  && DecryptUnits(ciphers, ci, unitNo, data)
                     == DecryptXts(ciphers, c0, ci.ks[..a], ci.ks2[..a], unitNo,
                                   DecryptXts(ciphers, c1, ci.ks[a..b], ci.ks2[a..b], unitNo,
                                              DecryptXts(ciphers, c2, ci.ks[b..c], ci.ks2[b..c], unitNo, data))))
  {
    hide Algorithm; hide EncryptXts; hide DecryptXts; hide Forward; hide Backward; hide Schedule; hide KsOffset; hide CipherCount; hide CipherAt;
    Counted(ci.ea);
    Offsets(ciphers, ci, ci.ks);
    Offsets(ciphers, ci, ci.ks2);
    Staged(EncryptXtsStage(ciphers, ci, unitNo), DecryptXtsStage(ciphers, ci, unitNo), data);
  }

  /** The ciphers of a cascade on one block, in LRW and around it in CBC. */
  lemma BlockCascade(ciphers: Ciphers, ci: CryptoInfo, x: Bytes)
    requires ValidInfo(ciphers, ci)
    ensures var c0, c1, c2 := CipherAt(ci.ea, 0), CipherAt(ci.ea, 1), CipherAt(ci.ea, 2);
            var a := ciphers.scheduleSize(c0);
            var b := a + ciphers.scheduleSize(c1);
            var c := b + ciphers.scheduleSize(c2);
            && 1 <= CipherCount(ci.ea) <= 3 && a <= |ci.ks|
            && (CipherCount(ci.ea) == 1 ==>
                  && EncipherAll(ciphers, ci)(x) == ciphers.encipher(c0, ci.ks[..a], x)
                  && DecipherAll(ciphers, ci)(x) == ciphers.decipher(c0, ci.ks[..a], x))
            && (CipherCount(ci.ea) == 2 ==>
                  && b <= |ci.ks|
                  && EncipherAll(ciphers, ci)(x) == ciphers.encipher(c1, ci.ks[a..b], ciphers.encipher(c0, ci.ks[..a], x))
                  && DecipherAll(ciphers, ci)(x) == ciphers.decipher(c0, ci.ks[..a], ciphers.decipher(c1, ci.ks[a..b], x)))
            && (CipherCount(ci.ea) == 3 ==>
                  && c <= |ci.ks|
                  && EncipherAll(ciphers, ci)(x)
                     == ciphers.encipher(c2, ci.ks[b..c], ciphers.encipher(c1, ci.ks[a..b], ciphers.encipher(c0, ci.ks[..a], x)))
                  && DecipherAll(ciphers, ci)(x)
                     == ciphers.decipher(c0, ci.ks[..a], ciphers.decipher(c1, ci.ks[a..b], ciphers.decipher(c2, ci.ks[b..c], x))))
  {
    hide Algorithm; hide Forward; hide Backward; hide Schedule; hide KsOffset; hide CipherCount; hide CipherAt;
    Counted(ci.ea);
    Offsets(ciphers, ci, ci.ks);
    Staged(EncipherStage(ciphers, ci), DecipherStage(ciphers, ci), x);
  }

  // ---- Whole buffers ----

  /** Main result on whole buffers: a buffer of data units is encrypted in XTS as data units from number 0 on, and in LRW,
      outside a hidden volume, as data units from number 1 on. */
  lemma WholeIsUnits(ciphers: Ciphers, ci: CryptoInfo, data: Bytes)
    requires ValidInfo(ciphers, ci)
    ensures ci.mode == XTS ==>
              && EncryptedBuffer(ciphers, ci, data) == EncryptUnits(ciphers, ci, 0, data)
              && DecryptedBuffer(ciphers, ci, data) == DecryptUnits(ciphers, ci, 0, data)
    ensures ci.mode == LRW && !ci.hiddenVolume ==>
              && EncryptedBuffer(ciphers, ci, data) == EncryptUnits(ciphers, ci, 1, data)
              && DecryptedBuffer(ciphers, ci, data) == DecryptUnits(ciphers, ci, 1, data)
  {
    hide Forward; hide Backward; hide Blocks; hide Algorithm; hide EncryptXtsStage; hide DecryptXtsStage; hide LrwEncrypt; hide LrwDecrypt;
    assert data[..|data|] == data && data[|data|..] == [];
    assert BlockSize(CipherAt(ci.ea, 0)) == 8 || BlockSize(CipherAt(ci.ea, 0)) == 16;
  }

  /** The first block of a buffer in XTS with one cipher: its tweak is sixteen encrypted zero bytes. */
  lemma FirstBlock(ciphers: Ciphers, ci: CryptoInfo, data: Bytes)
    requires Laws.LengthPreserving(ciphers) && ValidInfo(ciphers, ci) && ci.mode == XTS && CipherCount(ci.ea) == 1
    requires |data| % 16 == 0 && |data| >= 16
    ensures var c := CipherAt(ci.ea, 0);
            var a := ciphers.scheduleSize(c);
            && a <= |ci.ks| && a <= |ci.ks2|
            && var t := ciphers.encipher(c, ci.ks2[..a], seq(16, _ => 0));
            && |EncryptedBuffer(ciphers, ci, data)| == |DecryptedBuffer(ciphers, ci, data)| == |data|
            && EncryptedBuffer(ciphers, ci, data)[..16] == Xor(ciphers.encipher(c, ci.ks[..a], Xor(data[..16], t)), t)
            && DecryptedBuffer(ciphers, ci, data)[..16] == Xor(ciphers.decipher(c, ci.ks[..a], Xor(data[..16], t)), t)
  {
    hide Xor; hide EncryptUnits; hide DecryptUnits; hide EncryptedBuffer; hide DecryptedBuffer; hide EncryptXts; hide DecryptXts; hide StandardTweak;
    hide Algorithm; hide KsOffset; hide UnitBytes;
    WholeIsUnits(ciphers, ci, data);
    XtsCascade(ciphers, ci, 0, data);
    var c := CipherAt(ci.ea, 0);
    var k, k2 := ci.ks[..ciphers.scheduleSize(c)], ci.ks2[..ciphers.scheduleSize(c)];
    Laws.XtsSize(ci, 0);
    XtsIsStandard(ciphers, c, k, k2, 0, data, 0);
    FirstTweak(ciphers, c, k2);
  }

  lemma FirstTweak(ciphers: Ciphers, cipher: nat, ks2: Bytes)
    requires Laws.LengthPreserving(ciphers) && BlockSize(cipher) == 16
    ensures StandardTweak(ciphers, cipher, ks2, 0, 0) == ciphers.encipher(cipher, ks2, seq(16, _ => 0))
  {
    hide WhiteningBytes; hide WhiteningOf; hide StandardTweak; hide LittleEndian; hide UnitBytes;
    TweakIsStandard(ciphers, cipher, ks2, 0, 0);
    UnitBytesAre(0);
    UnitExamples();
    assert |ciphers.encipher(cipher, ks2, UnitBytes(0))| == 16;
    Gf.WhiteningBack(ciphers.encipher(cipher, ks2, UnitBytes(0)));
    NumberOf(0, 0);
  }

  // ---- LRW ----

  /** The index of block m after the start of a data unit. */
  function LrwIndex(ci: CryptoInfo, size: nat, unitNo: nat, m: nat): nat {
    var first: int := if ci.hiddenVolume then ci.hiddenVolumeOffset / 512 else 1;
    ((unitNo - first) * (if size == 16 then 32 else 64) + 1 + m) % 0x1_0000_0000_0000_0000
  }

  lemma IndexIs(ci: CryptoInfo, size: nat, unitNo: nat, m: nat)
    requires size == 8 || size == 16
    ensures (UnitToLrwIndex(ci, unitNo, size) + m) % TWO_TO_THE_64 == LrwIndex(ci, size, unitNo, m)
    ensures UnitToLrwIndex(ci, unitNo, size) < TWO_TO_THE_64
  {
    var first: int := if ci.hiddenVolume then ci.hiddenVolumeOffset / 512 else 1;
    ModLinear((unitNo - first) * (512 / size) + 1, TWO_TO_THE_64, 1, m);
  }

  /** The product of the second key and an index. */
  function ProductTweak(ci: CryptoInfo, size: nat, index: nat): Bytes
    requires |ci.k2| >= 16
  {
    var i := BigEndian(index, if size == 8 then 8 else 16);
    if size == 8 then (if |i| == 8 then Gf64.Product(ci.k2[..8], Gf.AsBytes(i)) else [])
    else if |i| == 16 then Gf128.Product(ci.k2[..16], Gf.AsBytes(i)) else []
  }

  lemma LrwKeeps(ciphers: Ciphers, ci: CryptoInfo, size: nat)
    requires Laws.LengthPreserving(ciphers) && ValidInfo(ciphers, ci) && ci.mode == LRW && size == FirstSize(ci)
    ensures Keeps(LrwEncrypt(ciphers, ci, size), size) && Keeps(LrwDecrypt(ciphers, ci, size), size)
  {
    hide EncipherAll; hide DecipherAll; hide LrwTweak;
    forall n: nat, x: Bytes | |x| == size
      ensures |LrwEncrypt(ciphers, ci, size)(n, x)| == size && |LrwDecrypt(ciphers, ci, size)(n, x)| == size
    {
      BlockLength(ciphers, ci, Xor(x, LrwTweak(ci, size, n)));
    }
  }

  lemma BlockLength(ciphers: Ciphers, ci: CryptoInfo, x: Bytes)
    requires Laws.LengthPreserving(ciphers) && ValidInfo(ciphers, ci) && ci.mode != INNER_CBC && |x| == FirstSize(ci)
    ensures |EncipherAll(ciphers, ci)(x)| == |DecipherAll(ciphers, ci)(x)| == |x|
  {
    hide EncipherAll; hide DecipherAll; hide Algorithm; hide KsOffset;
    BlockCascade(ciphers, ci, x);
    forall j: nat | j < CipherCount(ci.ea) ensures BlockSize(CipherAt(ci.ea, j)) == FirstSize(ci) { Laws.SameSizes(ci, j); }
    Laws.FirstCipher(ci);
  }

  /** Main result on LRW: every block is added to the product of the second key and the block's index, enciphered, and
      added to it again. */
  lemma LrwIsStandard(ciphers: Ciphers, ci: CryptoInfo, unitNo: nat, data: Bytes, m: nat)
    requires Laws.LengthPreserving(ciphers) && ValidInfo(ciphers, ci) && ci.mode == LRW && Gf.TablesOf(ci)
    requires |data| % FirstSize(ci) == 0 && FirstSize(ci) * m + FirstSize(ci) <= |data|
    ensures var size := FirstSize(ci);
            var t, x := ProductTweak(ci, size, LrwIndex(ci, size, unitNo, m)), At(data, size, m);
            var y, z := EncryptUnits(ciphers, ci, unitNo, data), DecryptUnits(ciphers, ci, unitNo, data);
            && (size == 8 || size == 16) && |y| == |z| == |data|
            && At(y, size, m) == Xor(EncipherAll(ciphers, ci)(Xor(x, t)), t)
            && At(z, size, m) == Xor(DecipherAll(ciphers, ci)(Xor(x, t)), t)
  {
    hide Xor; hide LrwTweak; hide Blocks; hide At; hide EncipherAll; hide DecipherAll; hide Algorithm; hide LrwIndex; hide LrwEncrypt; hide LrwDecrypt;
    hide Gf.TablesOf; hide UnitToLrwIndex; hide KsOffset; hide ProductTweak;
    var size := FirstSize(ci);
    IndexIs(ci, size, unitNo, m);
    LrwBlockAt(ciphers, ci, UnitToLrwIndex(ci, unitNo, size), data, m);
  }

  /** Main result on whole buffers in LRW: blocks have the indices 1, 2 and so on, in a hidden volume too. */
  lemma LrwWhole(ciphers: Ciphers, ci: CryptoInfo, data: Bytes, m: nat)
    requires Laws.LengthPreserving(ciphers) && ValidInfo(ciphers, ci) && ci.mode == LRW && Gf.TablesOf(ci)
    requires |data| % FirstSize(ci) == 0 && FirstSize(ci) * m + FirstSize(ci) <= |data|
    ensures var size := FirstSize(ci);
            var t, x := ProductTweak(ci, size, (1 + m) % 0x1_0000_0000_0000_0000), At(data, size, m);
            var y, z := EncryptedBuffer(ciphers, ci, data), DecryptedBuffer(ciphers, ci, data);
            && (size == 8 || size == 16) && |y| == |z| == |data|
            && At(y, size, m) == Xor(EncipherAll(ciphers, ci)(Xor(x, t)), t)
            && At(z, size, m) == Xor(DecipherAll(ciphers, ci)(Xor(x, t)), t)
  {
    LrwUnfolded(ciphers, ci, data);
    hide *;
    LrwBlockAt(ciphers, ci, 1, data, m);
  }

  /** Block m of a buffer whose blocks are numbered from `first` on. */
  lemma LrwBlockAt(ciphers: Ciphers, ci: CryptoInfo, first: nat, data: Bytes, m: nat)
    requires Laws.LengthPreserving(ciphers) && ValidInfo(ciphers, ci) && ci.mode == LRW && Gf.TablesOf(ci) && first < TWO_TO_THE_64
    requires |data| % FirstSize(ci) == 0 && FirstSize(ci) * m + FirstSize(ci) <= |data|
    ensures var size := FirstSize(ci);
            var t, x := ProductTweak(ci, size, (first + m) % 0x1_0000_0000_0000_0000), At(data, size, m);
            var y := Blocks(LrwEncrypt(ciphers, ci, size), TWO_TO_THE_64, size, first, data);
            var z := Blocks(LrwDecrypt(ciphers, ci, size), TWO_TO_THE_64, size, first, data);
            && (size == 8 || size == 16) && |y| == |z| == |data|
            && At(y, size, m) == Xor(EncipherAll(ciphers, ci)(Xor(x, t)), t)
            && At(z, size, m) == Xor(DecipherAll(ciphers, ci)(Xor(x, t)), t)
  {
    hide Xor; hide LrwTweak; hide Keeps; hide Blocks; hide At; hide EncipherAll; hide DecipherAll; hide Algorithm; hide Gf.TablesOf;
    hide KsOffset; hide ProductTweak;
    var size := FirstSize(ci);
    LrwKeeps(ciphers, ci, size);
    TweakIsProduct(ci, size, (first + m) % TWO_TO_THE_64);
    BlockAt(LrwEncrypt(ciphers, ci, size), TWO_TO_THE_64, size, first, data, m);
    BlockAt(LrwDecrypt(ciphers, ci, size), TWO_TO_THE_64, size, first, data, m);
  }

  lemma LrwUnfolded(ciphers: Ciphers, ci: CryptoInfo, data: Bytes)
    requires ci.mode == LRW
    ensures var size := FirstSize(ci);
            && EncryptedBuffer(ciphers, ci, data) == Blocks(LrwEncrypt(ciphers, ci, size), TWO_TO_THE_64, size, 1, data)
            && DecryptedBuffer(ciphers, ci, data) == Blocks(LrwDecrypt(ciphers, ci, size), TWO_TO_THE_64, size, 1, data)
  {
    WholeUsed(ciphers, ci, data);
    hide EncryptedBuffer; hide DecryptedBuffer; hide Blocks; hide LrwEncrypt; hide LrwDecrypt; hide FirstSize; hide Forward; hide Backward;
  }

  lemma TweakIsProduct(ci: CryptoInfo, size: nat, index: nat)
    requires |ci.k2| >= 16 && Gf.TablesOf(ci) && index < TWO_TO_THE_64 && (size == 8 || size == 16)
    ensures LrwTweak(ci, size, index) == ProductTweak(ci, size, index)
  {
    hide Gf.TablesOf; hide BigEndian; hide Gf.AsBytes; hide Gf128.Product; hide Gf64.Product; hide LrwTweak;
    Gf.LrwTweakIsProduct(ci, index);
  }

  // ---- CBC ----

  /** Main result on CBC: if the whitening is taken off again, each block is the cipher of its plaintext and the block
      before it, or the IV; whitening is added after chaining. */
  lemma {:induction false} CbcIsStandard(e: Block, size: nat, iv: Bytes, white: Bytes, data: Bytes, m: nat)
    requires size > 0 && (forall x: Bytes :: |x| == size ==> |e(x)| == size)
    requires |data| % size == 0 && size * m + size <= |data|
    ensures var y := CbcEncrypt(e, size, iv, white, data);
            && |y| == |data|
            && Xor(At(y, size, m), white) == e(Xor(At(data, size, m), if m == 0 then iv else Xor(At(y, size, m - 1), white)))
    decreases m
  {
    hide Xor; hide CbcEncrypt; hide At;
    var rest := data[size..];
    var c := e(Xor(data[..size], iv));
    var y, z := CbcEncrypt(e, size, iv, white, data), CbcEncrypt(e, size, c, white, rest);
    CbcFirst(e, size, iv, white, data);
    if m > 0 {
      AfterFirst(size, m, |data|);
      CbcIsStandard(e, size, c, white, rest, m - 1);
      AtLater(y, z, size, m);
      AtLater(data, rest, size, m);
      if m > 1 { AtLater(y, z, size, m - 1); }
    }
  }

  /** The first block, and where the others come from. */
  lemma CbcFirst(e: Block, size: nat, iv: Bytes, white: Bytes, data: Bytes)
    requires size > 0 && (forall x: Bytes :: |x| == size ==> |e(x)| == size) && |data| % size == 0 && size <= |data|
    ensures var c := e(Xor(data[..size], iv));
            var y := CbcEncrypt(e, size, iv, white, data);
            && |data[size..]| % size == 0 && |y| == |data|
            && y[size..] == CbcEncrypt(e, size, c, white, data[size..])
            && At(data, size, 0) == data[..size] && Xor(At(y, size, 0), white) == c
  {
    hide Xor; hide CbcEncrypt;
    var x, rest := data[..size], data[size..];
    var c := e(Xor(x, iv));
    assert data == x + rest;
    WholeBlocksLeft(|data|, size);
    CbcEncryptFirst(e, size, iv, white, x, rest);
    CbcLength(e, size, c, white, rest);
    CbcLength(e, size, iv, white, data);
    XorTwice(c, white);
  }

  lemma AfterFirst(size: nat, m: nat, n: nat)
    requires m > 0 && size * m + size <= n
    ensures size * (m - 1) + size == size * m && size * (m - 1) + size <= n - size
  {
    MulComm(size, m);
    MulComm(size, m - 1);
    MulDist(m - 1, 1, size);
  }

  lemma AtLater(y: Bytes, z: Bytes, size: nat, m: nat)
    requires m > 0 && size <= |y| && z == y[size..] && size * m + size <= |y|
    ensures size * (m - 1) + size <= |z| && At(y, size, m) == At(z, size, m - 1)
  {
    AfterFirst(size, m, |y|);
  }

  lemma {:induction false} CbcLength(e: Block, size: nat, iv: Bytes, white: Bytes, data: Bytes)
    requires size > 0 && (forall x: Bytes :: |x| == size ==> |e(x)| == size) && |data| % size == 0
    ensures |CbcEncrypt(e, size, iv, white, data)| == |data|
    decreases |data|
  {
    hide Xor;
    WholeBlocksLeft(|data|, size);
    if |data| >= size { CbcLength(e, size, e(Xor(data[..size], iv)), white, data[size..]); }
  }

  /** One cipher over some data, with the IV and the whitening of its block size. */
  function StageOf(ciphers: Ciphers, ci: CryptoInfo, j: nat, seed: UnitSeed, x: Bytes): Bytes {
    var size := BlockSize(CipherAt(ci.ea, j));
    CbcEncrypt(CbcEncipher(ciphers, ci, j), size, seed.iv, BlockWhite(seed.white, size), x)
  }

  /** Its cipher on a block. */
  lemma StageCipher(ciphers: Ciphers, ci: CryptoInfo, j: nat, x: Bytes)
    ensures CbcEncipher(ciphers, ci, j)(x) == ciphers.encipher(CipherAt(ci.ea, j), Schedule(ciphers, ci.ea, ci.ks, j), x)
    ensures CbcDecipher(ciphers, ci, j)(x) == ciphers.decipher(CipherAt(ci.ea, j), Schedule(ciphers, ci.ea, ci.ks, j), x)
  {
    hide Schedule; hide CipherAt;
    var c, k := CipherAt(ci.ea, j), Schedule(ciphers, ci.ea, ci.ks, j);
    assert EncipherStage(ciphers, ci)(j, x) == ciphers.encipher(c, k, x);
    assert DecipherStage(ciphers, ci)(j, x) == ciphers.decipher(c, k, x);
  }

  /** Main result on data units in CBC modes: unit q has the IV and whitening of its own number; outer CBC chains around
      the whole cascade, the others around each cipher. */
  lemma CbcUnits(ciphers: Ciphers, ci: CryptoInfo, unitNo: nat, data: Bytes, q: nat)
    requires Invertible(ciphers) && ValidInfo(ciphers, ci) && ci.mode != XTS && ci.mode != LRW && unitNo < TWO_TO_THE_64
    requires |data| % 512 == 0 && 512 * q + 512 <= |data|
    ensures var y, x, u := EncryptUnits(ciphers, ci, unitNo, data), At(data, 512, q), (unitNo + q) % 0x1_0000_0000_0000_0000;
            var seed := (j: nat) => SeedOfUnit(ci, u, BlockSize(CipherAt(ci.ea, j)));
            && |y| == |data| && 1 <= CipherCount(ci.ea) <= 3
            && (ci.mode == OUTER_CBC ==>
                  At(y, 512, q) == CbcEncrypt(EncipherAll(ciphers, ci), FirstSize(ci), seed(0).iv, BlockWhite(seed(0).white, FirstSize(ci)), x))
            && (ci.mode != OUTER_CBC && CipherCount(ci.ea) == 1 ==> At(y, 512, q) == StageOf(ciphers, ci, 0, seed(0), x))
            && (ci.mode != OUTER_CBC && CipherCount(ci.ea) == 2 ==>
                  At(y, 512, q) == StageOf(ciphers, ci, 1, seed(1), StageOf(ciphers, ci, 0, seed(0), x)))
            && (ci.mode != OUTER_CBC && CipherCount(ci.ea) == 3 ==>
                  At(y, 512, q) == StageOf(ciphers, ci, 2, seed(2), StageOf(ciphers, ci, 1, seed(1), StageOf(ciphers, ci, 0, seed(0), x))))
  {
    hide Invertible; hide Blocks; hide At; hide Algorithm; hide CipherCount; hide KsOffset; hide SeedOfUnit; hide EncipherAll; hide CbcEncrypt; hide BlockWhite;
    hide Forward; hide EncryptCbcStage; hide Undoes; hide Keeps; hide StageOf; hide EncryptInnerUnit; hide EncryptOuterUnit; hide CipherAt; hide DecryptInnerUnit;
    hide DecryptOuterUnit;
    Counted(ci.ea);
    var x, u := At(data, 512, q), (unitNo + q) % TWO_TO_THE_64;
    if ci.mode == OUTER_CBC {
      Laws.OuterUnitInverse(ciphers, ci);
      Laws.UndoneKeeps(DecryptOuterUnit(ciphers, ci), EncryptOuterUnit(ciphers, ci), 512);
      BlockAt(EncryptOuterUnit(ciphers, ci), TWO_TO_THE_64, 512, unitNo, data, q);
      OuterUnit(ciphers, ci, u, x);
    } else {
      Laws.InnerUnitInverse(ciphers, ci);
      Laws.UndoneKeeps(DecryptInnerUnit(ciphers, ci), EncryptInnerUnit(ciphers, ci), 512);
      BlockAt(EncryptInnerUnit(ciphers, ci), TWO_TO_THE_64, 512, unitNo, data, q);
      InnerUnit(ciphers, ci, u, x);
    }
  }

  lemma OuterUnit(ciphers: Ciphers, ci: CryptoInfo, u: nat, x: Bytes)
    ensures var seed := SeedOfUnit(ci, u, BlockSize(CipherAt(ci.ea, 0)));
            var white := BlockWhite(seed.white, FirstSize(ci));
            EncryptOuterUnit(ciphers, ci)(u, x) == CbcEncrypt(EncipherAll(ciphers, ci), FirstSize(ci), seed.iv, white, x)
  {
    hide CbcEncrypt; hide EncipherAll; hide SeedOfUnit; hide BlockWhite; hide CipherAt;
  }

  lemma InnerUnit(ciphers: Ciphers, ci: CryptoInfo, u: nat, x: Bytes)
    ensures var seed := (j: nat) => SeedOfUnit(ci, u, BlockSize(CipherAt(ci.ea, j)));
            var y := EncryptInnerUnit(ciphers, ci)(u, x);
            && (CipherCount(ci.ea) == 1 ==> y == StageOf(ciphers, ci, 0, seed(0), x))
            && (CipherCount(ci.ea) == 2 ==> y == StageOf(ciphers, ci, 1, seed(1), StageOf(ciphers, ci, 0, seed(0), x)))
            && (CipherCount(ci.ea) == 3 ==>
                  y == StageOf(ciphers, ci, 2, seed(2), StageOf(ciphers, ci, 1, seed(1), StageOf(ciphers, ci, 0, seed(0), x))))
  {
    hide CbcEncrypt; hide CbcEncipher; hide SeedOfUnit; hide BlockWhite; hide CipherAt; hide Forward; hide Backward; hide CipherCount;
    var f := EncryptCbcStage(ciphers, ci, SeedsOfUnit(ci, u));
    forall j: nat, z: Bytes ensures f(j, z) == StageOf(ciphers, ci, j, SeedOfUnit(ci, u, BlockSize(CipherAt(ci.ea, j))), z) {
      assert SeedsOfUnit(ci, u)(BlockSize(CipherAt(ci.ea, j))) == SeedOfUnit(ci, u, BlockSize(CipherAt(ci.ea, j)));
    }
    Staged(f, f, x);
    assert EncryptInnerUnit(ciphers, ci)(u, x) == Forward(f, CipherCount(ci.ea), x);
  }

  /** Main result on whole buffers in CBC modes: the IV is the beginning of the seed, the whitening its bytes 8 to 15. */
  lemma CbcWhole(ciphers: Ciphers, ci: CryptoInfo, data: Bytes)
    requires ValidInfo(ciphers, ci) && ci.mode != XTS && ci.mode != LRW && |data| < 0x1_0000_0000
    ensures var y := EncryptedBuffer(ciphers, ci, data);
            var seed := (j: nat) => UnitSeed(ci.k2[..BlockSize(CipherAt(ci.ea, j))], ci.k2[8..16]);
            && 1 <= CipherCount(ci.ea) <= 3
            && (ci.mode == OUTER_CBC ==>
                  y == CbcEncrypt(EncipherAll(ciphers, ci), FirstSize(ci), seed(0).iv, BlockWhite(seed(0).white, FirstSize(ci)), data))
            && (ci.mode != OUTER_CBC && CipherCount(ci.ea) == 1 ==> y == StageOf(ciphers, ci, 0, seed(0), data))
            && (ci.mode != OUTER_CBC && CipherCount(ci.ea) == 2 ==>
                  y == StageOf(ciphers, ci, 1, seed(1), StageOf(ciphers, ci, 0, seed(0), data)))
            && (ci.mode != OUTER_CBC && CipherCount(ci.ea) == 3 ==>
                  y == StageOf(ciphers, ci, 2, seed(2), StageOf(ciphers, ci, 1, seed(1), StageOf(ciphers, ci, 0, seed(0), data))))
  {
    hide CbcEncrypt; hide EncipherAll; hide BlockWhite; hide CipherAt; hide CipherCount; hide Forward; hide StageOf; hide Algorithm; hide KsOffset;
    hide SeedsOfBuffer; hide EncryptCbcStage; hide EncryptedBuffer;
    Counted(ci.ea);
    WholeUnfolded(ciphers, ci, data);
    SeedOfSize(ci, FirstSize(ci));
    InnerBuffer(ciphers, ci, data);
  }

  lemma WholeUnfolded(ciphers: Ciphers, ci: CryptoInfo, data: Bytes)
    requires ci.mode != XTS && ci.mode != LRW && |data| < 0x1_0000_0000
    ensures EncryptedBuffer(ciphers, ci, data)
         == if ci.mode == OUTER_CBC then
              var seed := SeedsOfBuffer(ci)(FirstSize(ci));
              CbcEncrypt(EncipherAll(ciphers, ci), FirstSize(ci), seed.iv, BlockWhite(seed.white, FirstSize(ci)), data)
            else
              Forward(EncryptCbcStage(ciphers, ci, SeedsOfBuffer(ci)), CipherCount(ci.ea), data)
  {
    WholeUsed(ciphers, ci, data);
    hide CbcEncrypt; hide EncipherAll; hide BlockWhite; hide FirstSize; hide CipherCount; hide Forward; hide SeedsOfBuffer; hide EncryptCbcStage;
    hide EncryptedBuffer; hide LrwEncrypt; hide Blocks; hide EncryptXtsStage;
  }

  lemma WholeUsed(ciphers: Ciphers, ci: CryptoInfo, data: Bytes)
    requires ci.mode == XTS || ci.mode == LRW || |data| < 0x1_0000_0000
    ensures EncryptedBuffer(ciphers, ci, data) == EncryptWhole(ciphers, ci, data)
    ensures DecryptedBuffer(ciphers, ci, data) == DecryptWhole(ciphers, ci, data)
  {
    hide EncryptWhole; hide DecryptWhole;
    assert data[..|data|] == data && data[|data|..] == [];
  }

  lemma SeedOfSize(ci: CryptoInfo, size: nat)
    requires |ci.k2| >= 32 && (size == 8 || size == 16)
    ensures SeedsOfBuffer(ci)(size) == UnitSeed(ci.k2[..size], ci.k2[8..16])
  {
    var n := if size == 8 then 8 else 16;
    assert SeedsOfBuffer(ci)(size) == SeedOfBuffer(ci, n);
    assert SeedOfBuffer(ci, n) == UnitSeed(ci.k2[..n], ci.k2[8..16]);
  }

  lemma InnerBuffer(ciphers: Ciphers, ci: CryptoInfo, x: Bytes)
    requires |ci.k2| >= 32
    ensures var seed := (j: nat) => UnitSeed(ci.k2[..BlockSize(CipherAt(ci.ea, j))], ci.k2[8..16]);
            var y := Forward(EncryptCbcStage(ciphers, ci, SeedsOfBuffer(ci)), CipherCount(ci.ea), x);
            && (CipherCount(ci.ea) == 1 ==> y == StageOf(ciphers, ci, 0, seed(0), x))
            && (CipherCount(ci.ea) == 2 ==> y == StageOf(ciphers, ci, 1, seed(1), StageOf(ciphers, ci, 0, seed(0), x)))
            && (CipherCount(ci.ea) == 3 ==>
                  y == StageOf(ciphers, ci, 2, seed(2), StageOf(ciphers, ci, 1, seed(1), StageOf(ciphers, ci, 0, seed(0), x))))
  {
    hide CbcEncrypt; hide CbcEncipher; hide BlockWhite; hide CipherAt; hide Forward; hide Backward; hide CipherCount; hide SeedsOfBuffer;
    var f := EncryptCbcStage(ciphers, ci, SeedsOfBuffer(ci));
    forall j: nat, z: Bytes ensures f(j, z) == StageOf(ciphers, ci, j, UnitSeed(ci.k2[..BlockSize(CipherAt(ci.ea, j))], ci.k2[8..16]), z) {
      SeedOfSize(ci, BlockSize(CipherAt(ci.ea, j)));
    }
    Staged(f, f, x);
  }

  // ---- IV and whitening ----

  /** Word i of the seed, with the unit number added. */
  function SeedWord(ci: CryptoInfo, unitNo: nat, i: nat): (x: Bytes)
    requires |ci.k2| >= 32 && i < 8
    ensures |x| == 4
  {
    seq(4, k requires 0 <= k < 4 => ci.k2[4 * i + k] ^ (ByteOf(unitNo, (4 * i + k) % 8) as bv8))
  }

  /** The four bytes of a CRC by arithmetic, the least significant one first. */
  function CrcBytes(x: Bytes): (r: Bytes)
    ensures |r| == 4
  {
    var crc := Crc.Crc32(x);
    [(crc % 0x100) as bv8, (crc / 0x100 % 0x100) as bv8, (crc / 0x1_0000 % 0x100) as bv8, (crc / 0x100_0000) as bv8]
  }

  /** Main result on seeds: the IV is the first block of the seed with the unit number added to every eight bytes of it;
      the whitening comes from the four words that follow, their CRCs added from outside in. */
  lemma SeedParts(ci: CryptoInfo, unitNo: nat, size: nat)
    requires |ci.k2| >= 32 && (size == 8 || size == 16)
    ensures var seed, w := SeedOfUnit(ci, unitNo, size), size / 4;
            && |seed.iv| == size && |seed.white| == 8
            && (forall k :: 0 <= k < size ==> seed.iv[k] == ci.k2[k] ^ (ByteOf(unitNo, k % 8) as bv8))
            && seed.white[..4] == Xor(CrcBytes(SeedWord(ci, unitNo, w)), CrcBytes(SeedWord(ci, unitNo, w + 3)))
            && seed.white[4..] == Xor(CrcBytes(SeedWord(ci, unitNo, w + 1)), CrcBytes(SeedWord(ci, unitNo, w + 2)))
            && |BlockWhite(seed.white, size)| == size && forall k :: 0 <= k < size ==> BlockWhite(seed.white, size)[k] == seed.white[k % 8]
  {
    hide Crc32Bytes; hide CrcBytes; hide ByteOf; hide SeedWord; hide SeedString;
    var s := SeedString(ci, unitNo);
    SeedUnfolded(ci, unitNo, size);
    forall k: nat | k < 32 ensures s[k] == ci.k2[k] ^ (ByteOf(unitNo, k % 8) as bv8) { SeedByte(ci, unitNo, k); }
    forall i: nat | i < 8 ensures Crc32Bytes(s[4 * i..4 * i + 4]) == CrcBytes(SeedWord(ci, unitNo, i)) {
      SeedWordIs(ci, unitNo, i);
      CrcBytesAre(s[4 * i..4 * i + 4]);
    }
    WhiteWords(s, ci, unitNo);
    WhiteBlock(SeedOfUnit(ci, unitNo, size).white, size);
    hide SeedOfUnit; hide BlockWhite; hide Xor;
  }

  function SeedString(ci: CryptoInfo, unitNo: nat): (s: Bytes)
    requires |ci.k2| >= 32
    ensures |s| == |ci.k2|
  {
    var n := LittleEndian(unitNo, 8);
    Xor(ci.k2, n + n + n + n)
  }

  /** The CRC of word i. */
  function WordCrc(s: Bytes, i: nat): Bytes
    requires 4 * i + 4 <= |s|
  {
    Crc32Bytes(s[4 * i..4 * i + 4])
  }

  lemma SeedUnfolded(ci: CryptoInfo, unitNo: nat, size: nat)
    requires |ci.k2| >= 32 && (size == 8 || size == 16)
    ensures var s, w := SeedString(ci, unitNo), size / 4;
            && |s| >= 32 && w + 3 < 8
            && SeedOfUnit(ci, unitNo, size)
               == UnitSeed(s[..size], Xor(WordCrc(s, w), WordCrc(s, w + 3)) + Xor(WordCrc(s, w + 1), WordCrc(s, w + 2)))
  {
    hide Crc32Bytes; hide Xor; hide LittleEndian;
  }

  lemma SeedByte(ci: CryptoInfo, unitNo: nat, k: nat)
    requires |ci.k2| >= 32 && k < 32
    ensures SeedString(ci, unitNo)[k] == ci.k2[k] ^ (ByteOf(unitNo, k % 8) as bv8)
  {
    hide ByteOf; hide LittleEndian;
    var n := LittleEndian(unitNo, 8);
    var nn := n + n + n + n;
    assert nn[k] == n[k % 8];
    LittleEndianBytes(unitNo, 8, k % 8);
  }

  lemma SeedWordIs(ci: CryptoInfo, unitNo: nat, i: nat)
    requires |ci.k2| >= 32 && i < 8
    ensures SeedString(ci, unitNo)[4 * i..4 * i + 4] == SeedWord(ci, unitNo, i)
  {
    hide SeedString; hide ByteOf;
    var a, b := SeedString(ci, unitNo)[4 * i..4 * i + 4], SeedWord(ci, unitNo, i);
    forall k: nat | k < 4 ensures a[k] == b[k] { SeedByte(ci, unitNo, 4 * i + k); }
  }

  lemma WhiteBlock(white: Bytes, size: nat)
    requires |white| == 8 && (size == 8 || size == 16)
    ensures |BlockWhite(white, size)| == size && forall k :: 0 <= k < size ==> BlockWhite(white, size)[k] == white[k % 8]
  {
  }

  lemma WhiteWords(s: Bytes, ci: CryptoInfo, unitNo: nat)
    requires |ci.k2| >= 32 && |s| >= 32
    requires forall i: nat :: i < 8 ==> Crc32Bytes(s[4 * i..4 * i + 4]) == CrcBytes(SeedWord(ci, unitNo, i))
    ensures Crc32Bytes(s[8..12]) == CrcBytes(SeedWord(ci, unitNo, 2)) && Crc32Bytes(s[12..16]) == CrcBytes(SeedWord(ci, unitNo, 3))
    ensures Crc32Bytes(s[16..20]) == CrcBytes(SeedWord(ci, unitNo, 4)) && Crc32Bytes(s[20..24]) == CrcBytes(SeedWord(ci, unitNo, 5))
    ensures Crc32Bytes(s[24..28]) == CrcBytes(SeedWord(ci, unitNo, 6)) && Crc32Bytes(s[28..32]) == CrcBytes(SeedWord(ci, unitNo, 7))
  {
    hide Crc32Bytes; hide CrcBytes; hide SeedWord;
    assert s[4 * 2..4 * 2 + 4] == s[8..12] && s[4 * 3..4 * 3 + 4] == s[12..16] && s[4 * 4..4 * 4 + 4] == s[16..20];
    assert s[4 * 5..4 * 5 + 4] == s[20..24] && s[4 * 6..4 * 6 + 4] == s[24..28] && s[4 * 7..4 * 7 + 4] == s[28..32];
  }

  lemma CrcBytesAre(x: Bytes)
    ensures Crc32Bytes(x) == CrcBytes(x)
  {
    hide Crc.Crc32; hide BytesOfWord; hide LowByte; hide DropByte;
    var v := Crc.Crc32(x);
    WordBytes(v);
  }

  lemma WordBytes(v: bv32)
    ensures BytesOfWord(Widen(v), 4)
         == [(v % 0x100) as bv8, (v / 0x100 % 0x100) as bv8, (v / 0x1_0000 % 0x100) as bv8, (v / 0x100_0000) as bv8]
  {
    hide BytesOfWord;
    var w := Widen(v);
    Gf.BytesAre(w, 4, 0);
    Gf.BytesAre(w, 4, 1);
    Gf.BytesAre(w, 4, 2);
    Gf.BytesAre(w, 4, 3);
    Gf.ByteIsShifted(w, 0);
    Gf.ByteIsShifted(w, 1);
    Gf.ByteIsShifted(w, 2);
    Gf.ByteIsShifted(w, 3);
    WordArithmetic(v);
    hide Widen; hide Gf.Shifted; hide Gf.Byte;
  }

  lemma WordArithmetic(v: bv32)
    ensures Gf.Shifted(Widen(v), 0) == (v % 0x100) as bv8 && Gf.Shifted(Widen(v), 1) == (v / 0x100 % 0x100) as bv8
    ensures Gf.Shifted(Widen(v), 2) == (v / 0x1_0000 % 0x100) as bv8 && Gf.Shifted(Widen(v), 3) == (v / 0x100_0000) as bv8
  {
  }
}
