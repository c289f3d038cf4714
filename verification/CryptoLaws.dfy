/** Decryption undoes encryption, and data units are independent of each other, in every mode. */
module CryptoLaws {
  import opened Arithmetic
  import opened CryptoModes
  import opened CryptoSpec

  /** Lengths a buffer may have: whole blocks of every cipher. */
  predicate WholeBlocks(ci: CryptoInfo, n: nat) {
    forall j :: 0 <= j < CipherCount(ci.ea) ==> n % BlockSize(CipherAt(ci.ea, j)) == 0
  }

  /** Cutting a length off to 32 bits leaves it a multiple of a block. */
  lemma CutOff(length: nat, size: nat)
    requires (size == 8 || size == 16) && length % size == 0
    ensures length % 0x1_0000_0000 % size == 0
  {
    var q, r := length / 0x1_0000_0000, length % 0x1_0000_0000;
    DivMod(length, 0x1_0000_0000);
    if size == 8 {
      MulAssoc(q, 0x2000_0000, 8);
      ModShift(r, q * 0x2000_0000, 8);
    } else {
      MulAssoc(q, 0x1000_0000, 16);
      ModShift(r, q * 0x1000_0000, 16);
    }
  }

  // ---- One block ----

  /** The ciphers of a cascade all have the block size of the first one, except in inner-CBC mode. */
  lemma SameSizes(ci: CryptoInfo, j: nat)
    requires IsAlgorithm(ci.ea) && ci.mode in Algorithm(ci.ea).modes && ci.mode != INNER_CBC && j < CipherCount(ci.ea)
    ensures BlockSize(CipherAt(ci.ea, j)) == FirstSize(ci)
  {
  }

  /** XTS is only used with blocks of sixteen bytes. */
  lemma XtsSize(ci: CryptoInfo, j: nat)
    requires IsAlgorithm(ci.ea) && ci.mode == XTS && XTS in Algorithm(ci.ea).modes && j < CipherCount(ci.ea)
    ensures BlockSize(CipherAt(ci.ea, j)) == 16
  {
  }

  lemma CascadeInverse(ciphers: Ciphers, ci: CryptoInfo, x: Bytes)
    requires Invertible(ciphers) && IsAlgorithm(ci.ea) && ci.mode in Algorithm(ci.ea).modes && ci.mode != INNER_CBC
    requires |x| == FirstSize(ci)
    ensures |EncipherAll(ciphers, ci)(x)| == |x|
    ensures DecipherAll(ciphers, ci)(EncipherAll(ciphers, ci)(x)) == x
  {
    var f, g, n := EncipherStage(ciphers, ci), DecipherStage(ciphers, ci), CipherCount(ci.ea);
    forall j: nat, y: Bytes | j < n && |y| == |x| ensures |f(j, y)| == |x| && g(j, f(j, y)) == y {
      SameSizes(ci, j);
      hide Algorithm; hide Schedule;
      assert ciphers.decipher(CipherAt(ci.ea, j), Schedule(ciphers, ci.ea, ci.ks, j),
                              ciphers.encipher(CipherAt(ci.ea, j), Schedule(ciphers, ci.ea, ci.ks, j), y)) == y;
    }
    CascadeUndone(g, f, n, |x|, x);
  }

  lemma LrwInverse(ciphers: Ciphers, ci: CryptoInfo)
    requires Invertible(ciphers) && IsAlgorithm(ci.ea) && ci.mode == LRW && LRW in Algorithm(ci.ea).modes
    ensures Undoes(LrwDecrypt(ciphers, ci, FirstSize(ci)), LrwEncrypt(ciphers, ci, FirstSize(ci)), FirstSize(ci))
  {
    hide Invertible; hide Xor; hide EncipherAll; hide DecipherAll; hide Algorithm; hide LrwTweak;
    var size := FirstSize(ci);
    forall n: nat, x: Bytes | |x| == size
      ensures |LrwEncrypt(ciphers, ci, size)(n, x)| == size
      ensures LrwDecrypt(ciphers, ci, size)(n, LrwEncrypt(ciphers, ci, size)(n, x)) == x
    {
      var t := LrwTweak(ci, size, n);
      CascadeInverse(ciphers, ci, Xor(x, t));
      XorTwice(EncipherAll(ciphers, ci)(Xor(x, t)), t);
      XorTwice(x, t);
    }
  }

  lemma XtsInverse(ciphers: Ciphers, cipher: nat, ks: Bytes, ks2: Bytes)
    requires Invertible(ciphers) && BlockSize(cipher) == 16
    ensures Undoes(XtsDecipher(ciphers, cipher, ks, ks2), XtsEncipher(ciphers, cipher, ks, ks2), 16)
  {
    hide Xor; hide XtsTweak;
    forall n: nat, x: Bytes | |x| == 16
      ensures |XtsEncipher(ciphers, cipher, ks, ks2)(n, x)| == 16
      ensures XtsDecipher(ciphers, cipher, ks, ks2)(n, XtsEncipher(ciphers, cipher, ks, ks2)(n, x)) == x
    {
      var t := XtsTweak(ciphers, cipher, ks2, n);
      var y := Xor(x, t);
      assert |ciphers.encipher(cipher, ks, y)| == 16;
      XorTwice(ciphers.encipher(cipher, ks, y), t);
      XorTwice(x, t);
    }
  }

  // ---- Whole buffers ----

  lemma XtsStages(ciphers: Ciphers, ci: CryptoInfo, unitNo: nat, length: nat)
    requires Invertible(ciphers) && ValidInfo(ciphers, ci) && ci.mode == XTS && length % 16 == 0
    ensures StagesUndone(DecryptXtsStage(ciphers, ci, unitNo), EncryptXtsStage(ciphers, ci, unitNo), CipherCount(ci.ea), length)
  {
    hide Blocks; hide Algorithm; hide KsOffset; hide Schedule; hide XtsEncipher; hide XtsDecipher; hide Invertible;
    forall j: nat, x: Bytes | j < CipherCount(ci.ea) && |x| == length
      ensures |EncryptXtsStage(ciphers, ci, unitNo)(j, x)| == length
      ensures DecryptXtsStage(ciphers, ci, unitNo)(j, EncryptXtsStage(ciphers, ci, unitNo)(j, x)) == x
    {
      var c, k, k2 := CipherAt(ci.ea, j), Schedule(ciphers, ci.ea, ci.ks, j), Schedule(ciphers, ci.ea, ci.ks2, j);
      XtsSize(ci, j);
      XtsInverse(ciphers, c, k, k2);
      UndoneKeeps(XtsDecipher(ciphers, c, k, k2), XtsEncipher(ciphers, c, k, k2), 16);
      BlocksLength(XtsEncipher(ciphers, c, k, k2), XTS_MODULUS, 16, unitNo * BLOCKS_PER_XTS_DATA_UNIT, x);
      BlocksUndone(XtsDecipher(ciphers, c, k, k2), XtsEncipher(ciphers, c, k, k2), XTS_MODULUS, 16, unitNo * BLOCKS_PER_XTS_DATA_UNIT, x);
    }
  }

  lemma UndoneKeeps(g: Numbered, f: Numbered, size: nat)
    requires Undoes(g, f, size)
    ensures Keeps(f, size)
  {
    forall n: nat, x: Bytes | |x| == size ensures |f(n, x)| == size { assert g(n, f(n, x)) == x; }
  }

  lemma CbcStages(ciphers: Ciphers, ci: CryptoInfo, seed: nat -> UnitSeed, length: nat)
    requires Invertible(ciphers) && IsAlgorithm(ci.ea) && WholeBlocks(ci, length)
    ensures StagesUndone(DecryptCbcStage(ciphers, ci, seed), EncryptCbcStage(ciphers, ci, seed), CipherCount(ci.ea), length)
  {
    hide Algorithm; hide Schedule; hide CbcEncrypt; hide CbcDecrypt; hide BlockWhite;
    forall j: nat, x: Bytes | j < CipherCount(ci.ea) && |x| == length
      ensures |EncryptCbcStage(ciphers, ci, seed)(j, x)| == length
      ensures DecryptCbcStage(ciphers, ci, seed)(j, EncryptCbcStage(ciphers, ci, seed)(j, x)) == x
    {
      var size := BlockSize(CipherAt(ci.ea, j));
      CbcBlockInverse(ciphers, ci, j);
      CbcUndone(CbcDecipher(ciphers, ci, j), CbcEncipher(ciphers, ci, j), size, seed(size).iv, BlockWhite(seed(size).white, size), x);
    }
  }

  lemma CbcBlockInverse(ciphers: Ciphers, ci: CryptoInfo, j: nat)
    requires Invertible(ciphers)
    ensures UndoesBlock(CbcDecipher(ciphers, ci, j), CbcEncipher(ciphers, ci, j), BlockSize(CipherAt(ci.ea, j)))
  {
    hide Algorithm; hide Schedule;
    var c, k := CipherAt(ci.ea, j), Schedule(ciphers, ci.ea, ci.ks, j);
    forall x: Bytes | |x| == BlockSize(c)
      ensures |CbcEncipher(ciphers, ci, j)(x)| == |x| && CbcDecipher(ciphers, ci, j)(CbcEncipher(ciphers, ci, j)(x)) == x
    {
      assert CbcEncipher(ciphers, ci, j)(x) == EncipherStage(ciphers, ci)(j, x) == ciphers.encipher(c, k, x);
      var y := ciphers.encipher(c, k, x);
      assert CbcDecipher(ciphers, ci, j)(y) == DecipherStage(ciphers, ci)(j, y) == ciphers.decipher(c, k, y);
    }
  }

  lemma OuterBlockInverse(ciphers: Ciphers, ci: CryptoInfo)
    requires Invertible(ciphers) && IsAlgorithm(ci.ea) && ci.mode in Algorithm(ci.ea).modes && ci.mode != INNER_CBC
    ensures UndoesBlock(DecipherAll(ciphers, ci), EncipherAll(ciphers, ci), FirstSize(ci))
  {
    hide Invertible; hide EncipherAll; hide DecipherAll; hide Algorithm;
    forall x: Bytes | |x| == FirstSize(ci)
      ensures |EncipherAll(ciphers, ci)(x)| == FirstSize(ci) && DecipherAll(ciphers, ci)(EncipherAll(ciphers, ci)(x)) == x
    {
      CascadeInverse(ciphers, ci, x);
    }
  }

  lemma UnitIsWholeBlocks(ci: CryptoInfo)
    ensures WholeBlocks(ci, ENCRYPTION_DATA_UNIT_SIZE)
  {
  }

  lemma InnerUnitInverse(ciphers: Ciphers, ci: CryptoInfo)
    requires Invertible(ciphers) && IsAlgorithm(ci.ea)
    ensures Undoes(DecryptInnerUnit(ciphers, ci), EncryptInnerUnit(ciphers, ci), ENCRYPTION_DATA_UNIT_SIZE)
  {
    hide Invertible; hide Forward; hide Backward; hide EncryptCbcStage; hide DecryptCbcStage; hide Algorithm; hide SeedsOfUnit;
    forall n: nat, x: Bytes | |x| == ENCRYPTION_DATA_UNIT_SIZE
      ensures |EncryptInnerUnit(ciphers, ci)(n, x)| == |x|
      ensures DecryptInnerUnit(ciphers, ci)(n, EncryptInnerUnit(ciphers, ci)(n, x)) == x
    {
      var seed := SeedsOfUnit(ci, n);
      UnitIsWholeBlocks(ci);
      CbcStages(ciphers, ci, seed, |x|);
      CascadeUndone(DecryptCbcStage(ciphers, ci, seed), EncryptCbcStage(ciphers, ci, seed), CipherCount(ci.ea), |x|, x);
    }
  }

  lemma OuterUnitInverse(ciphers: Ciphers, ci: CryptoInfo)
    requires Invertible(ciphers) && IsAlgorithm(ci.ea) && ci.mode in Algorithm(ci.ea).modes && ci.mode != INNER_CBC
    ensures Undoes(DecryptOuterUnit(ciphers, ci), EncryptOuterUnit(ciphers, ci), ENCRYPTION_DATA_UNIT_SIZE)
  {
    hide Invertible; hide EncipherAll; hide DecipherAll; hide Algorithm; hide SeedOfUnit; hide BlockWhite; hide CbcEncrypt; hide CbcDecrypt;
    var size := FirstSize(ci);
    OuterBlockInverse(ciphers, ci);
    forall n: nat, x: Bytes | |x| == ENCRYPTION_DATA_UNIT_SIZE
      ensures |EncryptOuterUnit(ciphers, ci)(n, x)| == |x|
      ensures DecryptOuterUnit(ciphers, ci)(n, EncryptOuterUnit(ciphers, ci)(n, x)) == x
    {
      var seed := SeedOfUnit(ci, n, size);
      CbcUndone(DecipherAll(ciphers, ci), EncipherAll(ciphers, ci), size, seed.iv, BlockWhite(seed.white, size), x);
    }
  }

  lemma UnitsAreBlocks(ci: CryptoInfo, n: nat)
    requires n % ENCRYPTION_DATA_UNIT_SIZE == 0
    ensures n % FirstSize(ci) == 0 && n % 16 == 0
  {
  }

  /** Main result: DecryptDataUnitsCurrentThread undoes EncryptDataUnitsCurrentThread, for every
      encryption algorithm and mode, any number of data units and any unit number. */
  lemma UnitsInverse(ciphers: Ciphers, ci: CryptoInfo, unitNo: nat, data: Bytes)
    requires Invertible(ciphers) && ValidInfo(ciphers, ci) && |data| % ENCRYPTION_DATA_UNIT_SIZE == 0
    ensures DecryptUnits(ciphers, ci, unitNo, EncryptUnits(ciphers, ci, unitNo, data)) == data
  {
    hide Invertible; hide Blocks; hide Forward; hide Backward; hide UnitToLrwIndex; hide EncryptXtsStage; hide DecryptXtsStage; hide Algorithm;
    hide LrwEncrypt; hide LrwDecrypt; hide EncryptInnerUnit; hide DecryptInnerUnit; hide EncryptOuterUnit; hide DecryptOuterUnit;
    UnitsAreBlocks(ci, |data|);
    match ci.mode
    case XTS =>
      XtsStages(ciphers, ci, unitNo, |data|);
      CascadeUndone(DecryptXtsStage(ciphers, ci, unitNo), EncryptXtsStage(ciphers, ci, unitNo), CipherCount(ci.ea), |data|, data);
    case LRW =>
      LrwInverse(ciphers, ci);
      BlocksUndone(LrwDecrypt(ciphers, ci, FirstSize(ci)), LrwEncrypt(ciphers, ci, FirstSize(ci)), TWO_TO_THE_64, FirstSize(ci),
                   UnitToLrwIndex(ci, unitNo, FirstSize(ci)), data);
    case OUTER_CBC =>
      OuterUnitInverse(ciphers, ci);
      BlocksUndone(DecryptOuterUnit(ciphers, ci), EncryptOuterUnit(ciphers, ci), TWO_TO_THE_64, ENCRYPTION_DATA_UNIT_SIZE, unitNo, data);
    case _ =>
      InnerUnitInverse(ciphers, ci);
      BlocksUndone(DecryptInnerUnit(ciphers, ci), EncryptInnerUnit(ciphers, ci), TWO_TO_THE_64, ENCRYPTION_DATA_UNIT_SIZE, unitNo, data);
  }

  /** Main result: DecryptBuffer undoes EncryptBuffer on whole blocks of all ciphers. */
  lemma WholeInverse(ciphers: Ciphers, ci: CryptoInfo, data: Bytes)
    requires Invertible(ciphers) && ValidInfo(ciphers, ci) && WholeBlocks(ci, |data|)
    ensures DecryptWhole(ciphers, ci, EncryptWhole(ciphers, ci, data)) == data
  {
    hide Invertible; hide Blocks; hide Forward; hide Backward; hide EncryptXtsStage; hide DecryptXtsStage; hide SeedsOfBuffer; hide BlockWhite;
    hide LrwEncrypt; hide LrwDecrypt; hide CbcEncrypt; hide CbcDecrypt; hide EncipherAll; hide DecipherAll; hide EncryptCbcStage; hide DecryptCbcStage;
    FirstCipher(ci);
    match ci.mode
    case XTS =>
      XtsStages(ciphers, ci, 0, |data|);
      CascadeUndone(DecryptXtsStage(ciphers, ci, 0), EncryptXtsStage(ciphers, ci, 0), CipherCount(ci.ea), |data|, data);
    case LRW =>
      LrwInverse(ciphers, ci);
      BlocksUndone(LrwDecrypt(ciphers, ci, FirstSize(ci)), LrwEncrypt(ciphers, ci, FirstSize(ci)), TWO_TO_THE_64, FirstSize(ci), 1, data);
    case OUTER_CBC =>
      var seed := SeedsOfBuffer(ci)(FirstSize(ci));
      OuterBlockInverse(ciphers, ci);
      CbcUndone(DecipherAll(ciphers, ci), EncipherAll(ciphers, ci), FirstSize(ci), seed.iv, BlockWhite(seed.white, FirstSize(ci)), data);
    case _ =>
      CbcStages(ciphers, ci, SeedsOfBuffer(ci), |data|);
      CascadeUndone(DecryptCbcStage(ciphers, ci, SeedsOfBuffer(ci)), EncryptCbcStage(ciphers, ci, SeedsOfBuffer(ci)), CipherCount(ci.ea), |data|, data);
  }

  lemma FirstCipher(ci: CryptoInfo)
    requires IsAlgorithm(ci.ea)
    ensures CipherCount(ci.ea) > 0
  {
  }

  // ---- Data units are independent ----

  /** The property on which the thread pool relies: a buffer may be split at a data unit boundary. */
  lemma UnitNumbered(f: Numbered, unitNo: nat, a: Bytes, b: Bytes)
    requires |a| % ENCRYPTION_DATA_UNIT_SIZE == 0 && unitNo < TWO_TO_THE_64
    ensures Blocks(f, TWO_TO_THE_64, ENCRYPTION_DATA_UNIT_SIZE, unitNo, a + b)
         == Blocks(f, TWO_TO_THE_64, ENCRYPTION_DATA_UNIT_SIZE, unitNo, a)
            + Blocks(f, TWO_TO_THE_64, ENCRYPTION_DATA_UNIT_SIZE, (unitNo + |a| / ENCRYPTION_DATA_UNIT_SIZE) % TWO_TO_THE_64, b)
  {
    BlocksSplit(f, TWO_TO_THE_64, ENCRYPTION_DATA_UNIT_SIZE, unitNo, a, b);
  }

  /** The LRW index runs on over unit boundaries. */
  lemma LrwIndexRunsOn(ci: CryptoInfo, unitNo: nat, size: nat, units: nat)
    requires size == 8 || size == 16
    ensures UnitToLrwIndex(ci, (unitNo + units) % TWO_TO_THE_64, size)
         == (UnitToLrwIndex(ci, unitNo, size) + units * (ENCRYPTION_DATA_UNIT_SIZE / size)) % TWO_TO_THE_64
  {
    var first := if ci.hiddenVolume then ci.hiddenVolumeOffset / ENCRYPTION_DATA_UNIT_SIZE
    else TC_VOLUME_HEADER_SIZE_LEGACY / ENCRYPTION_DATA_UNIT_SIZE;
    var k := ENCRYPTION_DATA_UNIT_SIZE / size;
    AffineRunsOn(unitNo, units, first, k, TWO_TO_THE_64);
  }

  lemma AffineRunsOn(u: int, n: int, f: int, k: int, m: nat)
    requires m > 0
    ensures (((u + n) % m - f) * k + 1) % m == (((u - f) * k + 1) % m + n * k) % m
  {
    MulDist((u + n) % m, -f, k);
    ModLinear(u + n, m, k, (-f) * k + 1);
    MulDist(u, n, k);
    MulDist(u, -f, k);
    ModLinear((u - f) * k + 1, m, 1, n * k);
  }

  /** So does the XTS block number. */
  lemma XtsNumberRunsOn(unitNo: nat, units: nat)
    ensures ((unitNo + units) % TWO_TO_THE_64) * BLOCKS_PER_XTS_DATA_UNIT
         == (unitNo * BLOCKS_PER_XTS_DATA_UNIT + units * BLOCKS_PER_XTS_DATA_UNIT) % XTS_MODULUS
  {
  }

  lemma XtsSplit(ciphers: Ciphers, cipher: nat, ks: Bytes, ks2: Bytes, unitNo: nat, a: Bytes, b: Bytes)
    requires |a| % ENCRYPTION_DATA_UNIT_SIZE == 0 && unitNo < TWO_TO_THE_64
    ensures EncryptXts(ciphers, cipher, ks, ks2, unitNo, a + b)
         == EncryptXts(ciphers, cipher, ks, ks2, unitNo, a)
            + EncryptXts(ciphers, cipher, ks, ks2, (unitNo + |a| / ENCRYPTION_DATA_UNIT_SIZE) % TWO_TO_THE_64, b)
    ensures DecryptXts(ciphers, cipher, ks, ks2, unitNo, a + b)
         == DecryptXts(ciphers, cipher, ks, ks2, unitNo, a)
            + DecryptXts(ciphers, cipher, ks, ks2, (unitNo + |a| / ENCRYPTION_DATA_UNIT_SIZE) % TWO_TO_THE_64, b)
  {
    hide XtsEncipher; hide XtsDecipher; hide Blocks;
    var units := |a| / ENCRYPTION_DATA_UNIT_SIZE;
    XtsNumberRunsOn(unitNo, units);
    BlocksInUnits(|a|);
    BlocksSplit(XtsEncipher(ciphers, cipher, ks, ks2), XTS_MODULUS, 16, unitNo * BLOCKS_PER_XTS_DATA_UNIT, a, b);
    BlocksSplit(XtsDecipher(ciphers, cipher, ks, ks2), XTS_MODULUS, 16, unitNo * BLOCKS_PER_XTS_DATA_UNIT, a, b);
  }

  lemma BlocksInUnits(n: nat)
    requires n % ENCRYPTION_DATA_UNIT_SIZE == 0
    ensures n % 16 == 0 && n / 16 == n / ENCRYPTION_DATA_UNIT_SIZE * 32
    ensures n % 8 == 0 && n / 8 == n / ENCRYPTION_DATA_UNIT_SIZE * 64
  {
    var q := n / ENCRYPTION_DATA_UNIT_SIZE;
    assert n == 16 * (32 * q) && n == 8 * (64 * q);
  }

  lemma XtsStageSplit(ciphers: Ciphers, ci: CryptoInfo, unitNo: nat, j: nat, a: Bytes, b: Bytes)
    requires |a| % ENCRYPTION_DATA_UNIT_SIZE == 0 && unitNo < TWO_TO_THE_64
    ensures var next := (unitNo + |a| / ENCRYPTION_DATA_UNIT_SIZE) % TWO_TO_THE_64;
            && EncryptXtsStage(ciphers, ci, unitNo)(j, a + b)
               == EncryptXtsStage(ciphers, ci, unitNo)(j, a) + EncryptXtsStage(ciphers, ci, next)(j, b)
            && DecryptXtsStage(ciphers, ci, unitNo)(j, a + b)
               == DecryptXtsStage(ciphers, ci, unitNo)(j, a) + DecryptXtsStage(ciphers, ci, next)(j, b)
  {
    hide Schedule; hide EncryptXts; hide DecryptXts; hide Algorithm;
    XtsSplit(ciphers, CipherAt(ci.ea, j), Schedule(ciphers, ci.ea, ci.ks, j), Schedule(ciphers, ci.ea, ci.ks2, j), unitNo, a, b);
  }

  /** Deciphering keeps lengths as well. */
  ghost predicate LengthPreserving(ciphers: Ciphers) {
    forall cipher: nat, ks: Bytes, x: Bytes :: |x| == BlockSize(cipher) ==>
                                                 |ciphers.encipher(cipher, ks, x)| == |x| && |ciphers.decipher(cipher, ks, x)| == |x|
  }

  lemma XtsStageLength(ciphers: Ciphers, ci: CryptoInfo, unitNo: nat, j: nat, x: Bytes)
    requires LengthPreserving(ciphers) && ValidInfo(ciphers, ci) && ci.mode == XTS && |x| % 16 == 0 && j < CipherCount(ci.ea)
    ensures |EncryptXtsStage(ciphers, ci, unitNo)(j, x)| == |x|
    ensures |DecryptXtsStage(ciphers, ci, unitNo)(j, x)| == |x|
  {
    hide Schedule; hide Blocks; hide Algorithm; hide KsOffset; hide XtsEncipher; hide XtsDecipher; hide LengthPreserving;
    var c, k, k2 := CipherAt(ci.ea, j), Schedule(ciphers, ci.ea, ci.ks, j), Schedule(ciphers, ci.ea, ci.ks2, j);
    XtsSize(ci, j);
    XtsKeeps(ciphers, c, k, k2);
    BlocksLength(XtsEncipher(ciphers, c, k, k2), XTS_MODULUS, 16, unitNo * BLOCKS_PER_XTS_DATA_UNIT, x);
    BlocksLength(XtsDecipher(ciphers, c, k, k2), XTS_MODULUS, 16, unitNo * BLOCKS_PER_XTS_DATA_UNIT, x);
  }

  lemma XtsKeeps(ciphers: Ciphers, cipher: nat, ks: Bytes, ks2: Bytes)
    requires LengthPreserving(ciphers) && BlockSize(cipher) == 16
    ensures Keeps(XtsEncipher(ciphers, cipher, ks, ks2), 16) && Keeps(XtsDecipher(ciphers, cipher, ks, ks2), 16)
  {
    hide Xor; hide XtsTweak;
    forall n: nat, x: Bytes | |x| == 16
      ensures |XtsEncipher(ciphers, cipher, ks, ks2)(n, x)| == 16 && |XtsDecipher(ciphers, cipher, ks, ks2)(n, x)| == 16
    {
      var y := Xor(x, XtsTweak(ciphers, cipher, ks2, n));
      assert |ciphers.encipher(cipher, ks, y)| == 16;
    }
  }

  lemma {:induction false} XtsForwardSplit(ciphers: Ciphers, ci: CryptoInfo, unitNo: nat, n: nat, a: Bytes, b: Bytes)
    requires LengthPreserving(ciphers) && ValidInfo(ciphers, ci) && ci.mode == XTS && n <= CipherCount(ci.ea)
    requires |a| % ENCRYPTION_DATA_UNIT_SIZE == 0 && unitNo < TWO_TO_THE_64
    ensures var next := (unitNo + |a| / ENCRYPTION_DATA_UNIT_SIZE) % TWO_TO_THE_64;
            Forward(EncryptXtsStage(ciphers, ci, unitNo), n, a + b)
            == Forward(EncryptXtsStage(ciphers, ci, unitNo), n, a) + Forward(EncryptXtsStage(ciphers, ci, next), n, b)
    ensures |Forward(EncryptXtsStage(ciphers, ci, unitNo), n, a)| == |a|
  {
    hide EncryptXtsStage; hide Algorithm; hide KsOffset; hide LengthPreserving;
    if n > 0 {
      var next := (unitNo + |a| / ENCRYPTION_DATA_UNIT_SIZE) % TWO_TO_THE_64;
      XtsForwardSplit(ciphers, ci, unitNo, n - 1, a, b);
      var x := Forward(EncryptXtsStage(ciphers, ci, unitNo), n - 1, a);
      UnitsAreBlocks(ci, |a|);
      XtsStageSplit(ciphers, ci, unitNo, n - 1, x, Forward(EncryptXtsStage(ciphers, ci, next), n - 1, b));
      XtsStageLength(ciphers, ci, unitNo, n - 1, x);
    }
  }

  lemma {:induction false} XtsBackwardSplit(ciphers: Ciphers, ci: CryptoInfo, unitNo: nat, n: nat, a: Bytes, b: Bytes)
    requires LengthPreserving(ciphers) && ValidInfo(ciphers, ci) && ci.mode == XTS && n <= CipherCount(ci.ea)
    requires |a| % ENCRYPTION_DATA_UNIT_SIZE == 0 && unitNo < TWO_TO_THE_64
    ensures var next := (unitNo + |a| / ENCRYPTION_DATA_UNIT_SIZE) % TWO_TO_THE_64;
            Backward(DecryptXtsStage(ciphers, ci, unitNo), n, a + b)
            == Backward(DecryptXtsStage(ciphers, ci, unitNo), n, a) + Backward(DecryptXtsStage(ciphers, ci, next), n, b)
    ensures |Backward(DecryptXtsStage(ciphers, ci, unitNo), n, a)| == |a|
    decreases n
  {
    hide DecryptXtsStage; hide Algorithm; hide KsOffset; hide LengthPreserving;
    if n > 0 {
      var next := (unitNo + |a| / ENCRYPTION_DATA_UNIT_SIZE) % TWO_TO_THE_64;
      UnitsAreBlocks(ci, |a|);
      XtsStageSplit(ciphers, ci, unitNo, n - 1, a, b);
      XtsStageLength(ciphers, ci, unitNo, n - 1, a);
      XtsBackwardSplit(ciphers, ci, unitNo, n - 1, DecryptXtsStage(ciphers, ci, unitNo)(n - 1, a), DecryptXtsStage(ciphers, ci, next)(n - 1, b));
    }
  }

  /** Main result: encrypting or decrypting data units in one call is the same as in two calls, the
      second one with the number of its own first unit, in every mode. */
  lemma UnitsSplit(ciphers: Ciphers, ci: CryptoInfo, unitNo: nat, a: Bytes, b: Bytes)
    requires LengthPreserving(ciphers) && ValidInfo(ciphers, ci)
    requires |a| % ENCRYPTION_DATA_UNIT_SIZE == 0 && unitNo < TWO_TO_THE_64
    ensures var next := (unitNo + |a| / ENCRYPTION_DATA_UNIT_SIZE) % TWO_TO_THE_64;
            && EncryptUnits(ciphers, ci, unitNo, a + b) == EncryptUnits(ciphers, ci, unitNo, a) + EncryptUnits(ciphers, ci, next, b)
            && DecryptUnits(ciphers, ci, unitNo, a + b) == DecryptUnits(ciphers, ci, unitNo, a) + DecryptUnits(ciphers, ci, next, b)
  {
    hide Blocks; hide Forward; hide Backward; hide EncryptXtsStage; hide DecryptXtsStage; hide Algorithm; hide LengthPreserving; hide UnitToLrwIndex;
    hide LrwEncrypt; hide LrwDecrypt; hide EncryptInnerUnit; hide DecryptInnerUnit; hide EncryptOuterUnit; hide DecryptOuterUnit; hide KsOffset;
    match ci.mode
    case XTS =>
      XtsForwardSplit(ciphers, ci, unitNo, CipherCount(ci.ea), a, b);
      XtsBackwardSplit(ciphers, ci, unitNo, CipherCount(ci.ea), a, b);
    case LRW => LrwUnitsSplit(ciphers, ci, unitNo, a, b);
    case OUTER_CBC =>
      UnitNumbered(EncryptOuterUnit(ciphers, ci), unitNo, a, b);
      UnitNumbered(DecryptOuterUnit(ciphers, ci), unitNo, a, b);
    case _ =>
      UnitNumbered(EncryptInnerUnit(ciphers, ci), unitNo, a, b);
      UnitNumbered(DecryptInnerUnit(ciphers, ci), unitNo, a, b);
  }

  lemma LrwUnitsSplit(ciphers: Ciphers, ci: CryptoInfo, unitNo: nat, a: Bytes, b: Bytes)
    requires ci.mode == LRW && |a| % ENCRYPTION_DATA_UNIT_SIZE == 0
    ensures var next := (unitNo + |a| / ENCRYPTION_DATA_UNIT_SIZE) % TWO_TO_THE_64;
            && EncryptUnits(ciphers, ci, unitNo, a + b) == EncryptUnits(ciphers, ci, unitNo, a) + EncryptUnits(ciphers, ci, next, b)
            && DecryptUnits(ciphers, ci, unitNo, a + b) == DecryptUnits(ciphers, ci, unitNo, a) + DecryptUnits(ciphers, ci, next, b)
  {
    hide Blocks; hide LrwEncrypt; hide LrwDecrypt; hide UnitToLrwIndex; hide Algorithm;
    var size, units := FirstSize(ci), |a| / ENCRYPTION_DATA_UNIT_SIZE;
    BlocksInUnits(|a|);
    LrwIndexRunsOn(ci, unitNo, size, units);
    LrwIndexBound(ci, unitNo, size);
    BlocksSplit(LrwEncrypt(ciphers, ci, size), TWO_TO_THE_64, size, UnitToLrwIndex(ci, unitNo, size), a, b);
    BlocksSplit(LrwDecrypt(ciphers, ci, size), TWO_TO_THE_64, size, UnitToLrwIndex(ci, unitNo, size), a, b);
  }

  lemma LrwIndexBound(ci: CryptoInfo, unitNo: nat, size: nat)
    requires size == 8 || size == 16
    ensures UnitToLrwIndex(ci, unitNo, size) < TWO_TO_THE_64
  {
  }

  lemma {:induction false} CbcLength(e: Block, size: nat, chain: Bytes, white: Bytes, data: Bytes)
    requires size > 0 && |data| % size == 0 && forall x: Bytes :: |x| == size ==> |e(x)| == size
    ensures |CbcEncrypt(e, size, chain, white, data)| == |data| && |CbcDecrypt(e, size, chain, white, data)| == |data|
    decreases |data|
  {
    hide Xor;
    WholeBlocksLeft(|data|, size);
    if |data| >= size {
      CbcLength(e, size, e(Xor(data[..size], chain)), white, data[size..]);
      CbcLength(e, size, Xor(data[..size], white), white, data[size..]);
    }
  }

  lemma {:induction false} StagesLength(f: Numbered, n: nat, length: nat, x: Bytes)
    requires |x| == length && forall j: nat, y: Bytes :: j < n && |y| == length ==> |f(j, y)| == length
    ensures |Forward(f, n, x)| == length && |Backward(f, n, x)| == length
    decreases n
  {
    if n > 0 {
      StagesLength(f, n - 1, length, x);
      StagesLength(f, n - 1, length, f(n - 1, x));
    }
  }

  lemma CascadeLength(ciphers: Ciphers, ci: CryptoInfo, x: Bytes)
    requires LengthPreserving(ciphers) && IsAlgorithm(ci.ea) && ci.mode in Algorithm(ci.ea).modes && ci.mode != INNER_CBC
    requires |x| == FirstSize(ci)
    ensures |EncipherAll(ciphers, ci)(x)| == |x| && |DecipherAll(ciphers, ci)(x)| == |x|
  {
    var f, g, n := EncipherStage(ciphers, ci), DecipherStage(ciphers, ci), CipherCount(ci.ea);
    forall j: nat, y: Bytes | j < n && |y| == |x| ensures |f(j, y)| == |x| && |g(j, y)| == |x| {
      SameSizes(ci, j);
      hide Algorithm; hide Schedule;
      assert |ciphers.encipher(CipherAt(ci.ea, j), Schedule(ciphers, ci.ea, ci.ks, j), y)| == |x|;
    }
    StagesLength(f, n, |x|, x);
    StagesLength(g, n, |x|, x);
  }

  lemma CbcStageLengths(ciphers: Ciphers, ci: CryptoInfo, seed: nat -> UnitSeed, length: nat)
    requires LengthPreserving(ciphers) && IsAlgorithm(ci.ea) && WholeBlocks(ci, length)
    ensures forall j: nat, x: Bytes :: j < CipherCount(ci.ea) && |x| == length ==>
                                         && |EncryptCbcStage(ciphers, ci, seed)(j, x)| == length
                                         && |DecryptCbcStage(ciphers, ci, seed)(j, x)| == length
  {
    hide Algorithm; hide Schedule; hide CbcEncrypt; hide CbcDecrypt; hide BlockWhite;
    forall j: nat, x: Bytes | j < CipherCount(ci.ea) && |x| == length
      ensures |EncryptCbcStage(ciphers, ci, seed)(j, x)| == length
      ensures |DecryptCbcStage(ciphers, ci, seed)(j, x)| == length
    {
      var size := BlockSize(CipherAt(ci.ea, j));
      OneCipherLength(ciphers, ci, j);
      CbcLength(CbcEncipher(ciphers, ci, j), size, seed(size).iv, BlockWhite(seed(size).white, size), x);
      CbcLength(CbcDecipher(ciphers, ci, j), size, seed(size).iv, BlockWhite(seed(size).white, size), x);
    }
  }

  lemma OneCipherLength(ciphers: Ciphers, ci: CryptoInfo, j: nat)
    requires LengthPreserving(ciphers)
    ensures forall x: Bytes :: |x| == BlockSize(CipherAt(ci.ea, j)) ==>
                                 |CbcEncipher(ciphers, ci, j)(x)| == |x| && |CbcDecipher(ciphers, ci, j)(x)| == |x|
  {
    hide Algorithm; hide Schedule;
    var c, k := CipherAt(ci.ea, j), Schedule(ciphers, ci.ea, ci.ks, j);
    forall x: Bytes | |x| == BlockSize(c)
      ensures |CbcEncipher(ciphers, ci, j)(x)| == |x| && |CbcDecipher(ciphers, ci, j)(x)| == |x|
    {
      assert CbcEncipher(ciphers, ci, j)(x) == EncipherStage(ciphers, ci)(j, x) == ciphers.encipher(c, k, x);
      assert CbcDecipher(ciphers, ci, j)(x) == DecipherStage(ciphers, ci)(j, x) == ciphers.decipher(c, k, x);
    }
  }

  lemma UnitKeeps(ciphers: Ciphers, ci: CryptoInfo)
    requires LengthPreserving(ciphers) && ValidInfo(ciphers, ci)
    ensures Keeps(EncryptInnerUnit(ciphers, ci), ENCRYPTION_DATA_UNIT_SIZE) && Keeps(DecryptInnerUnit(ciphers, ci), ENCRYPTION_DATA_UNIT_SIZE)
    ensures ci.mode == OUTER_CBC ==>
              && Keeps(EncryptOuterUnit(ciphers, ci), ENCRYPTION_DATA_UNIT_SIZE)
              && Keeps(DecryptOuterUnit(ciphers, ci), ENCRYPTION_DATA_UNIT_SIZE)
  {
    hide LengthPreserving; hide Forward; hide Backward; hide EncryptCbcStage; hide DecryptCbcStage; hide Algorithm; hide SeedOfUnit; hide SeedsOfUnit;
    hide EncipherAll; hide DecipherAll; hide CbcEncrypt; hide CbcDecrypt; hide BlockWhite; hide KsOffset;
    UnitIsWholeBlocks(ci);
    forall n: nat, x: Bytes | |x| == ENCRYPTION_DATA_UNIT_SIZE
      ensures |EncryptInnerUnit(ciphers, ci)(n, x)| == |x| && |DecryptInnerUnit(ciphers, ci)(n, x)| == |x|
      ensures ci.mode == OUTER_CBC ==> |EncryptOuterUnit(ciphers, ci)(n, x)| == |x| && |DecryptOuterUnit(ciphers, ci)(n, x)| == |x|
    {
      CbcStageLengths(ciphers, ci, SeedsOfUnit(ci, n), |x|);
      StagesLength(EncryptCbcStage(ciphers, ci, SeedsOfUnit(ci, n)), CipherCount(ci.ea), |x|, x);
      StagesLength(DecryptCbcStage(ciphers, ci, SeedsOfUnit(ci, n)), CipherCount(ci.ea), |x|, x);
      if ci.mode == OUTER_CBC {
        forall y: Bytes | |y| == FirstSize(ci) ensures |EncipherAll(ciphers, ci)(y)| == |y| && |DecipherAll(ciphers, ci)(y)| == |y| {
          CascadeLength(ciphers, ci, y);
        }
        var seed := SeedOfUnit(ci, n, FirstSize(ci));
        CbcLength(EncipherAll(ciphers, ci), FirstSize(ci), seed.iv, BlockWhite(seed.white, FirstSize(ci)), x);
        CbcLength(DecipherAll(ciphers, ci), FirstSize(ci), seed.iv, BlockWhite(seed.white, FirstSize(ci)), x);
      }
    }
  }

  lemma LrwKeeps(ciphers: Ciphers, ci: CryptoInfo)
    requires LengthPreserving(ciphers) && IsAlgorithm(ci.ea) && ci.mode == LRW && LRW in Algorithm(ci.ea).modes
    ensures Keeps(LrwEncrypt(ciphers, ci, FirstSize(ci)), FirstSize(ci)) && Keeps(LrwDecrypt(ciphers, ci, FirstSize(ci)), FirstSize(ci))
  {
    hide LengthPreserving; hide EncipherAll; hide DecipherAll; hide Algorithm; hide LrwTweak; hide Xor;
    var size := FirstSize(ci);
    forall n: nat, x: Bytes | |x| == size
      ensures |LrwEncrypt(ciphers, ci, size)(n, x)| == size && |LrwDecrypt(ciphers, ci, size)(n, x)| == size
    {
      CascadeLength(ciphers, ci, Xor(x, LrwTweak(ci, size, n)));
    }
  }

  lemma UnitsLength(ciphers: Ciphers, ci: CryptoInfo, unitNo: nat, data: Bytes)
    requires LengthPreserving(ciphers) && ValidInfo(ciphers, ci)
    requires |data| % ENCRYPTION_DATA_UNIT_SIZE == 0 && unitNo < TWO_TO_THE_64
    ensures |EncryptUnits(ciphers, ci, unitNo, data)| == |data| && |DecryptUnits(ciphers, ci, unitNo, data)| == |data|
  {
    hide LengthPreserving; hide Forward; hide Backward; hide EncryptXtsStage; hide DecryptXtsStage; hide Algorithm; hide Blocks; hide KsOffset;
    hide LrwEncrypt; hide LrwDecrypt; hide EncryptInnerUnit; hide DecryptInnerUnit; hide EncryptOuterUnit; hide DecryptOuterUnit; hide UnitToLrwIndex;
    UnitsAreBlocks(ci, |data|);
    match ci.mode
    case XTS =>
      XtsForwardSplit(ciphers, ci, unitNo, CipherCount(ci.ea), data, []);
      XtsBackwardSplit(ciphers, ci, unitNo, CipherCount(ci.ea), data, []);
    case LRW =>
      LrwKeeps(ciphers, ci);
      BlocksLength(LrwEncrypt(ciphers, ci, FirstSize(ci)), TWO_TO_THE_64, FirstSize(ci), UnitToLrwIndex(ci, unitNo, FirstSize(ci)), data);
      BlocksLength(LrwDecrypt(ciphers, ci, FirstSize(ci)), TWO_TO_THE_64, FirstSize(ci), UnitToLrwIndex(ci, unitNo, FirstSize(ci)), data);
    case OUTER_CBC =>
      UnitKeeps(ciphers, ci);
      BlocksLength(EncryptOuterUnit(ciphers, ci), TWO_TO_THE_64, ENCRYPTION_DATA_UNIT_SIZE, unitNo, data);
      BlocksLength(DecryptOuterUnit(ciphers, ci), TWO_TO_THE_64, ENCRYPTION_DATA_UNIT_SIZE, unitNo, data);
    case _ =>
      UnitKeeps(ciphers, ci);
      BlocksLength(EncryptInnerUnit(ciphers, ci), TWO_TO_THE_64, ENCRYPTION_DATA_UNIT_SIZE, unitNo, data);
      BlocksLength(DecryptInnerUnit(ciphers, ci), TWO_TO_THE_64, ENCRYPTION_DATA_UNIT_SIZE, unitNo, data);
  }

  /** Data units that are encrypted on their own, each with its own number. */
  function EncryptAlone(ciphers: Ciphers, ci: CryptoInfo): Numbered {
    (unitNo: nat, x: Bytes) => EncryptUnits(ciphers, ci, unitNo, x)
  }

  function DecryptAlone(ciphers: Ciphers, ci: CryptoInfo): Numbered {
    (unitNo: nat, x: Bytes) => DecryptUnits(ciphers, ci, unitNo, x)
  }

  /** Main result: a call for many data units does what as many calls for one data unit each do. */
  lemma {:induction false} UnitsOneByOne(ciphers: Ciphers, ci: CryptoInfo, unitNo: nat, data: Bytes)
    requires LengthPreserving(ciphers) && ValidInfo(ciphers, ci)
    requires |data| % ENCRYPTION_DATA_UNIT_SIZE == 0 && unitNo < TWO_TO_THE_64
    ensures EncryptUnits(ciphers, ci, unitNo, data)
         == Blocks(EncryptAlone(ciphers, ci), TWO_TO_THE_64, ENCRYPTION_DATA_UNIT_SIZE, unitNo, data)
    ensures DecryptUnits(ciphers, ci, unitNo, data)
         == Blocks(DecryptAlone(ciphers, ci), TWO_TO_THE_64, ENCRYPTION_DATA_UNIT_SIZE, unitNo, data)
    decreases |data|
  {
    hide EncryptUnits; hide DecryptUnits; hide LengthPreserving; hide ValidInfo;
    if |data| >= ENCRYPTION_DATA_UNIT_SIZE {
      var x, rest := data[..ENCRYPTION_DATA_UNIT_SIZE], data[ENCRYPTION_DATA_UNIT_SIZE..];
      assert data == x + rest;
      UnitsSplit(ciphers, ci, unitNo, x, rest);
      UnitsOneByOne(ciphers, ci, (unitNo + 1) % TWO_TO_THE_64, rest);
    } else {
      UnitsLength(ciphers, ci, unitNo, data);
    }
  }
}
