/** What the modes of Common/Crypto.c and Common/Xts.c compute, for any block ciphers. */
module CryptoSpec {
  import opened Arithmetic
  import opened CryptoModes
  import Crc

  const ENCRYPTION_DATA_UNIT_SIZE := 512
  const BYTES_PER_XTS_BLOCK := 16
  const BLOCKS_PER_XTS_DATA_UNIT := 32
  const TC_VOLUME_HEADER_SIZE_LEGACY := 512
  const TWO_TO_THE_64 := 0x1_0000_0000_0000_0000

  // ---- Ciphers and encryption algorithms ----

  // Cipher IDs; 0 ends a list.
  const AES := 1
  const SERPENT := 2
  const TWOFISH := 3
  const BLOWFISH := 4
  const CAST := 5
  const TRIPLEDES := 6

  datatype Mode = XTS | LRW | CBC | OUTER_CBC | INNER_CBC

  datatype EncryptionAlgorithm = EncryptionAlgorithm(ciphers: seq<nat>, modes: set<Mode>)

  /** EncryptionAlgorithms: lists of ciphers that end with a zero, and the modes they are used in. */
  function Algorithm(ea: nat): EncryptionAlgorithm {
    match ea
    case 1 => EncryptionAlgorithm([AES, 0], {XTS, LRW, CBC})
    case 2 => EncryptionAlgorithm([SERPENT, 0], {XTS, LRW, CBC})
    case 3 => EncryptionAlgorithm([TWOFISH, 0], {XTS, LRW, CBC})
    case 4 => EncryptionAlgorithm([TWOFISH, AES, 0], {XTS, LRW, OUTER_CBC})
    case 5 => EncryptionAlgorithm([SERPENT, TWOFISH, AES, 0], {XTS, LRW, OUTER_CBC})
    case 6 => EncryptionAlgorithm([AES, SERPENT, 0], {XTS, LRW, OUTER_CBC})
    case 7 => EncryptionAlgorithm([AES, TWOFISH, SERPENT, 0], {XTS, LRW, OUTER_CBC})
    case 8 => EncryptionAlgorithm([SERPENT, TWOFISH, 0], {XTS, LRW, OUTER_CBC})
    case 9 => EncryptionAlgorithm([BLOWFISH, 0], {LRW, CBC})
    case 10 => EncryptionAlgorithm([CAST, 0], {LRW, CBC})
    case 11 => EncryptionAlgorithm([TRIPLEDES, 0], {LRW, CBC})
    case 12 => EncryptionAlgorithm([BLOWFISH, AES, 0], {INNER_CBC})
    case 13 => EncryptionAlgorithm([SERPENT, BLOWFISH, AES, 0], {INNER_CBC})
    case _ => EncryptionAlgorithm([0], {})
  }

  predicate IsAlgorithm(ea: nat) { 1 <= ea <= 13 }

  function CipherCount(ea: nat): nat { |Algorithm(ea).ciphers| - 1 }

  /** The ciphers of an algorithm, without the zero at the end. */
  function CipherAt(ea: nat, j: nat): nat {
    if j < CipherCount(ea) then Algorithm(ea).ciphers[j] else 0
  }

  /** Block sizes of Ciphers[]. */
  function BlockSize(cipher: nat): (size: nat)
    ensures size == 8 || size == 16
  {
    if cipher == BLOWFISH || cipher == CAST || cipher == TRIPLEDES then 8 else 16
  }

  /** The block ciphers: the transformation of one block with a key schedule, its inverse, and the
      sizes of key schedules. */
  datatype Ciphers = Ciphers(
    encipher: (nat, Bytes, Bytes) -> Bytes,
    decipher: (nat, Bytes, Bytes) -> Bytes,
    scheduleSize: nat -> nat)

  /** Deciphering with the same key schedule undoes enciphering. */
  ghost predicate Invertible(ciphers: Ciphers) {
    forall cipher: nat, ks: Bytes, x: Bytes :: |x| == BlockSize(cipher) ==>
                                                 && |ciphers.encipher(cipher, ks, x)| == |x|
                                                 && ciphers.decipher(cipher, ks, ciphers.encipher(cipher, ks, x)) == x
  }

  /** CRYPTO_INFO.  `tweak128` and `tweak64` are what the tables in gf_ctx make of a block index. */
  datatype CryptoInfo = CryptoInfo(
    ea: nat, mode: Mode, ks: Bytes, ks2: Bytes, k2: Bytes,
    tweak128: seq<nat> -> Bytes, tweak64: seq<nat> -> Bytes,
    hiddenVolume: bool, hiddenVolumeOffset: nat)

  predicate ValidInfo(ciphers: Ciphers, ci: CryptoInfo) {
    && IsAlgorithm(ci.ea)
    && ci.mode in Algorithm(ci.ea).modes
    && |ci.ks| >= KsOffset(ciphers, ci.ea, CipherCount(ci.ea))
    && |ci.ks2| >= KsOffset(ciphers, ci.ea, CipherCount(ci.ea))
    && |ci.k2| >= 32
  }

  /** Where the key schedule of the j-th cipher begins: schedules are concatenated. */
  function KsOffset(ciphers: Ciphers, ea: nat, j: nat): nat {
    if j == 0 then 0 else KsOffset(ciphers, ea, j - 1) + ciphers.scheduleSize(CipherAt(ea, j - 1))
  }

  /** The key schedule that begins at an offset. */
  function ScheduleAt(ciphers: Ciphers, ks: Bytes, offset: nat, cipher: nat): Bytes {
    if offset + ciphers.scheduleSize(cipher) <= |ks| then ks[offset..offset + ciphers.scheduleSize(cipher)] else []
  }

  function Schedule(ciphers: Ciphers, ea: nat, ks: Bytes, j: nat): Bytes {
    ScheduleAt(ciphers, ks, KsOffset(ciphers, ea, j), CipherAt(ea, j))
  }

  // ---- Cascades of block ciphers ----

  /** Stage j of a cascade on one block. */
  function EncipherStage(ciphers: Ciphers, ci: CryptoInfo): Numbered {
    (j: nat, x: Bytes) => ciphers.encipher(CipherAt(ci.ea, j), Schedule(ciphers, ci.ea, ci.ks, j), x)
  }

  function DecipherStage(ciphers: Ciphers, ci: CryptoInfo): Numbered {
    (j: nat, x: Bytes) => ciphers.decipher(CipherAt(ci.ea, j), Schedule(ciphers, ci.ea, ci.ks, j), x)
  }

  /** All ciphers, the first one first. */
  function EncipherAll(ciphers: Ciphers, ci: CryptoInfo): Block {
    (x: Bytes) => Forward(EncipherStage(ciphers, ci), CipherCount(ci.ea), x)
  }

  /** All ciphers, the last one first. */
  function DecipherAll(ciphers: Ciphers, ci: CryptoInfo): Block {
    (x: Bytes) => Backward(DecipherStage(ciphers, ci), CipherCount(ci.ea), x)
  }

  // ---- LRW ----

  /** A 64-bit number as eight bytes, the most significant one first. */
  function BigEndian(n: nat, count: nat): seq<nat> {
    if count == 0 then [] else BigEndian(n / 256, count - 1) + [n % 256]
  }

  function LrwTweak(ci: CryptoInfo, size: nat, index: nat): Bytes {
    if size == 8 then ci.tweak64(BigEndian(index, 8)) else ci.tweak128(BigEndian(index, 8))
  }

  function LrwEncrypt(ciphers: Ciphers, ci: CryptoInfo, size: nat): Numbered {
    (index: nat, x: Bytes) =>
      Xor(EncipherAll(ciphers, ci)(Xor(x, LrwTweak(ci, size, index))), LrwTweak(ci, size, index))
  }

  function LrwDecrypt(ciphers: Ciphers, ci: CryptoInfo, size: nat): Numbered {
    (index: nat, x: Bytes) =>
      Xor(DecipherAll(ciphers, ci)(Xor(x, LrwTweak(ci, size, index))), LrwTweak(ci, size, index))
  }

  /** The index of the first LRW block of a data unit; LRW numbers blocks from 1 on. */
  function UnitToLrwIndex(ci: CryptoInfo, unitNo: nat, size: nat): nat
    requires size == 8 || size == 16
  {
    var first := if ci.hiddenVolume then ci.hiddenVolumeOffset / ENCRYPTION_DATA_UNIT_SIZE
                 else TC_VOLUME_HEADER_SIZE_LEGACY / ENCRYPTION_DATA_UNIT_SIZE;
    ((unitNo - first) * (ENCRYPTION_DATA_UNIT_SIZE / size) + 1) % TWO_TO_THE_64
  }

  // ---- XTS ----

  /** A number as bytes, the least significant one first. */
  function LittleEndian(n: nat, count: nat): (r: Bytes)
    ensures |r| == count
  {
    if count == 0 then [] else [(n % 256) as bv8] + LittleEndian(n / 256, count - 1)
  }

  /** A whitening value as two 64-bit words. */
  datatype Whitening = Whitening(low: bv64, high: bv64)

  function AppendByte(w: bv64, b: bv8): bv64 { (w << 8) | (b as bv64) }

  /** Eight bytes as a word, the first byte in the lowest place. */
  function WordOf(x: Bytes): bv64
    decreases |x|
  {
    if x == [] then 0 else AppendByte(WordOf(x[1..]), x[0])
  }

  function LowByte(w: bv64): bv8 { (w & 0xff) as bv8 }

  function DropByte(w: bv64): bv64 { w >> 8 }

  function BytesOfWord(w: bv64, count: nat): (r: Bytes)
    ensures |r| == count
  {
    if count == 0 then [] else [LowByte(w)] + BytesOfWord(DropByte(w), count - 1)
  }

  function WhiteningOf(x: Bytes): Whitening
    requires |x| == 16
  {
    Whitening(WordOf(x[..8]), WordOf(x[8..]))
  }

  function WhiteningBytes(t: Whitening): (r: Bytes)
    ensures |r| == 16
  {
    BytesOfWord(t.low, 8) + BytesOfWord(t.high, 8)
  }

  function TopBit(w: bv64): bool { w & 0x8000_0000_0000_0000 != 0 }

  function ShiftUp(w: bv64): bv64 { w << 1 }

  /** Multiplication by the primitive element: a shift, and 135 if a bit is carried out. */
  function NextWhitening(t: Whitening): Whitening {
    var low := if TopBit(t.high) then ShiftUp(t.low) ^ 135 else ShiftUp(t.low);
    Whitening(low, if TopBit(t.low) then ShiftUp(t.high) | 1 else ShiftUp(t.high))
  }

  /** The whitening value of block j of a data unit: the encrypted unit number, multiplied j times. */
  function WhiteningAt(ciphers: Ciphers, cipher: nat, ks2: Bytes, unitNo: nat, j: nat): Whitening {
    if j == 0 then
      var first := ciphers.encipher(cipher, ks2, LittleEndian(unitNo, 8) + LittleEndian(0, 8));
      if |first| == 16 then WhiteningOf(first) else Whitening(0, 0)
    else NextWhitening(WhiteningAt(ciphers, cipher, ks2, unitNo, j - 1))
  }

  /** XTS numbers blocks through all data units, 32 to a unit. */
  const XTS_MODULUS := TWO_TO_THE_64 * BLOCKS_PER_XTS_DATA_UNIT

  function XtsTweak(ciphers: Ciphers, cipher: nat, ks2: Bytes, n: nat): Bytes {
    WhiteningBytes(WhiteningAt(ciphers, cipher, ks2, n / BLOCKS_PER_XTS_DATA_UNIT, n % BLOCKS_PER_XTS_DATA_UNIT))
  }

  function XtsEncipher(ciphers: Ciphers, cipher: nat, ks: Bytes, ks2: Bytes): Numbered {
    (n: nat, x: Bytes) =>
      Xor(ciphers.encipher(cipher, ks, Xor(x, XtsTweak(ciphers, cipher, ks2, n))), XtsTweak(ciphers, cipher, ks2, n))
  }

  function XtsDecipher(ciphers: Ciphers, cipher: nat, ks: Bytes, ks2: Bytes): Numbered {
    (n: nat, x: Bytes) =>
      Xor(ciphers.decipher(cipher, ks, Xor(x, XtsTweak(ciphers, cipher, ks2, n))), XtsTweak(ciphers, cipher, ks2, n))
  }

  /** One cipher over a whole buffer that starts with a data unit. */
  function EncryptXts(ciphers: Ciphers, cipher: nat, ks: Bytes, ks2: Bytes, unitNo: nat, data: Bytes): Bytes {
    Blocks(XtsEncipher(ciphers, cipher, ks, ks2), XTS_MODULUS, BYTES_PER_XTS_BLOCK, unitNo * BLOCKS_PER_XTS_DATA_UNIT, data)
  }

  function DecryptXts(ciphers: Ciphers, cipher: nat, ks: Bytes, ks2: Bytes, unitNo: nat, data: Bytes): Bytes {
    Blocks(XtsDecipher(ciphers, cipher, ks, ks2), XTS_MODULUS, BYTES_PER_XTS_BLOCK, unitNo * BLOCKS_PER_XTS_DATA_UNIT, data)
  }

  /** Stage j of a cascade over a whole buffer. */
  function EncryptXtsStage(ciphers: Ciphers, ci: CryptoInfo, unitNo: nat): Numbered {
    (j: nat, data: Bytes) =>
      EncryptXts(ciphers, CipherAt(ci.ea, j), Schedule(ciphers, ci.ea, ci.ks, j), Schedule(ciphers, ci.ea, ci.ks2, j), unitNo, data)
  }

  function DecryptXtsStage(ciphers: Ciphers, ci: CryptoInfo, unitNo: nat): Numbered {
    (j: nat, data: Bytes) =>
      DecryptXts(ciphers, CipherAt(ci.ea, j), Schedule(ciphers, ci.ea, ci.ks, j), Schedule(ciphers, ci.ea, ci.ks2, j), unitNo, data)
  }

  // ---- CBC ----

  /** IV and whitening of a data unit. */
  datatype UnitSeed = UnitSeed(iv: Bytes, white: Bytes)

  function Widen(w: bv32): bv64 { w as bv64 }

  function Crc32Bytes(x: Bytes): Bytes { BytesOfWord(Widen(Crc.Crc32(x)), 4) }

  /** InitSectorIVAndWhitening: every 64-bit word of the seed with the unit number added. */
  function SeedOfUnit(ci: CryptoInfo, unitNo: nat, size: nat): UnitSeed {
    var n := LittleEndian(unitNo, 8);
    var s := Xor(ci.k2, n + n + n + n);
    if |s| < 32 then UnitSeed([], [])
    else if size == 16 then
      UnitSeed(s[..16], Xor(Crc32Bytes(s[16..20]), Crc32Bytes(s[28..32])) + Xor(Crc32Bytes(s[20..24]), Crc32Bytes(s[24..28])))
    else
      UnitSeed(s[..8], Xor(Crc32Bytes(s[8..12]), Crc32Bytes(s[20..24])) + Xor(Crc32Bytes(s[12..16]), Crc32Bytes(s[16..20])))
  }

  /** Whitening of a block: the eight bytes once or twice. */
  function BlockWhite(white: Bytes, size: nat): Bytes { if size == 16 then white + white else white }

  /** IV and whitening of a buffer that is not made of data units. */
  function SeedOfBuffer(ci: CryptoInfo, size: nat): UnitSeed
    requires size <= 16
  {
    if |ci.k2| < 32 then UnitSeed([], []) else UnitSeed(ci.k2[..size], ci.k2[8..16])
  }

  function CbcEncipher(ciphers: Ciphers, ci: CryptoInfo, j: nat): Block {
    (x: Bytes) => EncipherStage(ciphers, ci)(j, x)
  }

  function CbcDecipher(ciphers: Ciphers, ci: CryptoInfo, j: nat): Block {
    (x: Bytes) => DecipherStage(ciphers, ci)(j, x)
  }

  /** One cipher of an inner-CBC cascade over a buffer, with the IV and whitening of its block size. */
  function EncryptCbcStage(ciphers: Ciphers, ci: CryptoInfo, seed: nat -> UnitSeed): Numbered {
    (j: nat, data: Bytes) =>
      var size := BlockSize(CipherAt(ci.ea, j));
      CbcEncrypt(CbcEncipher(ciphers, ci, j), size, seed(size).iv, BlockWhite(seed(size).white, size), data)
  }

  function DecryptCbcStage(ciphers: Ciphers, ci: CryptoInfo, seed: nat -> UnitSeed): Numbered {
    (j: nat, data: Bytes) =>
      var size := BlockSize(CipherAt(ci.ea, j));
      CbcDecrypt(CbcDecipher(ciphers, ci, j), size, seed(size).iv, BlockWhite(seed(size).white, size), data)
  }

  function SeedsOfUnit(ci: CryptoInfo, unitNo: nat): nat -> UnitSeed { (size: nat) => SeedOfUnit(ci, unitNo, size) }

  function SeedsOfBuffer(ci: CryptoInfo): nat -> UnitSeed {
    (size: nat) => SeedOfBuffer(ci, if size == 8 then 8 else 16)
  }

  /** A data unit in CBC mode, or in inner-CBC mode, one cipher after another. */
  function EncryptInnerUnit(ciphers: Ciphers, ci: CryptoInfo): Numbered {
    (unitNo: nat, x: Bytes) => Forward(EncryptCbcStage(ciphers, ci, SeedsOfUnit(ci, unitNo)), CipherCount(ci.ea), x)
  }

  function DecryptInnerUnit(ciphers: Ciphers, ci: CryptoInfo): Numbered {
    (unitNo: nat, x: Bytes) => Backward(DecryptCbcStage(ciphers, ci, SeedsOfUnit(ci, unitNo)), CipherCount(ci.ea), x)
  }

  /** The block size of the first cipher, which is that of all ciphers except in inner-CBC mode. */
  function FirstSize(ci: CryptoInfo): nat { BlockSize(CipherAt(ci.ea, 0)) }

  /** A data unit in outer-CBC mode: chained around the whole cascade. */
  function EncryptOuterUnit(ciphers: Ciphers, ci: CryptoInfo): Numbered {
    (unitNo: nat, x: Bytes) =>
      var seed := SeedOfUnit(ci, unitNo, FirstSize(ci));
      CbcEncrypt(EncipherAll(ciphers, ci), FirstSize(ci), seed.iv, BlockWhite(seed.white, FirstSize(ci)), x)
  }

  function DecryptOuterUnit(ciphers: Ciphers, ci: CryptoInfo): Numbered {
    (unitNo: nat, x: Bytes) =>
      var seed := SeedOfUnit(ci, unitNo, FirstSize(ci));
      CbcDecrypt(DecipherAll(ciphers, ci), FirstSize(ci), seed.iv, BlockWhite(seed.white, FirstSize(ci)), x)
  }

  // ---- Data units and buffers ----

  /** What EncryptDataUnitsCurrentThread leaves in a buffer of data units. */
  function EncryptUnits(ciphers: Ciphers, ci: CryptoInfo, unitNo: nat, data: Bytes): Bytes {
    match ci.mode
    case XTS => Forward(EncryptXtsStage(ciphers, ci, unitNo), CipherCount(ci.ea), data)
    case LRW =>
      Blocks(LrwEncrypt(ciphers, ci, FirstSize(ci)), TWO_TO_THE_64, FirstSize(ci), UnitToLrwIndex(ci, unitNo, FirstSize(ci)), data)
    case OUTER_CBC => Blocks(EncryptOuterUnit(ciphers, ci), TWO_TO_THE_64, ENCRYPTION_DATA_UNIT_SIZE, unitNo, data)
    case _ => Blocks(EncryptInnerUnit(ciphers, ci), TWO_TO_THE_64, ENCRYPTION_DATA_UNIT_SIZE, unitNo, data)
  }

  function DecryptUnits(ciphers: Ciphers, ci: CryptoInfo, unitNo: nat, data: Bytes): Bytes {
    match ci.mode
    case XTS => Backward(DecryptXtsStage(ciphers, ci, unitNo), CipherCount(ci.ea), data)
    case LRW =>
      Blocks(LrwDecrypt(ciphers, ci, FirstSize(ci)), TWO_TO_THE_64, FirstSize(ci), UnitToLrwIndex(ci, unitNo, FirstSize(ci)), data)
    case OUTER_CBC => Blocks(DecryptOuterUnit(ciphers, ci), TWO_TO_THE_64, ENCRYPTION_DATA_UNIT_SIZE, unitNo, data)
    case _ => Blocks(DecryptInnerUnit(ciphers, ci), TWO_TO_THE_64, ENCRYPTION_DATA_UNIT_SIZE, unitNo, data)
  }

  /** What EncryptBuffer leaves in a buffer, for instance a volume header. */
  function EncryptWhole(ciphers: Ciphers, ci: CryptoInfo, data: Bytes): Bytes {
    match ci.mode
    case XTS => Forward(EncryptXtsStage(ciphers, ci, 0), CipherCount(ci.ea), data)
    case LRW => Blocks(LrwEncrypt(ciphers, ci, FirstSize(ci)), TWO_TO_THE_64, FirstSize(ci), 1, data)
    case OUTER_CBC =>
      var seed := SeedsOfBuffer(ci)(FirstSize(ci));
      CbcEncrypt(EncipherAll(ciphers, ci), FirstSize(ci), seed.iv, BlockWhite(seed.white, FirstSize(ci)), data)
    case _ => Forward(EncryptCbcStage(ciphers, ci, SeedsOfBuffer(ci)), CipherCount(ci.ea), data)
  }

  function DecryptWhole(ciphers: Ciphers, ci: CryptoInfo, data: Bytes): Bytes {
    match ci.mode
    case XTS => Backward(DecryptXtsStage(ciphers, ci, 0), CipherCount(ci.ea), data)
    case LRW => Blocks(LrwDecrypt(ciphers, ci, FirstSize(ci)), TWO_TO_THE_64, FirstSize(ci), 1, data)
    case OUTER_CBC =>
      var seed := SeedsOfBuffer(ci)(FirstSize(ci));
      CbcDecrypt(DecipherAll(ciphers, ci), FirstSize(ci), seed.iv, BlockWhite(seed.white, FirstSize(ci)), data)
    case _ => Backward(DecryptCbcStage(ciphers, ci, SeedsOfBuffer(ci)), CipherCount(ci.ea), data)
  }

  /** How much of a buffer EncryptBuffer and DecryptBuffer work on: in CBC modes its length is cut off to 32 bits. */
  function UsedLength(mode: Mode, length: nat): (n: nat)
    ensures n <= length
  {
    if mode == XTS || mode == LRW then length else length % 0x1_0000_0000
  }

  /** What becomes of a whole buffer; what is not used of it stays as it is. */
  function EncryptedBuffer(ciphers: Ciphers, ci: CryptoInfo, data: Bytes): Bytes {
    var n := UsedLength(ci.mode, |data|);
    EncryptWhole(ciphers, ci, data[..n]) + data[n..]
  }

  function DecryptedBuffer(ciphers: Ciphers, ci: CryptoInfo, data: Bytes): Bytes {
    var n := UsedLength(ci.mode, |data|);
    DecryptWhole(ciphers, ci, data[..n]) + data[n..]
  }
}
