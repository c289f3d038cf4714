/** XTS over a buffer in place, Common/Xts.c: both the version that whitens block by block and the
    one that works on whole data units compute the mode. */
module CryptoXts {
  import opened Arithmetic
  import opened CryptoModes
  import opened CryptoSpec
  import opened CryptoLaws
  import opened CryptoBuffers

  /** The first whitening value of a data unit: the encrypted unit number. */
  method FirstWhitening(ciphers: Ciphers, cipher: nat, ks2: Bytes, offset2: nat, unitNo: nat) returns (t: Whitening)
    requires LengthPreserving(ciphers) && BlockSize(cipher) == 16
    ensures t == WhiteningAt(ciphers, cipher, ScheduleAt(ciphers, ks2, offset2, cipher), unitNo, 0)
  {
    hide LittleEndian; hide WordOf;
    var byteBufUnitNo := LittleEndian(unitNo, 8) + LittleEndian(0, 8);
    t := WhiteningOf(ciphers.encipher(cipher, ScheduleAt(ciphers, ks2, offset2, cipher), byteBufUnitNo));
  }

  // ---- Where a buffer may start ----

  /** Less than a data unit that starts in one unit and ends in the next.  For such a buffer the program keeps counting
      blocks in the unit where it starts. */
  predicate Straddles(startBlock: nat, blockCount: nat) {
    blockCount < BLOCKS_PER_XTS_DATA_UNIT && startBlock + blockCount > BLOCKS_PER_XTS_DATA_UNIT
  }

  function UnitTweak(ciphers: Ciphers, cipher: nat, ks2: Bytes, unitNo: nat, block: nat): Bytes {
    WhiteningBytes(WhiteningAt(ciphers, cipher, ks2, unitNo, block))
  }

  /** Blocks of one unit, block 32 and more included. */
  function OneUnitEncipher(ciphers: Ciphers, cipher: nat, ks: Bytes, ks2: Bytes, unitNo: nat): Numbered {
    (n: nat, x: Bytes) =>
      Xor(ciphers.encipher(cipher, ks, Xor(x, UnitTweak(ciphers, cipher, ks2, unitNo, n))), UnitTweak(ciphers, cipher, ks2, unitNo, n))
  }

  function OneUnitDecipher(ciphers: Ciphers, cipher: nat, ks: Bytes, ks2: Bytes, unitNo: nat): Numbered {
    (n: nat, x: Bytes) =>
      Xor(ciphers.decipher(cipher, ks, Xor(x, UnitTweak(ciphers, cipher, ks2, unitNo, n))), UnitTweak(ciphers, cipher, ks2, unitNo, n))
  }

  /** What the documentation promises: the buffer starts with block startBlock of its first unit, and each further unit
      with its first block. */
  function EncryptXtsFrom(ciphers: Ciphers, cipher: nat, ks: Bytes, ks2: Bytes, unitNo: nat, startBlock: nat, data: Bytes): Bytes {
    Blocks(XtsEncipher(ciphers, cipher, ks, ks2), XTS_MODULUS, BYTES_PER_XTS_BLOCK, unitNo * BLOCKS_PER_XTS_DATA_UNIT + startBlock, data)
  }

  function DecryptXtsFrom(ciphers: Ciphers, cipher: nat, ks: Bytes, ks2: Bytes, unitNo: nat, startBlock: nat, data: Bytes): Bytes {
    Blocks(XtsDecipher(ciphers, cipher, ks, ks2), XTS_MODULUS, BYTES_PER_XTS_BLOCK, unitNo * BLOCKS_PER_XTS_DATA_UNIT + startBlock, data)
  }

  /** What the program makes of a buffer that straddles two units. */
  function EncryptXtsOneUnit(ciphers: Ciphers, cipher: nat, ks: Bytes, ks2: Bytes, unitNo: nat, startBlock: nat, data: Bytes): Bytes {
    Blocks(OneUnitEncipher(ciphers, cipher, ks, ks2, unitNo), ONE_UNIT, BYTES_PER_XTS_BLOCK, startBlock, data)
  }

  function DecryptXtsOneUnit(ciphers: Ciphers, cipher: nat, ks: Bytes, ks2: Bytes, unitNo: nat, startBlock: nat, data: Bytes): Bytes {
    Blocks(OneUnitDecipher(ciphers, cipher, ks, ks2, unitNo), ONE_UNIT, BYTES_PER_XTS_BLOCK, startBlock, data)
  }

  /** More than a straddling buffer can reach. */
  const ONE_UNIT := 2 * BLOCKS_PER_XTS_DATA_UNIT

  function EncryptedXts(ciphers: Ciphers, cipher: nat, ks: Bytes, ks2: Bytes, unitNo: nat, startBlock: nat, data: Bytes): Bytes {
    if Straddles(startBlock, |data| / BYTES_PER_XTS_BLOCK) then EncryptXtsOneUnit(ciphers, cipher, ks, ks2, unitNo, startBlock, data)
    else EncryptXtsFrom(ciphers, cipher, ks, ks2, unitNo, startBlock, data)
  }

  function DecryptedXts(ciphers: Ciphers, cipher: nat, ks: Bytes, ks2: Bytes, unitNo: nat, startBlock: nat, data: Bytes): Bytes {
    if Straddles(startBlock, |data| / BYTES_PER_XTS_BLOCK) then DecryptXtsOneUnit(ciphers, cipher, ks, ks2, unitNo, startBlock, data)
    else DecryptXtsFrom(ciphers, cipher, ks, ks2, unitNo, startBlock, data)
  }

  /** From the first block of a unit on, a buffer does not straddle. */
  lemma AlignedXts(ciphers: Ciphers, cipher: nat, ks: Bytes, ks2: Bytes, unitNo: nat, data: Bytes)
    ensures EncryptedXts(ciphers, cipher, ks, ks2, unitNo, 0, data) == EncryptXts(ciphers, cipher, ks, ks2, unitNo, data)
    ensures DecryptedXts(ciphers, cipher, ks, ks2, unitNo, 0, data) == DecryptXts(ciphers, cipher, ks, ks2, unitNo, data)
  {
    hide XtsEncipher; hide XtsDecipher; hide Blocks;
  }

  // ---- Numbers of blocks ----

  /** Number of a block of unit u, counted through all units; block 32 is the first of the next unit.  In a buffer that
      straddles, the number within the first unit. */
  function NumberAt(one: bool, u: nat, block: nat): nat {
    if one then block
    else if block < BLOCKS_PER_XTS_DATA_UNIT then u * BLOCKS_PER_XTS_DATA_UNIT + block
    else (u + 1) % TWO_TO_THE_64 * BLOCKS_PER_XTS_DATA_UNIT
  }

  function Modulus(one: bool): (m: nat)
    ensures m > 0
  {
    if one then ONE_UNIT else XTS_MODULUS
  }

  function Enciphers(one: bool, ciphers: Ciphers, cipher: nat, ks: Bytes, ks2: Bytes, unitNo: nat): Numbered {
    if one then OneUnitEncipher(ciphers, cipher, ks, ks2, unitNo) else XtsEncipher(ciphers, cipher, ks, ks2)
  }

  function Deciphers(one: bool, ciphers: Ciphers, cipher: nat, ks: Bytes, ks2: Bytes, unitNo: nat): Numbered {
    if one then OneUnitDecipher(ciphers, cipher, ks, ks2, unitNo) else XtsDecipher(ciphers, cipher, ks, ks2)
  }

  /** Block numbers as far as they are used. */
  predicate InRange(one: bool, block: nat) { block < if one then ONE_UNIT - 1 else BLOCKS_PER_XTS_DATA_UNIT }

  lemma NextNumber(one: bool, u: nat, block: nat)
    requires u < TWO_TO_THE_64 && InRange(one, block)
    ensures (NumberAt(one, u, block) + 1) % Modulus(one) == NumberAt(one, u, block + 1)
  {
  }

  lemma UnitNumber(u: nat, block: nat)
    requires block < BLOCKS_PER_XTS_DATA_UNIT
    ensures NumberAt(false, u, block) / BLOCKS_PER_XTS_DATA_UNIT == u && NumberAt(false, u, block) % BLOCKS_PER_XTS_DATA_UNIT == block
  {
  }

  lemma FirstNumber(u: nat)
    ensures NumberAt(false, u, BLOCKS_PER_XTS_DATA_UNIT) == NumberAt(false, (u + 1) % TWO_TO_THE_64, 0)
  {
  }

  /** What is computed as a sequence of numbered blocks. */
  lemma AsBlocks(one: bool, ciphers: Ciphers, cipher: nat, ks: Bytes, ks2: Bytes, unitNo: nat, startBlock: nat, data: Bytes)
    requires startBlock < BLOCKS_PER_XTS_DATA_UNIT && one == Straddles(startBlock, |data| / BYTES_PER_XTS_BLOCK)
    ensures Blocks(Enciphers(one, ciphers, cipher, ks, ks2, unitNo), Modulus(one), 16, NumberAt(one, unitNo, startBlock), data)
         == EncryptedXts(ciphers, cipher, ks, ks2, unitNo, startBlock, data)
    ensures Blocks(Deciphers(one, ciphers, cipher, ks, ks2, unitNo), Modulus(one), 16, NumberAt(one, unitNo, startBlock), data)
         == DecryptedXts(ciphers, cipher, ks, ks2, unitNo, startBlock, data)
  {
    hide XtsEncipher; hide XtsDecipher; hide OneUnitEncipher; hide OneUnitDecipher; hide Blocks;
  }

  /** One block. */
  lemma XtsBlockIs(one: bool, ciphers: Ciphers, cipher: nat, ks: Bytes, ks2: Bytes, unitNo: nat, u: nat, block: nat, x: Bytes)
    requires if one then u == unitNo else block < BLOCKS_PER_XTS_DATA_UNIT
    ensures var t, n := UnitTweak(ciphers, cipher, ks2, u, block), NumberAt(one, u, block);
            && Enciphers(one, ciphers, cipher, ks, ks2, unitNo)(n, x) == Xor(ciphers.encipher(cipher, ks, Xor(x, t)), t)
            && Deciphers(one, ciphers, cipher, ks, ks2, unitNo)(n, x) == Xor(ciphers.decipher(cipher, ks, Xor(x, t)), t)
  {
    hide Xor; hide WhiteningAt; hide WhiteningBytes;
    if !one {
      UnitNumber(u, block);
      hide NumberAt;
      assert XtsTweak(ciphers, cipher, ks2, NumberAt(one, u, block)) == UnitTweak(ciphers, cipher, ks2, u, block);
    }
  }

  lemma NextTweak(ciphers: Ciphers, cipher: nat, ks2: Bytes, unitNo: nat, j: nat)
    ensures WhiteningAt(ciphers, cipher, ks2, unitNo, j + 1) == NextWhitening(WhiteningAt(ciphers, cipher, ks2, unitNo, j))
  {
  }

  function Max(a: nat, b: nat): nat { if a >= b then a else b }

  /** Where the blocks of this pass end. */
  function EndBlock(startBlock: nat, blockCount: nat): int {
    if blockCount < BLOCKS_PER_XTS_DATA_UNIT then startBlock + blockCount else BLOCKS_PER_XTS_DATA_UNIT
  }

  /** What is left to do before a pass over a unit. */
  predicate Remaining(one: bool, startUnitNo: nat, u: nat, startBlock: nat, blockCount: nat) {
    && startBlock < BLOCKS_PER_XTS_DATA_UNIT
    && (blockCount > 0 ==> one == Straddles(startBlock, blockCount))
    && (one && blockCount > 0 ==> u == startUnitNo)
  }

  lemma EndOfUnit(one: bool, startUnitNo: nat, u: nat, startBlock: nat, blockCount: nat)
    requires Remaining(one, startUnitNo, u, startBlock, blockCount) && blockCount > 0
    ensures var e := EndBlock(startBlock, blockCount);
            && startBlock < e && e - startBlock <= blockCount && (one ==> e - startBlock == blockCount)
            && (forall block: nat :: block < e ==> InRange(one, block) && (!one ==> block < BLOCKS_PER_XTS_DATA_UNIT))
            && (e - startBlock < blockCount ==> e == BLOCKS_PER_XTS_DATA_UNIT)
            && Remaining(one, startUnitNo, (u + 1) % TWO_TO_THE_64, 0, blockCount - (e - startBlock))
  {
  }

  /** EncryptBufferXTSNonParallel: whitens, enciphers and whitens block by block. */
  method EncryptBufferXTSNonParallel(ciphers: Ciphers, cipher: nat, ks: Bytes, offset: nat, ks2: Bytes, offset2: nat,
                                     buf: array<bv8>, at: nat, length: nat, startUnitNo: nat, startCipherBlockNo: nat)
    requires LengthPreserving(ciphers) && BlockSize(cipher) == 16 && startCipherBlockNo < BLOCKS_PER_XTS_DATA_UNIT
    requires at + length <= buf.Length && length % BYTES_PER_XTS_BLOCK == 0 && startUnitNo < TWO_TO_THE_64
    modifies buf
    ensures var y := EncryptedXts(ciphers, cipher, ScheduleAt(ciphers, ks, offset, cipher), ScheduleAt(ciphers, ks2, offset2, cipher),
                                  startUnitNo, startCipherBlockNo, old(buf[at..at + length]));
            |y| == length && buf[..] == Replace(old(buf[..]), at, y)
  {
    hide LengthPreserving; hide Enciphers; hide Replace; hide Blocks; hide InPlace; hide WhiteningAt; hide NextWhitening; hide WhiteningBytes; hide ScheduleAt; hide Xor; hide NumberAt; hide Modulus; hide EncryptedXts;
    ghost var k1, k2 := ScheduleAt(ciphers, ks, offset, cipher), ScheduleAt(ciphers, ks2, offset2, cipher);
    ghost var before, data, one := buf[..], buf[at..at + length], Straddles(startCipherBlockNo, length / BYTES_PER_XTS_BLOCK);
    ghost var f, m, first := Enciphers(one, ciphers, cipher, k1, k2, startUnitNo), Modulus(one), NumberAt(one, startUnitNo, startCipherBlockNo);
    AsBlocks(one, ciphers, cipher, k1, k2, startUnitNo, startCipherBlockNo, data);
    ghost var n: nat := first;
    var startBlock: nat, blockCount: nat, dataUnitNo: nat, p: nat := startCipherBlockNo, length / BYTES_PER_XTS_BLOCK, startUnitNo, at;
    InPlaceStart(f, m, 16, first, before, at, data);
    while blockCount > 0
      invariant p + 16 * blockCount == at + length && at <= p && dataUnitNo < TWO_TO_THE_64 && |data| == length
      invariant Remaining(one, startUnitNo, dataUnitNo, startBlock, blockCount) && (blockCount > 0 ==> n == NumberAt(one, dataUnitNo, startBlock))
      invariant InPlace(f, m, 16, first, before, at, data, buf[..], p - at, n)
    {
      var endBlock: nat := EndBlock(startBlock, blockCount);
      EndOfUnit(one, startUnitNo, dataUnitNo, startBlock, blockCount);
      var t := FirstWhitening(ciphers, cipher, ks2, offset2, dataUnitNo);
      var block: nat := 0;
      while block < endBlock
        invariant block <= endBlock && p + 16 * (blockCount - (Max(block, startBlock) - startBlock)) == at + length && at <= p
        invariant t == WhiteningAt(ciphers, cipher, k2, dataUnitNo, block)
        invariant n == NumberAt(one, dataUnitNo, Max(block, startBlock))
        invariant InPlace(f, m, 16, first, before, at, data, buf[..], p - at, n)
      {
        if block >= startBlock {
          NextNumber(one, dataUnitNo, block);
          InPlaceNext(f, m, 16, first, before, at, data, buf[..], p - at, n);
          XtsBlockIs(one, ciphers, cipher, k1, k2, startUnitNo, dataUnitNo, block, buf[p..p + 16]);
          EncryptXtsBlock(ciphers, cipher, ks, offset, buf, p, t);
          n := (n + 1) % m;
          p := p + 16;
        }
        NextTweak(ciphers, cipher, k2, dataUnitNo, block);
        t := NextWhitening(t);
        block := block + 1;
      }
      FirstNumber(dataUnitNo);
      blockCount := blockCount - (endBlock - startBlock);
      startBlock := 0;
      dataUnitNo := (dataUnitNo + 1) % TWO_TO_THE_64;
    }
    InPlaceEnd(f, m, 16, first, before, at, data, buf[..], n);
  }

  method EncryptXtsBlock(ciphers: Ciphers, cipher: nat, ks: Bytes, offset: nat, buf: array<bv8>, p: nat, t: Whitening)
    requires LengthPreserving(ciphers) && BlockSize(cipher) == 16 && p + 16 <= buf.Length
    modifies buf
    ensures var w, x := WhiteningBytes(t), old(buf[p..p + 16]);
            var y := Xor(ciphers.encipher(cipher, ScheduleAt(ciphers, ks, offset, cipher), Xor(x, w)), w);
            |y| == 16 && buf[..] == Replace(old(buf[..]), p, y)
  {
    hide LengthPreserving; hide Replace; hide Xor; hide WhiteningBytes; hide ScheduleAt;
    ghost var now, x := buf[..], buf[p..p + 16];
    var w := WhiteningBytes(t);
    XorInto(buf, p, 16, w);
    ReplaceTwice(now, p, Xor(x, w), Xor(x, w));
    EncipherBlock(ciphers, cipher, buf, p, ks, offset);
    ghost var c := ciphers.encipher(cipher, ScheduleAt(ciphers, ks, offset, cipher), Xor(x, w));
    ReplaceTwice(now, p, Xor(x, w), c);
    ReplaceTwice(now, p, c, Xor(c, w));
    XorInto(buf, p, 16, w);
  }

  /** DecryptBufferXTSNonParallel: whitens, deciphers and whitens block by block. */
  method DecryptBufferXTSNonParallel(ciphers: Ciphers, cipher: nat, ks: Bytes, offset: nat, ks2: Bytes, offset2: nat,
                                     buf: array<bv8>, at: nat, length: nat, startUnitNo: nat, startCipherBlockNo: nat)
    requires LengthPreserving(ciphers) && BlockSize(cipher) == 16 && startCipherBlockNo < BLOCKS_PER_XTS_DATA_UNIT
    requires at + length <= buf.Length && length % BYTES_PER_XTS_BLOCK == 0 && startUnitNo < TWO_TO_THE_64
    modifies buf
    ensures var y := DecryptedXts(ciphers, cipher, ScheduleAt(ciphers, ks, offset, cipher), ScheduleAt(ciphers, ks2, offset2, cipher),
                                  startUnitNo, startCipherBlockNo, old(buf[at..at + length]));
            |y| == length && buf[..] == Replace(old(buf[..]), at, y)
  {
    hide LengthPreserving; hide Deciphers; hide Replace; hide Blocks; hide InPlace; hide WhiteningAt; hide NextWhitening; hide WhiteningBytes; hide ScheduleAt; hide Xor; hide NumberAt; hide Modulus; hide DecryptedXts;
    ghost var k1, k2 := ScheduleAt(ciphers, ks, offset, cipher), ScheduleAt(ciphers, ks2, offset2, cipher);
    ghost var before, data, one := buf[..], buf[at..at + length], Straddles(startCipherBlockNo, length / BYTES_PER_XTS_BLOCK);
    ghost var f, m, first := Deciphers(one, ciphers, cipher, k1, k2, startUnitNo), Modulus(one), NumberAt(one, startUnitNo, startCipherBlockNo);
    AsBlocks(one, ciphers, cipher, k1, k2, startUnitNo, startCipherBlockNo, data);
    ghost var n: nat := first;
    var startBlock: nat, blockCount: nat, dataUnitNo: nat, p: nat := startCipherBlockNo, length / BYTES_PER_XTS_BLOCK, startUnitNo, at;
    InPlaceStart(f, m, 16, first, before, at, data);
    while blockCount > 0
      invariant p + 16 * blockCount == at + length && at <= p && dataUnitNo < TWO_TO_THE_64 && |data| == length
      invariant Remaining(one, startUnitNo, dataUnitNo, startBlock, blockCount) && (blockCount > 0 ==> n == NumberAt(one, dataUnitNo, startBlock))
      invariant InPlace(f, m, 16, first, before, at, data, buf[..], p - at, n)
    {
      var endBlock: nat := EndBlock(startBlock, blockCount);
      EndOfUnit(one, startUnitNo, dataUnitNo, startBlock, blockCount);
      var t := FirstWhitening(ciphers, cipher, ks2, offset2, dataUnitNo);
      var block: nat := 0;
      while block < endBlock
        invariant block <= endBlock && p + 16 * (blockCount - (Max(block, startBlock) - startBlock)) == at + length && at <= p
        invariant t == WhiteningAt(ciphers, cipher, k2, dataUnitNo, block)
        invariant n == NumberAt(one, dataUnitNo, Max(block, startBlock))
        invariant InPlace(f, m, 16, first, before, at, data, buf[..], p - at, n)
      {
        if block >= startBlock {
          NextNumber(one, dataUnitNo, block);
          InPlaceNext(f, m, 16, first, before, at, data, buf[..], p - at, n);
          XtsBlockIs(one, ciphers, cipher, k1, k2, startUnitNo, dataUnitNo, block, buf[p..p + 16]);
          DecryptXtsBlock(ciphers, cipher, ks, offset, buf, p, t);
          n := (n + 1) % m;
          p := p + 16;
        }
        NextTweak(ciphers, cipher, k2, dataUnitNo, block);
        t := NextWhitening(t);
        block := block + 1;
      }
      FirstNumber(dataUnitNo);
      blockCount := blockCount - (endBlock - startBlock);
      startBlock := 0;
      dataUnitNo := (dataUnitNo + 1) % TWO_TO_THE_64;
    }
    InPlaceEnd(f, m, 16, first, before, at, data, buf[..], n);
  }

  method DecryptXtsBlock(ciphers: Ciphers, cipher: nat, ks: Bytes, offset: nat, buf: array<bv8>, p: nat, t: Whitening)
    requires LengthPreserving(ciphers) && BlockSize(cipher) == 16 && p + 16 <= buf.Length
    modifies buf
    ensures var w, x := WhiteningBytes(t), old(buf[p..p + 16]);
            var y := Xor(ciphers.decipher(cipher, ScheduleAt(ciphers, ks, offset, cipher), Xor(x, w)), w);
            |y| == 16 && buf[..] == Replace(old(buf[..]), p, y)
  {
    hide LengthPreserving; hide Replace; hide Xor; hide WhiteningBytes; hide ScheduleAt;
    ghost var now, x := buf[..], buf[p..p + 16];
    var w := WhiteningBytes(t);
    XorInto(buf, p, 16, w);
    ReplaceTwice(now, p, Xor(x, w), Xor(x, w));
    DecipherBlock(ciphers, cipher, buf, p, ks, offset);
    ghost var c := ciphers.decipher(cipher, ScheduleAt(ciphers, ks, offset, cipher), Xor(x, w));
    ReplaceTwice(now, p, Xor(x, w), c);
    ReplaceTwice(now, p, c, Xor(c, w));
    XorInto(buf, p, 16, w);
  }

  // ---- Whole data units ----

  /** The j-th block of sixteen bytes from p on. */
  function BlockOf(s: Bytes, p: nat, j: nat): Bytes
    requires p + 16 * (j + 1) <= |s|
  {
    s[p + 16 * j..p + 16 * (j + 1)]
  }

  lemma BlockIs(s: Bytes, p: nat, j: nat)
    requires p + 16 * (j + 1) <= |s|
    ensures BlockOf(s, p, j) == s[p + 16 * j..p + 16 * j + 16] && |BlockOf(s, p, j)| == 16
  {
  }

  /** Replacing one block leaves everything else alone. */
  lemma OtherBlocks(s: Bytes, p: nat, count: nat, j: nat, y: Bytes)
    requires p + 16 * count <= |s| && j < count && |y| == 16
    ensures var s' := Replace(s, p + 16 * j, y);
            && |s'| == |s| && s'[..p] == s[..p] && s'[p + 16 * count..] == s[p + 16 * count..]
            && BlockOf(s', p, j) == y
            && forall i: nat :: i < count && i != j ==> BlockOf(s', p, i) == BlockOf(s, p, i)
  {
    var s' := Replace(s, p + 16 * j, y);
    forall i: nat | i < count && i != j ensures BlockOf(s', p, i) == BlockOf(s, p, i) {
      if i < j { assert p + 16 * (i + 1) <= p + 16 * j; } else { assert p + 16 * (j + 1) <= p + 16 * i; }
    }
  }

  /** The whitening values of a data unit from startBlock on. */
  method AllWhitening(ciphers: Ciphers, cipher: nat, ks2: Bytes, offset2: nat, unitNo: nat, startBlock: nat, endBlock: nat) returns (values: seq<Whitening>)
    requires LengthPreserving(ciphers) && BlockSize(cipher) == 16 && startBlock <= endBlock
    ensures |values| == endBlock - startBlock
    ensures forall j :: 0 <= j < |values| ==> values[j] == WhiteningAt(ciphers, cipher, ScheduleAt(ciphers, ks2, offset2, cipher), unitNo, startBlock + j)
  {
    hide LengthPreserving; hide WhiteningAt; hide NextWhitening; hide ScheduleAt;
    ghost var k2 := ScheduleAt(ciphers, ks2, offset2, cipher);
    var t := FirstWhitening(ciphers, cipher, ks2, offset2, unitNo);
    values := [];
    var block: nat := 0;
    while block < endBlock
      invariant block <= endBlock && t == WhiteningAt(ciphers, cipher, k2, unitNo, block)
      invariant |values| == Max(block, startBlock) - startBlock
      invariant forall j :: 0 <= j < |values| ==> values[j] == WhiteningAt(ciphers, cipher, k2, unitNo, startBlock + j)
    {
      NextTweak(ciphers, cipher, k2, unitNo, block);
      if block >= startBlock { values := values + [t]; }
      t := NextWhitening(t);
      block := block + 1;
    }
  }

  /** Adds a whitening value to each of the blocks from p on. */
  method WhitenBlocks(buf: array<bv8>, p: nat, values: seq<Whitening>)
    requires p + 16 * |values| <= buf.Length
    modifies buf
    ensures |buf[..]| == |old(buf[..])|
    ensures forall j: nat :: j < |values| ==> BlockOf(buf[..], p, j) == Xor(BlockOf(old(buf[..]), p, j), WhiteningBytes(values[j]))
    ensures buf[..p] == old(buf[..p]) && buf[p + 16 * |values|..] == old(buf[p + 16 * |values|..])
  {
    hide Xor; hide WhiteningBytes; hide Replace; hide BlockOf;
    ghost var before := buf[..];
    var j: nat := 0;
    while j < |values|
      invariant j <= |values| && |buf[..]| == |before|
      invariant forall i: nat :: i < j ==> BlockOf(buf[..], p, i) == Xor(BlockOf(before, p, i), WhiteningBytes(values[i]))
      invariant forall i: nat :: j <= i < |values| ==> BlockOf(buf[..], p, i) == BlockOf(before, p, i)
      invariant buf[..p] == before[..p] && buf[p + 16 * |values|..] == before[p + 16 * |values|..]
    {
      ghost var now := buf[..];
      BlockIs(now, p, j);
      XorInto(buf, p + 16 * j, 16, WhiteningBytes(values[j]));
      OtherBlocks(now, p, |values|, j, Xor(BlockOf(now, p, j), WhiteningBytes(values[j])));
      j := j + 1;
    }
  }

  /** The buffer as it was before block j of those from p on became y. */
  lemma BeforeBlock(now: Bytes, later: Bytes, p: nat, j: nat)
    requires |now| == |later| && p + 16 * (j + 1) <= |now|
    requires later[..p] == now[..p] && later[p + 16 * (j + 1)..] == now[p + 16 * (j + 1)..]
    ensures var earlier := Replace(later, p + 16 * j, BlockOf(now, p, j));
            && |earlier| == |now| && earlier[..p] == now[..p] && earlier[p + 16 * j..] == now[p + 16 * j..]
            && BlockOf(earlier, p, j) == BlockOf(now, p, j)
            && Replace(earlier, p + 16 * j, BlockOf(later, p, j)) == later
  {
    var q := p + 16 * j;
    assert q + 16 == p + 16 * (j + 1);
    var x := BlockOf(now, p, j);
    var earlier := Replace(later, q, x);
    assert now[q..] == x + now[q + 16..];
    assert earlier[q..] == x + later[q + 16..];
    assert earlier[..p] == later[..q][..p] == later[..p];
    ReplaceTwice(later, q, x, BlockOf(later, p, j));
    ReplaceSame(later, q, 16);
  }

  lemma EarlierBlocks(later: Bytes, p: nat, j: nat, x: Bytes)
    requires p + 16 * (j + 1) <= |later| && |x| == 16
    ensures |Replace(later, p + 16 * j, x)| == |later|
    ensures forall i: nat :: i < j ==> BlockOf(Replace(later, p + 16 * j, x), p, i) == BlockOf(later, p, i)
  {
    var earlier := Replace(later, p + 16 * j, x);
    forall i: nat | i < j ensures BlockOf(earlier, p, i) == BlockOf(later, p, i) {
      assert p + 16 * (i + 1) <= p + 16 * j;
    }
  }

  /** A buffer in which some blocks of a unit have been transformed at once has been transformed block by block. */
  lemma {:induction false} UnitInPlace(f: Numbered, one: bool, first: nat, before: Bytes, at: nat, data: Bytes, now: Bytes, later: Bytes,
                                       k: nat, p: nat, unitNo: nat, startBlock: nat, count: nat)
    requires p == at + k && at + |data| <= |before| && k + 16 * count <= |data| && |now| == |later| == |before| && unitNo < TWO_TO_THE_64
    requires forall block: nat :: block < startBlock + count ==> InRange(one, block)
    requires InPlace(f, Modulus(one), 16, first, before, at, data, now, k, NumberAt(one, unitNo, startBlock))
    requires forall j: nat :: j < count ==> BlockOf(later, p, j) == f(NumberAt(one, unitNo, startBlock + j), BlockOf(now, p, j))
    requires later[..p] == now[..p] && later[p + 16 * count..] == now[p + 16 * count..]
    ensures InPlace(f, Modulus(one), 16, first, before, at, data, later, k + 16 * count, NumberAt(one, unitNo, startBlock + count))
    decreases count
  {
    hide InPlace; hide NumberAt; hide Modulus; hide Replace; hide BlockOf; hide Blocks; hide InRange;
    if count == 0 {
      assert later == later[..p] + later[p..];
      assert now == now[..p] + now[p..];
    } else {
      var j := count - 1;
      BlockIs(now, p, j);
      var earlier := Replace(later, p + 16 * j, BlockOf(now, p, j));
      BeforeBlock(now, later, p, j);
      EarlierBlocks(later, p, j, BlockOf(now, p, j));
      UnitInPlace(f, one, first, before, at, data, now, earlier, k, p, unitNo, startBlock, j);
      NextNumber(one, unitNo, startBlock + j);
      InPlaceNext(f, Modulus(one), 16, first, before, at, data, earlier, k + 16 * j, NumberAt(one, unitNo, startBlock + j));
      BlockIs(earlier, p, j);
      BlockIs(later, p, j);
    }
  }

  /** EncipherBlocks: one block after another. */
  method EncipherBlocks(ciphers: Ciphers, cipher: nat, buf: array<bv8>, at: nat, ks: Bytes, offset: nat, count: nat)
    requires LengthPreserving(ciphers) && BlockSize(cipher) == 16 && at + 16 * count <= buf.Length
    modifies buf
    ensures |buf[..]| == |old(buf[..])|
    ensures forall j: nat :: j < count ==>
                               BlockOf(buf[..], at, j) == ciphers.encipher(cipher, ScheduleAt(ciphers, ks, offset, cipher), BlockOf(old(buf[..]), at, j))
    ensures buf[..at] == old(buf[..at]) && buf[at + 16 * count..] == old(buf[at + 16 * count..])
  {
    hide LengthPreserving; hide ScheduleAt; hide Replace; hide BlockOf;
    ghost var before, k1 := buf[..], ScheduleAt(ciphers, ks, offset, cipher);
    var j: nat := 0;
    while j < count
      invariant j <= count && |buf[..]| == |before|
      invariant forall i: nat :: i < j ==> BlockOf(buf[..], at, i) == ciphers.encipher(cipher, k1, BlockOf(before, at, i))
      invariant forall i: nat :: j <= i < count ==> BlockOf(buf[..], at, i) == BlockOf(before, at, i)
      invariant buf[..at] == before[..at] && buf[at + 16 * count..] == before[at + 16 * count..]
    {
      ghost var now := buf[..];
      BlockIs(now, at, j);
      EncipherBlock(ciphers, cipher, buf, at + 16 * j, ks, offset);
      OtherBlocks(now, at, count, j, ciphers.encipher(cipher, k1, BlockOf(now, at, j)));
      j := j + 1;
    }
  }

  /** EncryptBufferXTSParallel: whitens all blocks of a data unit, enciphers them, whitens all again. */
  method EncryptBufferXTSParallel(ciphers: Ciphers, cipher: nat, ks: Bytes, offset: nat, ks2: Bytes, offset2: nat,
                                  buf: array<bv8>, at: nat, length: nat, startUnitNo: nat, startCipherBlockNo: nat)
    requires LengthPreserving(ciphers) && BlockSize(cipher) == 16 && startCipherBlockNo < BLOCKS_PER_XTS_DATA_UNIT
    requires at + length <= buf.Length && length % BYTES_PER_XTS_BLOCK == 0 && startUnitNo < TWO_TO_THE_64
    modifies buf
    ensures var y := EncryptedXts(ciphers, cipher, ScheduleAt(ciphers, ks, offset, cipher), ScheduleAt(ciphers, ks2, offset2, cipher),
                                  startUnitNo, startCipherBlockNo, old(buf[at..at + length]));
            |y| == length && buf[..] == Replace(old(buf[..]), at, y)
  {
    hide LengthPreserving; hide Enciphers; hide Replace; hide Blocks; hide InPlace; hide WhiteningAt; hide NextWhitening; hide WhiteningBytes; hide ScheduleAt; hide Xor; hide NumberAt; hide Modulus; hide EncryptedXts;
    hide BlockOf;
    ghost var k1, k2 := ScheduleAt(ciphers, ks, offset, cipher), ScheduleAt(ciphers, ks2, offset2, cipher);
    ghost var before, data, one := buf[..], buf[at..at + length], Straddles(startCipherBlockNo, length / BYTES_PER_XTS_BLOCK);
    ghost var f, m, first := Enciphers(one, ciphers, cipher, k1, k2, startUnitNo), Modulus(one), NumberAt(one, startUnitNo, startCipherBlockNo);
    AsBlocks(one, ciphers, cipher, k1, k2, startUnitNo, startCipherBlockNo, data);
    ghost var n: nat := first;
    var startBlock: nat, blockCount: nat, dataUnitNo: nat, p: nat := startCipherBlockNo, length / BYTES_PER_XTS_BLOCK, startUnitNo, at;
    InPlaceStart(f, m, 16, first, before, at, data);
    while blockCount > 0
      invariant p + 16 * blockCount == at + length && at <= p && dataUnitNo < TWO_TO_THE_64 && |data| == length
      invariant Remaining(one, startUnitNo, dataUnitNo, startBlock, blockCount) && (blockCount > 0 ==> n == NumberAt(one, dataUnitNo, startBlock))
      invariant InPlace(f, m, 16, first, before, at, data, buf[..], p - at, n)
    {
      var endBlock: nat := EndBlock(startBlock, blockCount);
      EndOfUnit(one, startUnitNo, dataUnitNo, startBlock, blockCount);
      ghost var now := buf[..];
      var whiteningValues := AllWhitening(ciphers, cipher, ks2, offset2, dataUnitNo, startBlock, endBlock);
      WhitenBlocks(buf, p, whiteningValues);
      EncipherBlocks(ciphers, cipher, buf, p, ks, offset, endBlock - startBlock);
      WhitenBlocks(buf, p, whiteningValues);
      forall j: nat | j < endBlock - startBlock
        ensures BlockOf(buf[..], p, j) == f(NumberAt(one, dataUnitNo, startBlock + j), BlockOf(now, p, j))
      {
        XtsBlockIs(one, ciphers, cipher, k1, k2, startUnitNo, dataUnitNo, startBlock + j, BlockOf(now, p, j));
      }
      UnitInPlace(f, one, first, before, at, data, now, buf[..], p - at, p, dataUnitNo, startBlock, endBlock - startBlock);
      n := NumberAt(one, dataUnitNo, endBlock);
      FirstNumber(dataUnitNo);
      p := p + 16 * (endBlock - startBlock);
      blockCount := blockCount - (endBlock - startBlock);
      startBlock := 0;
      dataUnitNo := (dataUnitNo + 1) % TWO_TO_THE_64;
    }
    InPlaceEnd(f, m, 16, first, before, at, data, buf[..], n);
  }

  /** DecipherBlocks: one block after another. */
  method DecipherBlocks(ciphers: Ciphers, cipher: nat, buf: array<bv8>, at: nat, ks: Bytes, offset: nat, count: nat)
    requires LengthPreserving(ciphers) && BlockSize(cipher) == 16 && at + 16 * count <= buf.Length
    modifies buf
    ensures |buf[..]| == |old(buf[..])|
    ensures forall j: nat :: j < count ==>
                               BlockOf(buf[..], at, j) == ciphers.decipher(cipher, ScheduleAt(ciphers, ks, offset, cipher), BlockOf(old(buf[..]), at, j))
    ensures buf[..at] == old(buf[..at]) && buf[at + 16 * count..] == old(buf[at + 16 * count..])
  {
    hide LengthPreserving; hide ScheduleAt; hide Replace; hide BlockOf;
    ghost var before, k1 := buf[..], ScheduleAt(ciphers, ks, offset, cipher);
    var j: nat := 0;
    while j < count
      invariant j <= count && |buf[..]| == |before|
      invariant forall i: nat :: i < j ==> BlockOf(buf[..], at, i) == ciphers.decipher(cipher, k1, BlockOf(before, at, i))
      invariant forall i: nat :: j <= i < count ==> BlockOf(buf[..], at, i) == BlockOf(before, at, i)
      invariant buf[..at] == before[..at] && buf[at + 16 * count..] == before[at + 16 * count..]
    {
      ghost var now := buf[..];
      BlockIs(now, at, j);
      DecipherBlock(ciphers, cipher, buf, at + 16 * j, ks, offset);
      OtherBlocks(now, at, count, j, ciphers.decipher(cipher, k1, BlockOf(now, at, j)));
      j := j + 1;
    }
  }

  /** DecryptBufferXTSParallel: whitens all blocks of a data unit, deciphers them, whitens all again. */
  method DecryptBufferXTSParallel(ciphers: Ciphers, cipher: nat, ks: Bytes, offset: nat, ks2: Bytes, offset2: nat,
                                  buf: array<bv8>, at: nat, length: nat, startUnitNo: nat, startCipherBlockNo: nat)
    requires LengthPreserving(ciphers) && BlockSize(cipher) == 16 && startCipherBlockNo < BLOCKS_PER_XTS_DATA_UNIT
    requires at + length <= buf.Length && length % BYTES_PER_XTS_BLOCK == 0 && startUnitNo < TWO_TO_THE_64
    modifies buf
    ensures var y := DecryptedXts(ciphers, cipher, ScheduleAt(ciphers, ks, offset, cipher), ScheduleAt(ciphers, ks2, offset2, cipher),
                                  startUnitNo, startCipherBlockNo, old(buf[at..at + length]));
            |y| == length && buf[..] == Replace(old(buf[..]), at, y)
  {
    hide LengthPreserving; hide Deciphers; hide Replace; hide Blocks; hide InPlace; hide WhiteningAt; hide NextWhitening; hide WhiteningBytes; hide ScheduleAt; hide Xor; hide NumberAt; hide Modulus; hide DecryptedXts;
    hide BlockOf;
    ghost var k1, k2 := ScheduleAt(ciphers, ks, offset, cipher), ScheduleAt(ciphers, ks2, offset2, cipher);
    ghost var before, data, one := buf[..], buf[at..at + length], Straddles(startCipherBlockNo, length / BYTES_PER_XTS_BLOCK);
    ghost var f, m, first := Deciphers(one, ciphers, cipher, k1, k2, startUnitNo), Modulus(one), NumberAt(one, startUnitNo, startCipherBlockNo);
    AsBlocks(one, ciphers, cipher, k1, k2, startUnitNo, startCipherBlockNo, data);
    ghost var n: nat := first;
    var startBlock: nat, blockCount: nat, dataUnitNo: nat, p: nat := startCipherBlockNo, length / BYTES_PER_XTS_BLOCK, startUnitNo, at;
    InPlaceStart(f, m, 16, first, before, at, data);
    while blockCount > 0
      invariant p + 16 * blockCount == at + length && at <= p && dataUnitNo < TWO_TO_THE_64 && |data| == length
      invariant Remaining(one, startUnitNo, dataUnitNo, startBlock, blockCount) && (blockCount > 0 ==> n == NumberAt(one, dataUnitNo, startBlock))
      invariant InPlace(f, m, 16, first, before, at, data, buf[..], p - at, n)
    {
      var endBlock: nat := EndBlock(startBlock, blockCount);
      EndOfUnit(one, startUnitNo, dataUnitNo, startBlock, blockCount);
      ghost var now := buf[..];
      var whiteningValues := AllWhitening(ciphers, cipher, ks2, offset2, dataUnitNo, startBlock, endBlock);
      WhitenBlocks(buf, p, whiteningValues);
      DecipherBlocks(ciphers, cipher, buf, p, ks, offset, endBlock - startBlock);
      WhitenBlocks(buf, p, whiteningValues);
      forall j: nat | j < endBlock - startBlock
        ensures BlockOf(buf[..], p, j) == f(NumberAt(one, dataUnitNo, startBlock + j), BlockOf(now, p, j))
      {
        XtsBlockIs(one, ciphers, cipher, k1, k2, startUnitNo, dataUnitNo, startBlock + j, BlockOf(now, p, j));
      }
      UnitInPlace(f, one, first, before, at, data, now, buf[..], p - at, p, dataUnitNo, startBlock, endBlock - startBlock);
      n := NumberAt(one, dataUnitNo, endBlock);
      FirstNumber(dataUnitNo);
      p := p + 16 * (endBlock - startBlock);
      blockCount := blockCount - (endBlock - startBlock);
      startBlock := 0;
      dataUnitNo := (dataUnitNo + 1) % TWO_TO_THE_64;
    }
    InPlaceEnd(f, m, 16, first, before, at, data, buf[..], n);
  }

  /** EncryptBufferXTS: the parallel version is used for ciphers that support it; both compute the same. */
  method EncryptBufferXTS(ciphers: Ciphers, cipher: nat, ks: Bytes, offset: nat, ks2: Bytes, offset2: nat,
                          buf: array<bv8>, at: nat, length: nat, startUnitNo: nat, startCipherBlockNo: nat, parallel: bool)
    requires LengthPreserving(ciphers) && BlockSize(cipher) == 16 && startCipherBlockNo < BLOCKS_PER_XTS_DATA_UNIT
    requires at + length <= buf.Length && length % BYTES_PER_XTS_BLOCK == 0 && startUnitNo < TWO_TO_THE_64
    modifies buf
    ensures var y := EncryptedXts(ciphers, cipher, ScheduleAt(ciphers, ks, offset, cipher), ScheduleAt(ciphers, ks2, offset2, cipher),
                                  startUnitNo, startCipherBlockNo, old(buf[at..at + length]));
            |y| == length && buf[..] == Replace(old(buf[..]), at, y)
  {
    hide LengthPreserving; hide EncryptedXts; hide ScheduleAt; hide Replace;
    if cipher == AES && parallel {
      EncryptBufferXTSParallel(ciphers, cipher, ks, offset, ks2, offset2, buf, at, length, startUnitNo, startCipherBlockNo);
    } else {
      EncryptBufferXTSNonParallel(ciphers, cipher, ks, offset, ks2, offset2, buf, at, length, startUnitNo, startCipherBlockNo);
    }
  }

  method DecryptBufferXTS(ciphers: Ciphers, cipher: nat, ks: Bytes, offset: nat, ks2: Bytes, offset2: nat,
                          buf: array<bv8>, at: nat, length: nat, startUnitNo: nat, startCipherBlockNo: nat, parallel: bool)
    requires LengthPreserving(ciphers) && BlockSize(cipher) == 16 && startCipherBlockNo < BLOCKS_PER_XTS_DATA_UNIT
    requires at + length <= buf.Length && length % BYTES_PER_XTS_BLOCK == 0 && startUnitNo < TWO_TO_THE_64
    modifies buf
    ensures var y := DecryptedXts(ciphers, cipher, ScheduleAt(ciphers, ks, offset, cipher), ScheduleAt(ciphers, ks2, offset2, cipher),
                                  startUnitNo, startCipherBlockNo, old(buf[at..at + length]));
            |y| == length && buf[..] == Replace(old(buf[..]), at, y)
  {
    hide LengthPreserving; hide DecryptedXts; hide ScheduleAt; hide Replace;
    if cipher == AES && parallel {
      DecryptBufferXTSParallel(ciphers, cipher, ks, offset, ks2, offset2, buf, at, length, startUnitNo, startCipherBlockNo);
    } else {
      DecryptBufferXTSNonParallel(ciphers, cipher, ks, offset, ks2, offset2, buf, at, length, startUnitNo, startCipherBlockNo);
    }
  }
}
