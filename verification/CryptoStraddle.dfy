/** When EncryptBufferXTS of Common/Xts.c does what its documentation says about buffers that start inside a data unit. */
module CryptoStraddle {
  import opened Arithmetic
  import opened CryptoModes
  import opened CryptoSpec
  import opened CryptoXts
  import Gf = CryptoGf
  import Laws = CryptoLaws

  /** With startCipherBlockNo == startBlock, blockCount blocks come out as documented, for any cipher, key and data. */
  ghost predicate AsDocumented(startBlock: nat, blockCount: nat) {
    forall ciphers: Ciphers, cipher: nat, ks: Bytes, ks2: Bytes, unitNo: nat, data: Bytes ::
      Invertible(ciphers) && BlockSize(cipher) == 16 && unitNo < TWO_TO_THE_64 && |data| == 16 * blockCount ==>
        EncryptedXts(ciphers, cipher, ks, ks2, unitNo, startBlock, data) == EncryptXtsFrom(ciphers, cipher, ks, ks2, unitNo, startBlock, data)
  }

  // ---- A cipher that turns blocks around ----

  function Turned(x: Bytes): (r: Bytes)
    ensures |r| == |x|
  {
    seq(|x|, i requires 0 <= i < |x| => x[|x| - 1 - i])
  }

  function Turning(): Ciphers { Ciphers((c, k, x) => Turned(x), (c, k, x) => Turned(x), c => 0) }

  lemma TurningInvertible()
    ensures Invertible(Turning())
  {
    forall x: Bytes ensures Turned(Turned(x)) == x { }
  }

  function Zeros(n: nat): (s: Bytes)
    ensures |s| == n
  {
    seq(n, _ => 0)
  }

  // ---- Unit 0 is not whitened ----

  lemma ZeroNumber()
    ensures LittleEndian(0, 8) == Zeros(8) && LittleEndian(1, 8) == [1] + Zeros(7)
  {
  }

  lemma {:induction false} ZeroWord(n: nat)
    ensures WordOf(Zeros(n)) == 0
    decreases n
  {
    if n > 0 {
      ZeroWord(n - 1);
      assert Zeros(n)[1..] == Zeros(n - 1);
      NothingAppended();
      hide AppendByte;
    }
  }

  lemma NothingAppended()
    ensures AppendByte(0, 0) == 0
  {
  }

  lemma ZeroWhitening()
    ensures WhiteningOf(Zeros(16)) == Whitening(0, 0)
    ensures NextWhitening(Whitening(0, 0)) == Whitening(0, 0)
  {
    hide WordOf;
    ZeroWord(8);
    assert Zeros(16)[..8] == Zeros(8) && Zeros(16)[8..] == Zeros(8);
  }

  lemma {:induction false} NoWhitening(cipher: nat, ks2: Bytes, j: nat)
    ensures WhiteningAt(Turning(), cipher, ks2, 0, j) == Whitening(0, 0)
    decreases j
  {
    ZeroWhitening();
    hide WhiteningOf; hide NextWhitening;
    if j == 0 {
      ZeroNumber();
      hide LittleEndian;
      assert Turned(LittleEndian(0, 8) + LittleEndian(0, 8)) == Zeros(16);
    } else {
      NoWhitening(cipher, ks2, j - 1);
    }
  }

  lemma ZeroTweak(cipher: nat, ks2: Bytes, block: nat)
    ensures UnitTweak(Turning(), cipher, ks2, 0, block) == Zeros(16)
  {
    NoWhitening(cipher, ks2, block);
    ZeroWhitening();
    Gf.WhiteningBack(Zeros(16));
    hide WhiteningOf; hide WhiteningBytes; hide WhiteningAt;
  }

  lemma ZeroBlock(cipher: nat, ks: Bytes, ks2: Bytes, block: nat)
    ensures OneUnitEncipher(Turning(), cipher, ks, ks2, 0)(block, Zeros(16)) == Zeros(16)
  {
    hide UnitTweak;
    ZeroTweak(cipher, ks2, block);
    XorZeros(16);
    assert Turned(Zeros(16)) == Zeros(16);
    hide Xor; hide Zeros; hide Turned;
  }

  lemma XorZeros(n: nat)
    ensures Xor(Zeros(n), Zeros(n)) == Zeros(n)
  {
  }

  /** In unit 0 zeros stay zeros, however far the program counts. */
  lemma {:induction false} StaysZero(cipher: nat, ks: Bytes, ks2: Bytes, startBlock: nat, count: nat)
    ensures EncryptXtsOneUnit(Turning(), cipher, ks, ks2, 0, startBlock, Zeros(16 * count)) == Zeros(16 * count)
    decreases count
  {
    hide OneUnitEncipher;
    if count > 0 {
      var next := (startBlock + 1) % ONE_UNIT;
      assert Zeros(16 * count)[..16] == Zeros(16) && Zeros(16 * count)[16..] == Zeros(16 * (count - 1));
      ZeroBlock(cipher, ks, ks2, startBlock);
      StaysZero(cipher, ks, ks2, next, count - 1);
      assert Zeros(16) + Zeros(16 * (count - 1)) == Zeros(16 * count);
    }
  }

  // ---- Unit 1 is ----

  /** The first block of unit 1 does not stay zero. */
  lemma NextUnit(cipher: nat, ks: Bytes, ks2: Bytes)
    ensures var y := XtsEncipher(Turning(), cipher, ks, ks2)(32, Zeros(16)); |y| == 16 && y[0] != 0
  {
    ZeroNumber();
    hide LittleEndian;
    var first := Turned(LittleEndian(1, 8) + LittleEndian(0, 8));
    assert first == Zeros(15) + [1];
    Gf.WhiteningBack(first);
    assert WhiteningAt(Turning(), cipher, ks2, 1, 0) == WhiteningOf(first);
    hide WhiteningOf; hide WhiteningBytes; hide WhiteningAt;
    assert XtsTweak(Turning(), cipher, ks2, 32) == first;
    hide XtsTweak;
    TurnedTweak(first);
  }

  lemma TurnedTweak(t: Bytes)
    requires t == Zeros(15) + [1]
    ensures var y := Xor(Turned(Xor(Zeros(16), t)), t); |y| == 16 && y[0] != 0
  {
    var x := Xor(Zeros(16), t);
    assert x[15] == 0 ^ 1;
    assert Turned(x)[0] == x[15];
  }

  /** As documented, the first block after the end of unit 0 is encrypted as block 0 of unit 1. */
  lemma DocumentedDiffers(ks: Bytes, ks2: Bytes, startBlock: nat, count: nat)
    requires startBlock < BLOCKS_PER_XTS_DATA_UNIT < startBlock + count
    ensures EncryptXtsFrom(Turning(), AES, ks, ks2, 0, startBlock, Zeros(16 * count)) != Zeros(16 * count)
  {
    hide XtsEncipher; hide XtsDecipher;
    var f := XtsEncipher(Turning(), AES, ks, ks2);
    var inside := BLOCKS_PER_XTS_DATA_UNIT - startBlock;
    var a, b := Zeros(16 * inside), Zeros(16 * (count - inside));
    assert Zeros(16 * count) == a + b;
    BlocksSplitAfter(f, XTS_MODULUS, 16, startBlock, inside, a, b);
    TurningInvertible();
    Laws.XtsInverse(Turning(), AES, ks, ks2);
    UndoesKeeps(XtsDecipher(Turning(), AES, ks, ks2), f);
    BlocksLength(f, XTS_MODULUS, 16, startBlock, a);
    var first, second := Blocks(f, XTS_MODULUS, 16, startBlock, a), Blocks(f, XTS_MODULUS, 16, 32, b);
    assert b[..16] == Zeros(16);
    assert second[..16] == f(32, Zeros(16)) by { NextUnit(AES, ks, ks2); }
    NextUnit(AES, ks, ks2);
    hide Blocks; hide Keeps;
    assert (first + second)[16 * inside] == second[0] != 0;
  }

  /** Main result: a buffer that starts inside a data unit is encrypted as documented, for all ciphers and data, if and
      only if it holds a whole unit or ends in the unit where it starts. */
  lemma DocumentedUnlessStraddling(startBlock: nat, blockCount: nat)
    requires startBlock < BLOCKS_PER_XTS_DATA_UNIT
    ensures AsDocumented(startBlock, blockCount) <==> blockCount >= BLOCKS_PER_XTS_DATA_UNIT || startBlock + blockCount <= BLOCKS_PER_XTS_DATA_UNIT
  {
    hide EncryptXtsOneUnit; hide EncryptXtsFrom;
    if Straddles(startBlock, blockCount) {
      TurningInvertible();
      StaysZero(AES, [], [], startBlock, blockCount);
      DocumentedDiffers([], [], startBlock, blockCount);
      assert EncryptedXts(Turning(), AES, [], [], 0, startBlock, Zeros(16 * blockCount))
          != EncryptXtsFrom(Turning(), AES, [], [], 0, startBlock, Zeros(16 * blockCount));
    }
  }

  /** Decryption undoes encryption for every buffer, also for one that straddles. */
  lemma StraddlingUndone(ciphers: Ciphers, cipher: nat, ks: Bytes, ks2: Bytes, unitNo: nat, startBlock: nat, data: Bytes)
    requires Invertible(ciphers) && BlockSize(cipher) == 16 && |data| % 16 == 0
    ensures |EncryptedXts(ciphers, cipher, ks, ks2, unitNo, startBlock, data)| == |data|
    ensures DecryptedXts(ciphers, cipher, ks, ks2, unitNo, startBlock, EncryptedXts(ciphers, cipher, ks, ks2, unitNo, startBlock, data)) == data
  {
    hide XtsEncipher; hide XtsDecipher; hide OneUnitEncipher; hide OneUnitDecipher; hide Blocks; hide Undoes; hide Keeps;
    if Straddles(startBlock, |data| / BYTES_PER_XTS_BLOCK) {
      OneUnitInverse(ciphers, cipher, ks, ks2, unitNo);
      UndoesKeeps(OneUnitDecipher(ciphers, cipher, ks, ks2, unitNo), OneUnitEncipher(ciphers, cipher, ks, ks2, unitNo));
      BlocksUndone(OneUnitDecipher(ciphers, cipher, ks, ks2, unitNo), OneUnitEncipher(ciphers, cipher, ks, ks2, unitNo), ONE_UNIT, 16, startBlock, data);
      BlocksLength(OneUnitEncipher(ciphers, cipher, ks, ks2, unitNo), ONE_UNIT, 16, startBlock, data);
    } else {
      var first := unitNo * BLOCKS_PER_XTS_DATA_UNIT + startBlock;
      Laws.XtsInverse(ciphers, cipher, ks, ks2);
      UndoesKeeps(XtsDecipher(ciphers, cipher, ks, ks2), XtsEncipher(ciphers, cipher, ks, ks2));
      BlocksUndone(XtsDecipher(ciphers, cipher, ks, ks2), XtsEncipher(ciphers, cipher, ks, ks2), XTS_MODULUS, 16, first, data);
      BlocksLength(XtsEncipher(ciphers, cipher, ks, ks2), XTS_MODULUS, 16, first, data);
    }
  }

  lemma UndoesKeeps(g: Numbered, f: Numbered)
    requires Undoes(g, f, 16)
    ensures Keeps(f, 16)
  {
  }

  lemma OneUnitInverse(ciphers: Ciphers, cipher: nat, ks: Bytes, ks2: Bytes, unitNo: nat)
    requires Invertible(ciphers) && BlockSize(cipher) == 16
    ensures Undoes(OneUnitDecipher(ciphers, cipher, ks, ks2, unitNo), OneUnitEncipher(ciphers, cipher, ks, ks2, unitNo), 16)
  {
    hide Xor; hide UnitTweak;
    forall n: nat, x: Bytes | |x| == 16
      ensures |OneUnitEncipher(ciphers, cipher, ks, ks2, unitNo)(n, x)| == 16
      ensures OneUnitDecipher(ciphers, cipher, ks, ks2, unitNo)(n, OneUnitEncipher(ciphers, cipher, ks, ks2, unitNo)(n, x)) == x
    {
      var t := UnitTweak(ciphers, cipher, ks2, unitNo, n);
      var y := Xor(x, t);
      assert |ciphers.encipher(cipher, ks, y)| == 16;
      XorTwice(ciphers.encipher(cipher, ks, y), t);
      XorTwice(x, t);
    }
  }
}
