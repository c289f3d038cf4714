/** When EncryptBuffer of Common/Crypto.c encrypts the whole buffer it is given. */
module CryptoLength {
  import opened Arithmetic
  import opened CryptoModes
  import opened CryptoSpec
  import Laws = CryptoLaws

  /** In this mode all buffers of this length are encrypted as a whole, with any ciphers and keys. */
  ghost predicate EncryptsAll(mode: Mode, length: nat) {
    forall ciphers: Ciphers, ci: CryptoInfo, data: Bytes ::
      Invertible(ciphers) && ValidInfo(ciphers, ci) && ci.mode == mode && |data| == length && Laws.WholeBlocks(ci, length) ==>
        EncryptedBuffer(ciphers, ci, data) == EncryptWhole(ciphers, ci, data)
  }

  // ---- A cipher that turns bits over ----

  function Fill(n: nat, b: bv8): (s: Bytes)
    ensures |s| == n
  {
    seq(n, _ => b)
  }

  function TurnedOver(x: Bytes): (r: Bytes)
    ensures |r| == |x|
  {
    seq(|x|, i requires 0 <= i < |x| => Not(x[i]))
  }

  function Not(b: bv8): bv8 { b ^ 0xff }

  lemma NotTwice(b: bv8)
    ensures Not(Not(b)) == b && Not(0xff) == 0
  {
  }

  /** One cipher turns bits over, the others do nothing; there are no keys. */
  function Turning(which: nat): Ciphers {
    var f := (c: nat, k: Bytes, x: Bytes) => if c == which then TurnedOver(x) else x;
    Ciphers(f, f, c => 0)
  }

  lemma TurningInvertible(which: nat)
    ensures Invertible(Turning(which))
  {
    forall x: Bytes ensures TurnedOver(TurnedOver(x)) == x {
      forall i | 0 <= i < |x| ensures Not(Not(x[i])) == x[i] { NotTwice(x[i]); }
    }
  }

  function NoKeys(ea: nat, mode: Mode): CryptoInfo { CryptoInfo(ea, mode, [], [], Fill(32, 0), i => [], i => [], false, 0) }

  // ---- Buffers of one value ----

  lemma XorFill(n: nat, b: bv8)
    ensures Xor(Fill(n, b), Fill(n, 0)) == Fill(n, b)
  {
  }

  lemma TurnedFill(n: nat)
    ensures TurnedOver(Fill(n, 0xff)) == Fill(n, 0)
  {
    NotTwice(0);
  }

  lemma {:induction false} CbcFill(e: Block, size: nat, b: bv8, n: nat)
    requires size > 0 && n % size == 0 && e(Fill(size, b)) == Fill(size, 0)
    ensures CbcEncrypt(e, size, Fill(size, 0), Fill(size, 0), Fill(n, b)) == Fill(n, 0)
    decreases n
  {
    hide Xor; hide CbcEncrypt;
    WholeBlocksLeft(n, size);
    if n == 0 {
      NothingLeft(e, size, Fill(size, 0), Fill(size, 0), Fill(n, b));
    } else {
      assert Fill(n, b) == Fill(size, b) + Fill(n - size, b);
      CbcEncryptFirst(e, size, Fill(size, 0), Fill(size, 0), Fill(size, b), Fill(n - size, b));
      XorFill(size, b);
      XorFill(size, 0);
      CbcFill(e, size, b, n - size);
      assert Fill(size, 0) + Fill(n - size, 0) == Fill(n, 0);
    }
  }

  lemma NothingLeft(e: Block, size: nat, chain: Bytes, white: Bytes, data: Bytes)
    requires size > 0 && data == []
    ensures CbcEncrypt(e, size, chain, white, data) == []
  {
  }

  /** In a CBC mode these keys and ciphers make zeros of a buffer in which all bits are set. */
  lemma ZerosInCbc(n: nat)
    requires n % 8 == 0
    ensures EncryptWhole(Turning(BLOWFISH), NoKeys(9, CBC), Fill(n, 0xff)) == Fill(n, 0)
  {
    var ciphers, ci := Turning(BLOWFISH), NoKeys(9, CBC);
    var f := EncryptCbcStage(ciphers, ci, SeedsOfBuffer(ci));
    StageTurns(ciphers, ci, 0, BLOWFISH, n);
    hide EncryptCbcStage; hide Turning;
    assert Forward(f, 1, Fill(n, 0xff)) == f(0, Forward(f, 0, Fill(n, 0xff)));
  }

  lemma ZerosInInnerCbc(n: nat)
    requires n % 16 == 0
    ensures EncryptWhole(Turning(BLOWFISH), NoKeys(12, INNER_CBC), Fill(n, 0xff)) == Fill(n, 0)
  {
    var ciphers, ci := Turning(BLOWFISH), NoKeys(12, INNER_CBC);
    var f := EncryptCbcStage(ciphers, ci, SeedsOfBuffer(ci));
    StageTurns(ciphers, ci, 0, BLOWFISH, n);
    StageStays(ciphers, ci, 1, BLOWFISH, n);
    hide EncryptCbcStage; hide Turning;
    var x := Fill(n, 0xff);
    assert Forward(f, 1, x) == f(0, Forward(f, 0, x));
    assert Forward(f, 2, x) == f(1, Forward(f, 1, x));
  }

  /** A stage whose cipher turns bits over. */
  lemma StageTurns(ciphers: Ciphers, ci: CryptoInfo, j: nat, which: nat, n: nat)
    requires ciphers == Turning(which) && CipherAt(ci.ea, j) == which && ci.k2 == Fill(32, 0) && n % BlockSize(which) == 0
    ensures EncryptCbcStage(ciphers, ci, SeedsOfBuffer(ci))(j, Fill(n, 0xff)) == Fill(n, 0)
  {
    hide CbcEncrypt;
    var size := BlockSize(which);
    NoSeed(ci, size);
    TurnedFill(size);
    Enciphers(ciphers, ci, j, which, Fill(size, 0xff));
    CbcFill(CbcEncipher(ciphers, ci, j), size, 0xff, n);
  }

  lemma StageStays(ciphers: Ciphers, ci: CryptoInfo, j: nat, which: nat, n: nat)
    requires ciphers == Turning(which) && CipherAt(ci.ea, j) != which && ci.k2 == Fill(32, 0)
    requires n % BlockSize(CipherAt(ci.ea, j)) == 0
    ensures EncryptCbcStage(ciphers, ci, SeedsOfBuffer(ci))(j, Fill(n, 0)) == Fill(n, 0)
  {
    hide CbcEncrypt;
    var size := BlockSize(CipherAt(ci.ea, j));
    NoSeed(ci, size);
    Enciphers(ciphers, ci, j, which, Fill(size, 0));
    CbcFill(CbcEncipher(ciphers, ci, j), size, 0, n);
  }

  lemma Enciphers(ciphers: Ciphers, ci: CryptoInfo, j: nat, which: nat, x: Bytes)
    requires ciphers == Turning(which)
    ensures CbcEncipher(ciphers, ci, j)(x) == if CipherAt(ci.ea, j) == which then TurnedOver(x) else x
  {
    hide Schedule; hide TurnedOver;
    var k := Schedule(ciphers, ci.ea, ci.ks, j);
    assert EncipherStage(ciphers, ci)(j, x) == ciphers.encipher(CipherAt(ci.ea, j), k, x);
  }

  lemma NoSeed(ci: CryptoInfo, size: nat)
    requires ci.k2 == Fill(32, 0) && (size == 8 || size == 16)
    ensures var seed := SeedsOfBuffer(ci)(size); seed.iv == Fill(size, 0) && BlockWhite(seed.white, size) == Fill(size, 0)
  {
    assert SeedsOfBuffer(ci)(size) == SeedOfBuffer(ci, size);
    assert ci.k2[..size] == Fill(size, 0) && ci.k2[8..16] == Fill(8, 0) && Fill(8, 0) + Fill(8, 0) == Fill(16, 0);
  }

  lemma ZerosInOuterCbc(n: nat)
    requires n % 16 == 0
    ensures EncryptWhole(Turning(TWOFISH), NoKeys(4, OUTER_CBC), Fill(n, 0xff)) == Fill(n, 0)
  {
    hide CbcEncrypt;
    var ciphers, ci := Turning(TWOFISH), NoKeys(4, OUTER_CBC);
    NoSeed(ci, 16);
    TurnedFill(16);
    BothCiphers();
    CbcFill(EncipherAll(ciphers, ci), 16, 0xff, n);
  }

  lemma BothCiphers()
    ensures EncipherAll(Turning(TWOFISH), NoKeys(4, OUTER_CBC))(Fill(16, 0xff)) == Fill(16, 0)
  {
    TurnedFill(16);
    var ci := NoKeys(4, OUTER_CBC);
    var f := EncipherStage(Turning(TWOFISH), ci);
    var x := Fill(16, 0xff);
    assert CipherAt(4, 0) == TWOFISH && CipherAt(4, 1) == AES && CipherCount(4) == 2;
    assert f(0, x) == Fill(16, 0) && f(1, Fill(16, 0)) == Fill(16, 0);
    hide EncipherStage; hide Turning;
    assert Forward(f, 0, x) == x && Forward(f, 1, x) == f(0, x) && Forward(f, 2, x) == f(1, f(0, x));
  }

  /** Keys and ciphers for each CBC mode. */
  function Weakest(mode: Mode): (Ciphers, CryptoInfo)
  {
    match mode
    case OUTER_CBC => (Turning(TWOFISH), NoKeys(4, OUTER_CBC))
    case INNER_CBC => (Turning(BLOWFISH), NoKeys(12, INNER_CBC))
    case _ => (Turning(BLOWFISH), NoKeys(9, CBC))
  }

  lemma Zeros(mode: Mode, n: nat)
    requires mode != XTS && mode != LRW && n % LeastMultiple(mode) == 0
    ensures var (ciphers, ci) := Weakest(mode);
            && Invertible(ciphers) && ValidInfo(ciphers, ci) && ci.mode == mode && Laws.WholeBlocks(ci, n)
            && EncryptWhole(ciphers, ci, Fill(n, 0xff)) == Fill(n, 0)
  {
    hide Invertible; hide Turning; hide EncryptWhole;
    TurningInvertible(TWOFISH);
    TurningInvertible(BLOWFISH);
    match mode
    case OUTER_CBC =>
      ZerosInOuterCbc(n);
      NoKeysValid(TWOFISH, 4, mode);
    case INNER_CBC =>
      ZerosInInnerCbc(n);
      NoKeysValid(BLOWFISH, 12, mode);
    case CBC =>
      ZerosInCbc(n);
      NoKeysValid(BLOWFISH, 9, mode);
  }

  lemma NoKeysValid(which: nat, ea: nat, mode: Mode)
    requires IsAlgorithm(ea) && mode in Algorithm(ea).modes
    ensures ValidInfo(Turning(which), NoKeys(ea, mode))
  {
    hide Algorithm;
    NoOffset(which, ea, CipherCount(ea));
  }

  lemma {:induction false} NoOffset(which: nat, ea: nat, j: nat)
    ensures KsOffset(Turning(which), ea, j) == 0
  {
    if j > 0 { NoOffset(which, ea, j - 1); }
  }

  /** What lengths can be a multiple of. */
  function LeastMultiple(mode: Mode): nat { if mode == LRW || mode == CBC then 8 else 16 }

  lemma CutMultiple(mode: Mode, length: nat)
    requires length % LeastMultiple(mode) == 0
    ensures UsedLength(mode, length) % LeastMultiple(mode) == 0
  {
    Laws.CutOff(length, LeastMultiple(mode));
  }

  /** Main result: all buffers of a length are encrypted as a whole, with any ciphers and keys, if and only if the mode is
      XTS or LRW or the length fits 32 bits. */
  lemma WholeUnlessCut(mode: Mode, length: nat)
    requires length % LeastMultiple(mode) == 0
    ensures EncryptsAll(mode, length) <==> mode == XTS || mode == LRW || length < 0x1_0000_0000
  {
    hide EncryptWhole; hide Invertible; hide ValidInfo; hide Laws.WholeBlocks;
    if mode == XTS || mode == LRW || length < 0x1_0000_0000 {
      assert UsedLength(mode, length) == length;
      forall ciphers: Ciphers, ci: CryptoInfo, data: Bytes | ci.mode == mode && |data| == length
        ensures EncryptedBuffer(ciphers, ci, data) == EncryptWhole(ciphers, ci, data)
      {
        assert data[..length] == data && data[length..] == [];
      }
    } else {
      var n := UsedLength(mode, length);
      var (ciphers, ci) := Weakest(mode);
      var data := Fill(length, 0xff);
      CutMultiple(mode, length);
      Zeros(mode, length);
      Zeros(mode, n);
      assert data[..n] == Fill(n, 0xff);
      assert EncryptedBuffer(ciphers, ci, data)[n] == 0xff;
      assert EncryptedBuffer(ciphers, ci, data) != EncryptWhole(ciphers, ci, data);
    }
  }

  /** A buffer of 4 GiB is not encrypted at all in a CBC mode. */
  lemma NothingEncrypted(ciphers: Ciphers, ci: CryptoInfo, data: Bytes)
    requires ValidInfo(ciphers, ci) && ci.mode != XTS && ci.mode != LRW && |data| == 0x1_0000_0000
    ensures EncryptedBuffer(ciphers, ci, data) == data
  {
    assert UsedLength(ci.mode, |data|) == 0;
    assert data[..0] == [] && data[0..] == data;
    OfNothing(ciphers, ci);
    hide EncryptWhole;
  }

  lemma OfNothing(ciphers: Ciphers, ci: CryptoInfo)
    requires ci.mode != XTS && ci.mode != LRW
    ensures EncryptWhole(ciphers, ci, []) == []
  {
    var f := EncryptCbcStage(ciphers, ci, SeedsOfBuffer(ci));
    forall j: nat ensures f(j, []) == [] {
      var size := BlockSize(CipherAt(ci.ea, j));
      var seed := SeedsOfBuffer(ci)(size);
      NothingLeft(CbcEncipher(ciphers, ci, j), size, seed.iv, BlockWhite(seed.white, size), []);
    }
    ForwardOfNothing(f, CipherCount(ci.ea));
  }

  lemma {:induction false} ForwardOfNothing(f: Numbered, n: nat)
    requires forall j: nat :: f(j, []) == []
    ensures Forward(f, n, []) == []
    decreases n
  {
    if n > 0 { ForwardOfNothing(f, n - 1); }
  }
}
