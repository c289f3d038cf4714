/** The modes of operation given to the thread pool: EncryptDataUnits and DecryptDataUnits of
    Common/Crypto.c, which hand a buffer of data units to EncryptionThreadPoolDoWork. */
module CryptoPool {
  import opened CryptoModes
  import opened CryptoSpec
  import Laws = CryptoLaws
  import Pool = ThreadPoolModel
  import Data = ThreadPoolData

  /** What a worker does to a piece of the buffer: EncryptDataUnitsCurrentThread. */
  function EncryptWork(ciphers: Ciphers, ci: CryptoInfo): Pool.Work {
    (u: nat, b: Bytes) =>
      if u < TWO_TO_THE_64 && |b| % ENCRYPTION_DATA_UNIT_SIZE == 0 then EncryptUnits(ciphers, ci, u, b) else b
  }

  function DecryptWork(ciphers: Ciphers, ci: CryptoInfo): Pool.Work {
    (u: nat, b: Bytes) =>
      if u < TWO_TO_THE_64 && |b| % ENCRYPTION_DATA_UNIT_SIZE == 0 then DecryptUnits(ciphers, ci, u, b) else b
  }

  lemma WorkLength(ciphers: Ciphers, ci: CryptoInfo, u: nat, b: Bytes)
    requires Laws.LengthPreserving(ciphers) && ValidInfo(ciphers, ci)
    ensures |EncryptWork(ciphers, ci)(u, b)| == |b| && |DecryptWork(ciphers, ci)(u, b)| == |b|
  {
    hide EncryptUnits; hide DecryptUnits; hide ValidInfo; hide Laws.LengthPreserving;
    if u < TWO_TO_THE_64 && |b| % ENCRYPTION_DATA_UNIT_SIZE == 0 { Laws.UnitsLength(ciphers, ci, u, b); }
  }

  lemma WorkSplits(ciphers: Ciphers, ci: CryptoInfo, u: nat, a: Bytes, b: Bytes, next: nat)
    requires Laws.LengthPreserving(ciphers) && ValidInfo(ciphers, ci)
    requires u < TWO_TO_THE_64 && |a| % ENCRYPTION_DATA_UNIT_SIZE == 0 && |b| % ENCRYPTION_DATA_UNIT_SIZE == 0
    requires next == (u + |a| / ENCRYPTION_DATA_UNIT_SIZE) % TWO_TO_THE_64
    ensures EncryptWork(ciphers, ci)(u, a + b) == EncryptWork(ciphers, ci)(u, a) + EncryptWork(ciphers, ci)(next, b)
    ensures DecryptWork(ciphers, ci)(u, a + b) == DecryptWork(ciphers, ci)(u, a) + DecryptWork(ciphers, ci)(next, b)
  {
    hide EncryptUnits; hide DecryptUnits; hide ValidInfo; hide Laws.LengthPreserving;
    assert |a + b| % ENCRYPTION_DATA_UNIT_SIZE == 0;
    Laws.UnitsSplit(ciphers, ci, u, a, b);
  }

  /** Data units are independent of each other in every mode, so that any split is as good as none. */
  lemma WorkIsUnitWise(ciphers: Ciphers, ci: CryptoInfo)
    requires Laws.LengthPreserving(ciphers) && ValidInfo(ciphers, ci)
    ensures Pool.UnitWise(EncryptWork(ciphers, ci)) && Pool.UnitWise(DecryptWork(ciphers, ci))
  {
    hide EncryptWork; hide DecryptWork; hide ValidInfo; hide Laws.LengthPreserving;
    var f, g := EncryptWork(ciphers, ci), DecryptWork(ciphers, ci);
    forall u: nat, b: Bytes ensures |f(u, b)| == |b| && |g(u, b)| == |b| { WorkLength(ciphers, ci, u, b); }
    forall u: nat, a: Bytes, b: Bytes
      | u < TWO_TO_THE_64 && |a| % ENCRYPTION_DATA_UNIT_SIZE == 0 && |b| % ENCRYPTION_DATA_UNIT_SIZE == 0
      ensures f(u, a + b) == f(u, a) + f((u + |a| / ENCRYPTION_DATA_UNIT_SIZE) % TWO_TO_THE_64, b)
      ensures g(u, a + b) == g(u, a) + g((u + |a| / ENCRYPTION_DATA_UNIT_SIZE) % TWO_TO_THE_64, b)
    {
      WorkSplits(ciphers, ci, u, a, b, (u + |a| / ENCRYPTION_DATA_UNIT_SIZE) % TWO_TO_THE_64);
    }
  }

  /** A request to encrypt or decrypt data units that fits the pool's arithmetic is a valid call. */
  lemma RequestIsValid(cfg: Pool.Config, call: Pool.Call, ciphers: Ciphers, ci: CryptoInfo)
    requires Laws.LengthPreserving(ciphers) && ValidInfo(ciphers, ci) && cfg.threadCount > 0
    requires call.work == EncryptWork(ciphers, ci) || call.work == DecryptWork(ciphers, ci)
    requires call.startUnitNo < TWO_TO_THE_64 && |call.data| % ENCRYPTION_DATA_UNIT_SIZE == 0
    requires call.UnitCount() / cfg.threadCount + 1 < Pool.TWO_TO_THE_32 / ENCRYPTION_DATA_UNIT_SIZE
    ensures Pool.ValidCall(cfg, call)
  {
    hide EncryptWork; hide DecryptWork; hide Laws.LengthPreserving; hide ValidInfo;
    WorkIsUnitWise(ciphers, ci);
  }

  /** EncryptionThreadPoolDoWork has consumed its completion event or has returned. */
  predicate Returned(s: Pool.State, c: nat) {
    c < |s.callers| && s.callers[c].pc in {Pool.FreeingFirst, Pool.SignallingFirst, Pool.Done}
  }

  /** Main result: however its threads interleave, whatever other callers do, the pool leaves in a buffer
      what EncryptDataUnitsCurrentThread, or its inverse, leaves in it. */
  lemma PoolComputesMode(cfg: Pool.Config, s: Pool.State, c: nat, ciphers: Ciphers, ci: CryptoInfo)
    requires Pool.ValidConfig(cfg) && Pool.Reachable(cfg, s) && Pool.Shaped(cfg, s) && Returned(s, c)
    requires !cfg.calls[c].IsDerivation()
    ensures var call := cfg.calls[c];
            && (call.work == EncryptWork(ciphers, ci) ==> s.memory[c] == EncryptUnits(ciphers, ci, call.startUnitNo, call.data))
            && (call.work == DecryptWork(ciphers, ci) ==> s.memory[c] == DecryptUnits(ciphers, ci, call.startUnitNo, call.data))
  {
    hide EncryptUnits; hide DecryptUnits; hide Pool.Reachable;
    hide Pool.UnitWise;
    Data.ReturnedBufferIsSequential(cfg, s, c);
    var call := cfg.calls[c];
    assert Pool.ValidCall(cfg, call);
    var f, g, u, b := EncryptWork(ciphers, ci), DecryptWork(ciphers, ci), call.startUnitNo, call.data;
    assert u < TWO_TO_THE_64 && |b| % ENCRYPTION_DATA_UNIT_SIZE == 0;
    assert f(u, b) == EncryptUnits(ciphers, ci, u, b) && g(u, b) == DecryptUnits(ciphers, ci, u, b);
    assert s.memory[c] == call.work(u, b);
  }

  /** Main result: what one run of the pool encrypted, another run of a pool, perhaps with another number of
      threads, decrypts. */
  lemma PoolRoundTrip(cfg: Pool.Config, s: Pool.State, c: nat, cfg': Pool.Config, s': Pool.State, c': nat, ciphers: Ciphers, ci: CryptoInfo)
    requires Invertible(ciphers) && ValidInfo(ciphers, ci)
    requires Pool.ValidConfig(cfg) && Pool.Reachable(cfg, s) && Pool.Shaped(cfg, s) && Returned(s, c)
    requires Pool.ValidConfig(cfg') && Pool.Reachable(cfg', s') && Pool.Shaped(cfg', s') && Returned(s', c')
    requires !cfg.calls[c].IsDerivation() && cfg.calls[c].work == EncryptWork(ciphers, ci)
    requires !cfg'.calls[c'].IsDerivation() && cfg'.calls[c'].work == DecryptWork(ciphers, ci)
    requires cfg'.calls[c'].startUnitNo == cfg.calls[c].startUnitNo && cfg'.calls[c'].data == s.memory[c]
    ensures s'.memory[c'] == cfg.calls[c].data
  {
    hide EncryptUnits; hide DecryptUnits; hide EncryptWork; hide DecryptWork; hide Pool.Reachable; hide Invertible; hide ValidInfo;
    PoolComputesMode(cfg, s, c, ciphers, ci);
    PoolComputesMode(cfg', s', c', ciphers, ci);
    var call := cfg.calls[c];
    assert Pool.ValidCall(cfg, call);
    Laws.UnitsInverse(ciphers, ci, call.startUnitNo, call.data);
  }
}
