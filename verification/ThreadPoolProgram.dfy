/** How a request is cut into fragments, and that the loop of EncryptionThreadPoolDoWork computes
    exactly these fragments with its running locals. */
module ThreadPoolProgram {
  import opened ThreadPoolModel
  import opened ThreadPoolInvariant

  // ---- Arithmetic of the fragments ----

  lemma {:induction false} FragmentStartIs(units: nat, count: nat, k: nat)
    requires count > 0
    ensures FragmentStart(units, count, k) == k * (units / count) + Min(k, units % count)
  {
    if k > 0 {
      FragmentStartIs(units, count, k - 1);
      assert k * (units / count) == (k - 1) * (units / count) + units / count;
    }
  }

  /** The fragments tile the whole request: the last one ends at its last data unit. */
  lemma FragmentsTile(units: nat, count: nat)
    requires count > 0
    ensures FragmentStart(units, count, count) == units
  {
    FragmentStartIs(units, count, count);
    assert units == count * (units / count) + units % count;
  }

  lemma {:induction false} FragmentsAscend(units: nat, count: nat, j: nat, k: nat)
    requires count > 0 && j < k
    ensures FragmentStart(units, count, j) + FragmentSize(units, count, j) <= FragmentStart(units, count, k)
    decreases k
  {
    if j + 1 < k {
      FragmentsAscend(units, count, j, k - 1);
    }
  }

  lemma FragmentsFit(units: nat, count: nat, k: nat)
    requires k < count
    ensures FragmentStart(units, count, k) + FragmentSize(units, count, k) <= units
  {
    FragmentsTile(units, count);
    FragmentsAscend(units, count, k, count);
  }

  lemma ItemsBound(cfg: Config, call: Call)
    requires ValidConfig(cfg) && IsPooled(call)
    ensures 1 <= Items(cfg, call) <= MAX_THREAD_COUNT
    ensures !call.IsDerivation() ==> 2 <= Items(cfg, call) <= call.UnitCount()
  {
  }

  /** The fragments of one call lie inside its buffer and do not overlap. */
  lemma RegionsDisjoint(cfg: Config, call: Call, j: nat, k: nat)
    requires ValidConfig(cfg) && ValidCall(cfg, call) && IsPooled(call)
    requires j < k < Items(cfg, call)
    ensures RegionStart(cfg, call, j) + RegionSize(cfg, call, j) <= RegionStart(cfg, call, k)
  {
    FragmentsAscend(call.UnitCount(), Items(cfg, call), j, k);
  }

  lemma RegionFits(cfg: Config, call: Call, k: nat)
    requires ValidConfig(cfg) && ValidCall(cfg, call) && IsPooled(call)
    requires k < Items(cfg, call)
    ensures RegionStart(cfg, call, k) + RegionSize(cfg, call, k) <= |call.data|
  {
    if !call.IsDerivation() {
      FragmentsFit(call.UnitCount(), Items(cfg, call), k);
    }
  }

  lemma SmallQuotient(units: nat)
    requires units > 0
    ensures units / units == 1 && units % units == 0
  {
  }

  /** The size of a fragment in bytes does not wrap around in 32 bits. */
  lemma FragmentIsSmall(cfg: Config, call: Call, k: nat)
    requires ValidConfig(cfg) && ValidCall(cfg, call) && IsPooled(call) && !call.IsDerivation()
    ensures FragmentSize(call.UnitCount(), Items(cfg, call), k) * ENCRYPTION_DATA_UNIT_SIZE < TWO_TO_THE_32
  {
    var units := call.UnitCount();
    if units <= cfg.threadCount {
      SmallQuotient(units);
    }
  }

  // ---- The program invariant is kept ----

  /** The initial values of the loop's locals describe fragment 0. */
  lemma FirstFragment(cfg: Config, call: Call)
    requires ValidConfig(cfg) && ValidCall(cfg, call) && !call.IsDerivation() && call.UnitCount() >= 2
    ensures var units, n := call.UnitCount(), Items(cfg, call);
            && n == (if units <= cfg.threadCount then units else cfg.threadCount)
            && units % n == (if units <= cfg.threadCount then 0 else units % cfg.threadCount)
            && FragmentSize(units, n, 0)
               == (if units <= cfg.threadCount then 1
                   else units / cfg.threadCount + if units % cfg.threadCount > 0 then 1 else 0)
    ensures RegionStart(cfg, call, 0) == 0
    ensures RegionUnitNo(cfg, call, 0) == call.startUnitNo
  {
    if call.UnitCount() <= cfg.threadCount { SmallQuotient(call.UnitCount()); }
  }

  lemma BeginWork(cfg: Config, s: State, c: nat)
    requires ProgramInv(cfg, s) && LocksOk(cfg, s) && CallerEnabled(cfg, s, c) && s.callers[c].pc.Begin?
    requires !cfg.calls[c].IsDerivation() && cfg.calls[c].UnitCount() >= 2
    ensures ProgramOk(cfg, cfg.calls[c], BeginCall(cfg, s, c).callers[c])
  {
    hide RegionStart; hide RegionUnitNo; hide FragmentSize; hide Call.UnitCount; hide ValidCall;
    var call := cfg.calls[c];
    assert ProgramOk(cfg, call, s.callers[c]);
    assert ValidCall(cfg, call);
    FirstFragment(cfg, call);
  }

  lemma BeginProgram(cfg: Config, s: State, c: nat)
    requires ProgramInv(cfg, s) && LocksOk(cfg, s) && CallerEnabled(cfg, s, c) && s.callers[c].pc.Begin?
    ensures ProgramOk(cfg, cfg.calls[c], BeginCall(cfg, s, c).callers[c])
  {
    hide RegionStart; hide RegionUnitNo; hide FragmentSize; hide Call.UnitCount; hide ValidCall; hide LocksOk; hide AtFragment;
    var call := cfg.calls[c];
    assert ProgramOk(cfg, call, s.callers[c]);
    if !call.IsDerivation() && call.UnitCount() >= 2 {
      hide ProgramOk; hide BeginCall;
      BeginWork(cfg, s, c);
    }
  }

  lemma FillProgram(cfg: Config, s: State, c: nat)
    requires ProgramInv(cfg, s) && CallerEnabled(cfg, s, c) && s.callers[c].pc.Filling?
    requires !cfg.calls[c].IsDerivation()
    ensures ProgramOk(cfg, cfg.calls[c], FillItem(cfg, s, c).callers[c])
  {
    hide RegionUnitNo; hide FragmentStart; hide Items;
    var call := cfg.calls[c];
    var me := s.callers[c];
    OneCaller(cfg, s, c);
    NextFragment(cfg, call, me.posted);
    FragmentIsSmall(cfg, call, me.posted);
    assert AtFragment(cfg, FillItem(cfg, s, c).callers[c], call, me.posted + 1);
  }

  lemma OneCaller(cfg: Config, s: State, c: nat)
    requires ProgramInv(cfg, s) && c < |s.callers|
    ensures ValidConfig(cfg) && ValidCall(cfg, cfg.calls[c]) && ProgramOk(cfg, cfg.calls[c], s.callers[c])
  {
  }

  lemma NextFragment(cfg: Config, call: Call, j: nat)
    requires !call.IsDerivation() && Items(cfg, call) > 0
    ensures RegionStart(cfg, call, j + 1) == RegionStart(cfg, call, j) + RegionSize(cfg, call, j)
    ensures RegionUnitNo(cfg, call, j + 1)
         == (RegionUnitNo(cfg, call, j) + FragmentSize(call.UnitCount(), Items(cfg, call), j)) % TWO_TO_THE_64
  {
    AddThenWrap(call.startUnitNo + FragmentStart(call.UnitCount(), Items(cfg, call), j),
                FragmentSize(call.UnitCount(), Items(cfg, call), j));
  }

  lemma AddThenWrap(a: nat, b: nat)
    ensures (a % TWO_TO_THE_64 + b) % TWO_TO_THE_64 == (a + b) % TWO_TO_THE_64
  {
  }

  lemma TakingProgram(cfg: Config, s: State, c: nat)
    requires ProgramInv(cfg, s) && CallerEnabled(cfg, s, c) && s.callers[c].pc.Taking? && s.callers[c].left > 0
    ensures ProgramOk(cfg, cfg.calls[c], ReserveItem(cfg, s, c).callers[c])
  {
    hide RegionStart; hide RegionUnitNo; hide FragmentSize; hide Items; hide Call.UnitCount;
    assert ProgramOk(cfg, cfg.calls[c], s.callers[c]);
  }

  lemma PostingProgram(cfg: Config, s: State, c: nat)
    requires ProgramInv(cfg, s) && CallerEnabled(cfg, s, c) && s.callers[c].pc.Posting?
    ensures ProgramOk(cfg, cfg.calls[c], PostItem(cfg, s, c).callers[c])
  {
    hide RegionStart; hide RegionUnitNo; hide FragmentSize; hide Call.UnitCount;
    assert ProgramOk(cfg, cfg.calls[c], s.callers[c]);
  }

  lemma OpeningProgram(cfg: Config, s: State, c: nat)
    requires ProgramInv(cfg, s) && CallerEnabled(cfg, s, c) && s.callers[c].pc.CheckingFirst?
    ensures ProgramOk(cfg, cfg.calls[c], OpenBatch(cfg, s, c).callers[c])
  {
    hide RegionStart; hide RegionUnitNo; hide FragmentSize; hide Items; hide Call.UnitCount;
    assert ProgramOk(cfg, cfg.calls[c], s.callers[c]);
  }

  lemma MovingProgram(cfg: Config, call: Call, x: CallerState, pc: CallerPc)
    requires ProgramOk(cfg, call, x) && MovesTo(call, x, pc)
    ensures ProgramOk(cfg, call, x.(pc := pc))
  {
    hide RegionStart; hide RegionUnitNo; hide FragmentSize; hide Items; hide Call.UnitCount;
  }

  lemma CallerProgram(cfg: Config, s: State, c: nat)
    requires ProgramInv(cfg, s) && LocksOk(cfg, s) && CallerEnabled(cfg, s, c)
    ensures ProgramInv(cfg, CallerStep(cfg, s, c))
  {
    hide ProgramOk; hide CallerStep;
    CallerProgramOwn(cfg, s, c);
    var s' := CallerStep(cfg, s, c);
    forall x | 0 <= x < |s'.callers| ensures ProgramOk(cfg, cfg.calls[x], s'.callers[x]) {
      assert ProgramOk(cfg, cfg.calls[x], s.callers[x]);
    }
  }

  lemma CallerProgramOwn(cfg: Config, s: State, c: nat)
    requires ProgramInv(cfg, s) && LocksOk(cfg, s) && CallerEnabled(cfg, s, c)
    ensures ProgramOk(cfg, cfg.calls[c], CallerStep(cfg, s, c).callers[c])
  {
    hide ProgramOk;
    var me := s.callers[c];
    var call := cfg.calls[c];
    assert ProgramOk(cfg, call, me);
    if me.pc.Begin? {
      BeginProgram(cfg, s, c);
    } else if me.pc.CheckingFirst? && s.queue[me.first].state == WorkItemFree {
      OpeningProgram(cfg, s, c);
    } else if me.pc.Taking? && me.left > 0 {
      TakingProgram(cfg, s, c);
    } else if me.pc.Filling? && !call.IsDerivation() {
      FillProgram(cfg, s, c);
    } else if me.pc.Posting? {
      PostingProgram(cfg, s, c);
    } else {
      MovingProgram(cfg, call, me, CallerStep(cfg, s, c).callers[c].pc);
    }
  }

  lemma LocalsProgram(cfg: Config, call: Call, x: CallerState, y: CallerState)
    requires ProgramOk(cfg, call, x) && SameLocals(x, y)
    ensures ProgramOk(cfg, call, y)
  {
    hide RegionStart; hide RegionUnitNo; hide FragmentSize; hide Items; hide Call.UnitCount;
  }

  lemma WorkerProgram(cfg: Config, s: State, w: nat, scratch: Bytes)
    requires ProgramInv(cfg, s) && WorkerEnabled(cfg, s, w)
    ensures ProgramInv(cfg, WorkerStep(cfg, s, w, scratch))
  {
    hide ProgramOk; hide WorkerStep;
    var s' := WorkerStep(cfg, s, w, scratch);
    forall x | 0 <= x < |s'.callers| ensures ProgramOk(cfg, cfg.calls[x], s'.callers[x]) {
      assert ProgramOk(cfg, cfg.calls[x], s.callers[x]);
      assert SameLocals(s.callers[x], s'.callers[x]);
      LocalsProgram(cfg, cfg.calls[x], s.callers[x], s'.callers[x]);
    }
  }
}
