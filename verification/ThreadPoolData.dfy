/** What the threads leave in the buffers: a call returns with its buffer as one sequential call on
    the whole of it would have left it. */
module ThreadPoolData {
  import opened ThreadPoolModel
  import opened ThreadPoolInvariant
  import opened ThreadPoolProgram
  import opened ThreadPoolRing
  import opened ThreadPoolSafety
  import opened ThreadPoolFrame

  datatype Progress = Untouched | Dirty | Processed

  function HeldProgress(pc: WorkerPc): Progress {
    match pc
    case ReleasingDequeue => Untouched
    case Starting => Untouched
    case Working(_) => Dirty
    case _ => Processed
  }

  /** How far item k of call c has come. */
  function ProgressOf(s: State, c: nat, k: nat): Progress
    requires c < |s.callers|
  {
    var t := s.callers[c].firstTicket + k;
    if k >= s.callers[c].posted || t >= |s.log| then Untouched
    else
      match s.log[t].phase
      case Posted => Untouched
      case Held(w) => if w < |s.workers| then HeldProgress(s.workers[w].pc) else Dirty
      case _ => Processed
  }

  /** The part of the buffer that item k covers, as it was when the call was made. */
  function Original(cfg: Config, call: Call, k: nat): Bytes
    requires Items(cfg, call) > 0
  {
    Slice(call.data, RegionStart(cfg, call, k), RegionSize(cfg, call, k))
  }

  predicate PartOk(cfg: Config, call: Call, buffer: Bytes, k: nat, p: Progress)
    requires Items(cfg, call) > 0
  {
    var part := Slice(buffer, RegionStart(cfg, call, k), RegionSize(cfg, call, k));
    match p
    case Untouched => part == Original(cfg, call, k)
    case Dirty => true
    case Processed => part == call.work(RegionUnitNo(cfg, call, k), Original(cfg, call, k))
  }

  ghost predicate BufferOk(cfg: Config, s: State, c: nat)
    requires Shaped(cfg, s) && c < |s.callers|
  {
    var call := cfg.calls[c];
    && |s.memory[c]| == |call.data|
    && (!IsPooled(call) ==> s.memory[c] == if s.callers[c].pc.Begin? then call.data else SequentialResult(call))
    && (IsPooled(call) && Items(cfg, call) > 0 ==>
          forall k: nat :: k < Items(cfg, call) ==> PartOk(cfg, call, s.memory[c], k, ProgressOf(s, c, k)))
  }

  predicate FlagOk(cfg: Config, s: State, c: nat)
    requires Shaped(cfg, s) && c < |s.callers|
  {
    s.completionFlags[c] ==> cfg.calls[c].IsDerivation() && s.callers[c].posted > 0 && ProgressOf(s, c, 0).Processed?
  }

  /** A working worker has read its part of the buffer as the caller left it. */
  predicate InputOk(cfg: Config, s: State, w: nat)
    requires Shaped(cfg, s) && w < |s.workers|
  {
    var me := s.workers[w];
    me.pc.Working? && me.ticket < |s.log| && s.log[me.ticket].call < |cfg.calls| ==>
      var x := s.log[me.ticket];
      Items(cfg, cfg.calls[x.call]) > 0 ==> me.input == Original(cfg, cfg.calls[x.call], x.k)
  }

  ghost predicate Data(cfg: Config, s: State)
    requires Shaped(cfg, s)
  {
    && (forall c :: 0 <= c < |s.callers| ==> BufferOk(cfg, s, c) && FlagOk(cfg, s, c))
    && (forall w :: 0 <= w < |s.workers| ==> InputOk(cfg, s, w))
  }

  // ---- Overwriting part of a buffer ----

  lemma OverwriteElsewhere(buffer: Bytes, at: nat, bytes: Bytes, a: nat, n: nat)
    requires a + n <= at || at + |bytes| <= a
    ensures Slice(Overwrite(buffer, at, bytes), a, n) == Slice(buffer, a, n)
  {
  }

  lemma OverwriteHere(buffer: Bytes, at: nat, bytes: Bytes)
    requires at + |bytes| <= |buffer|
    ensures Slice(Overwrite(buffer, at, bytes), at, |bytes|) == bytes
  {
  }

  /** Writing item j's part of the buffer leaves the other parts alone. */
  lemma OtherParts(cfg: Config, call: Call, buffer: Bytes, j: nat, bytes: Bytes, k: nat, p: Progress)
    requires ValidConfig(cfg) && ValidCall(cfg, call) && IsPooled(call) && Items(cfg, call) > 0
    requires j < Items(cfg, call) && k < Items(cfg, call) && j != k
    requires |bytes| == RegionSize(cfg, call, j) && PartOk(cfg, call, buffer, k, p)
    ensures PartOk(cfg, call, Overwrite(buffer, RegionStart(cfg, call, j), bytes), k, p)
  {
    hide Overwrite; hide Slice; hide RegionStart; hide RegionSize; hide RegionUnitNo;
    RegionsDisjoint(cfg, call, if j < k then j else k, if j < k then k else j);
    OverwriteElsewhere(buffer, RegionStart(cfg, call, j), bytes, RegionStart(cfg, call, k), RegionSize(cfg, call, k));
  }

  // ---- Steps of a worker ----

  /** Progress of an item is kept by every step of a worker, except that a worker which has read
      its part starts to change it, and that a worker which is done with it says so. */
  lemma WorkerProgress(cfg: Config, s: State, s': State, w: nat, c: nat, k: nat)
    requires RingInv(cfg, s) && RingInv(cfg, s') && w < |s.workers| && WorkerFrame(s, s', w) && KeepsLocals(s, s')
    requires c < |s.callers| && k < s.callers[c].posted
    ensures var p, p' := ProgressOf(s, c, k), ProgressOf(s', c, k);
            p' == p || p'.Dirty?
            || (p'.Processed? && s.workers[w].pc == Working(0) && s.callers[c].firstTicket + k == s.workers[w].ticket)
  {
    hide RegionStart; hide RegionUnitNo; hide FragmentSize; hide Call.UnitCount; hide FragmentCount; hide Carries; hide Items;
    hide BatchOk; hide ItemOk; hide ProgramOk; hide LocksOk; hide TicketItemOk; hide TicketCountOk; hide LapOk;
    var t := s.callers[c].firstTicket + k;
    assert CallerOk(cfg, s, c) && Mine(s, c, s.callers[c].firstTicket, k);
    assert TicketOk(cfg, s, t) && TicketOk(cfg, s', t);
    assert WorkerOk(cfg, s, w) && WorkerOk(cfg, s', w);
    assert SameLocals(s.callers[c], s'.callers[c]);
  }

  lemma ProgressKept(cfg: Config, s: State, s': State, w: nat, c: nat, k: nat)
    requires RingInv(cfg, s) && RingInv(cfg, s') && w < |s.workers| && WorkerFrame(s, s', w) && KeepsLocals(s, s')
    requires c < |s.callers|
    ensures var p, p' := ProgressOf(s, c, k), ProgressOf(s', c, k);
            p' == p || p'.Dirty?
            || (p'.Processed? && s.workers[w].pc == Working(0) && s.workers[w].ticket < |s.log|
                && s.log[s.workers[w].ticket].call == c && s.log[s.workers[w].ticket].k == k)
  {
    hide LocksOk; hide TicketOk; hide WorkerOk; hide ItemOk; hide ProgramOk; hide BatchOk; hide Items; hide Carries;
    assert SameLocals(s.callers[c], s'.callers[c]);
    if k < s.callers[c].posted {
      WorkerProgress(cfg, s, s', w, c, k);
      assert CallerOk(cfg, s, c) && Mine(s, c, s.callers[c].firstTicket, k);
    }
  }

  lemma OwnProgress(cfg: Config, s: State, w: nat)
    requires RingInv(cfg, s) && w < |s.workers| && s.workers[w].pc.Working?
    ensures var t := s.workers[w].ticket;
            && t < |s.log| && s.log[t].call < |s.callers|
            && ProgressOf(s, s.log[t].call, s.log[t].k).Dirty?
  {
    hide LocksOk; hide ItemOk; hide ProgramOk; hide CallerOk; hide Items; hide Carries; hide TicketItemOk; hide TicketCountOk; hide LapOk;
    assert WorkerOk(cfg, s, w);
    assert TicketOk(cfg, s, s.workers[w].ticket);
  }

  lemma Facts(cfg: Config, s: State, c: nat)
    requires RingInv(cfg, s) && c < |s.callers|
    ensures Shaped(cfg, s) && ValidConfig(cfg) && ValidCall(cfg, cfg.calls[c])
    ensures IsPooled(cfg.calls[c]) ==> 0 < Items(cfg, cfg.calls[c])
  {
    hide LocksOk; hide ItemOk; hide TicketOk; hide CallerOk; hide WorkerOk; hide Items;
    assert ProgramOk(cfg, cfg.calls[c], s.callers[c]);
  }

  /** How many bytes a held item covers is what the caller meant it to cover. */
  lemma HeldRegion(cfg: Config, s: State, w: nat)
    requires RingInv(cfg, s) && w < |s.workers| && RoleOf(s.workers[w].pc).Holding?
    ensures var me := s.workers[w];
            && me.ticket < |s.log| && s.log[me.ticket].call < |cfg.calls|
            && var x := s.log[me.ticket];
            var call := cfg.calls[x.call];
            && ValidCall(cfg, call) && IsPooled(call)
            && s.callers[x.call].firstTicket + x.k == me.ticket
            && x.k < s.callers[x.call].posted <= Items(cfg, call)
            && MyItem(s, w).call == x.call
            && MyItem(s, w).dataOffset == RegionStart(cfg, call, x.k)
            && MyItem(s, w).startUnitNo == RegionUnitNo(cfg, call, x.k)
            && (MyItem(s, w).workType.DeriveKeyWork? <==> call.IsDerivation())
            && ItemSize(cfg, MyItem(s, w)) == RegionSize(cfg, call, x.k)
            && RegionStart(cfg, call, x.k) + RegionSize(cfg, call, x.k) <= |call.data|
  {
    hide RegionStart; hide RegionUnitNo; hide FragmentSize; hide FragmentCount; hide Items;
    HeldItem(cfg, s, w);
    assert TicketOk(cfg, s, s.workers[w].ticket);
    RegionFits(cfg, cfg.calls[s.log[s.workers[w].ticket].call], s.log[s.workers[w].ticket].k);
  }

  /** The buffer of the call that worker w works for, with the bytes its next step writes. */
  function WriteOf(cfg: Config, s: State, w: nat, scratch: Bytes): Bytes
    requires Shaped(cfg, s) && w < |s.workers| && s.workers[w].pc.Working?
  {
    var x := MyItem(s, w);
    if s.workers[w].pc.left == 0 then cfg.calls[x.call].work(x.startUnitNo, s.workers[w].input) else scratch
  }

  lemma WorkingWrites(cfg: Config, s: State, w: nat, scratch: Bytes)
    requires Shaped(cfg, s) && WorkerEnabled(cfg, s, w) && s.workers[w].pc.Working?
    ensures var s' := WorkerStep(cfg, s, w, scratch);
            var x := MyItem(s, w);
            || s'.memory == s.memory[x.call := Overwrite(s.memory[x.call], x.dataOffset, WriteOf(cfg, s, w, scratch))]
            || (s'.memory == s.memory && s.workers[w].pc.left > 0)
    ensures s.workers[w].pc.left > 0 && WorkerStep(cfg, s, w, scratch).memory != s.memory ==> |scratch| == ItemSize(cfg, MyItem(s, w))
  {
    hide KeepsLocals; hide Overwrite; hide ItemSize;
  }

  lemma WrittenPart(cfg: Config, call: Call, buffer: Bytes, k: nat)
    requires ValidConfig(cfg) && ValidCall(cfg, call) && IsPooled(call) && k < Items(cfg, call)
    requires |buffer| == |call.data|
    ensures var bytes := call.work(RegionUnitNo(cfg, call, k), Original(cfg, call, k));
            && |bytes| == RegionSize(cfg, call, k)
            && PartOk(cfg, call, Overwrite(buffer, RegionStart(cfg, call, k), bytes), k, Processed)
  {
    hide Overwrite; hide RegionStart; hide RegionSize; hide RegionUnitNo; hide Items;
    RegionFits(cfg, call, k);
    OverwriteHere(buffer, RegionStart(cfg, call, k), call.work(RegionUnitNo(cfg, call, k), Original(cfg, call, k)));
  }

  lemma WorkerPart(cfg: Config, s: State, w: nat, scratch: Bytes, c: nat, k: nat)
    requires RingInv(cfg, s) && Data(cfg, s) && WorkerEnabled(cfg, s, w) && c < |s.callers|
    requires IsPooled(cfg.calls[c]) && k < Items(cfg, cfg.calls[c])
    requires RingInv(cfg, WorkerStep(cfg, s, w, scratch))
    ensures var s' := WorkerStep(cfg, s, w, scratch);
            && |s'.memory[c]| == |s.memory[c]|
            && PartOk(cfg, cfg.calls[c], s'.memory[c], k, ProgressOf(s', c, k))
  {
    hide Ring; hide ProgramInv; hide WorkerStep; hide Overwrite; hide Items; hide ProgressOf; hide Slice; hide RegionStart; hide RegionSize; hide RegionUnitNo;
    hide Original;
    Facts(cfg, s, c);
    var s' := WorkerStep(cfg, s, w, scratch);
    var call := cfg.calls[c];
    WorkerStepFrame(cfg, s, w, scratch);
    assert BufferOk(cfg, s, c);
    assert PartOk(cfg, call, s.memory[c], k, ProgressOf(s, c, k));
    ProgressKept(cfg, s, s', w, c, k);
    if s.workers[w].pc.Working? {
      assert InputOk(cfg, s, w);
      HeldRegion(cfg, s, w);
      WorkingWrites(cfg, s, w, scratch);
      var j := s.log[s.workers[w].ticket].k;
      if MyItem(s, w).call == c && (s.workers[w].pc.left == 0 || s'.memory != s.memory) {
        if j == k {
          if s.workers[w].pc.left == 0 { WrittenPart(cfg, call, s.memory[c], k); }
          OwnProgress(cfg, s, w);
        } else {
          if s.workers[w].pc.left == 0 { WrittenPart(cfg, call, s.memory[c], j); }
          OtherParts(cfg, call, s.memory[c], j, WriteOf(cfg, s, w, scratch), k, ProgressOf(s, c, k));
        }
      }
    }
  }

  lemma WorkerFlag(cfg: Config, s: State, w: nat, scratch: Bytes, c: nat)
    requires RingInv(cfg, s) && Data(cfg, s) && WorkerEnabled(cfg, s, w) && c < |s.callers|
    requires RingInv(cfg, WorkerStep(cfg, s, w, scratch))
    ensures FlagOk(cfg, WorkerStep(cfg, s, w, scratch), c)
  {
    hide Ring; hide ProgramInv; hide WorkerStep; hide Items; hide ProgressOf; hide BufferOk;
    Facts(cfg, s, c);
    var s' := WorkerStep(cfg, s, w, scratch);
    WorkerStepFrame(cfg, s, w, scratch);
    assert FlagOk(cfg, s, c);
    assert SameLocals(s.callers[c], s'.callers[c]);
    if ProgressOf(s, c, 0).Processed? { NeverDirtyAgain(cfg, s, s', w, c, 0); }
    if s.workers[w].pc.Flagging? {
      FlaggingFlags(cfg, s, w, scratch);
    }
  }

  /** What is processed stays so. */
  lemma NeverDirtyAgain(cfg: Config, s: State, s': State, w: nat, c: nat, k: nat)
    requires RingInv(cfg, s) && RingInv(cfg, s') && w < |s.workers| && WorkerFrame(s, s', w) && KeepsLocals(s, s')
    requires c < |s.callers| && ProgressOf(s, c, k).Processed?
    ensures ProgressOf(s', c, k).Processed?
  {
    hide RegionStart; hide RegionUnitNo; hide FragmentSize; hide Call.UnitCount; hide FragmentCount; hide Carries; hide Items;
    hide BatchOk; hide ItemOk; hide ProgramOk; hide LocksOk; hide TicketItemOk; hide TicketCountOk; hide LapOk;
    var t := s.callers[c].firstTicket + k;
    assert CallerOk(cfg, s, c) && Mine(s, c, s.callers[c].firstTicket, k);
    assert TicketOk(cfg, s, t) && TicketOk(cfg, s', t);
    assert WorkerOk(cfg, s, w) && WorkerOk(cfg, s', w);
    assert SameLocals(s.callers[c], s'.callers[c]);
  }

  /** The completion flag is set for the derivation whose key has just been derived. */
  lemma FlaggingFlags(cfg: Config, s: State, w: nat, scratch: Bytes)
    requires RingInv(cfg, s) && WorkerEnabled(cfg, s, w) && s.workers[w].pc.Flagging?
    ensures var x := MyItem(s, w);
            && WorkerStep(cfg, s, w, scratch).completionFlags == s.completionFlags[x.call := true]
            && cfg.calls[x.call].IsDerivation()
            && s.callers[x.call].posted > 0
            && ProgressOf(s, x.call, 0).Processed?
  {
    hide RegionStart; hide RegionUnitNo; hide FragmentSize; hide FragmentCount; hide Carries; hide BatchOk; hide ItemOk;
    hide LocksOk; hide TicketCountOk; hide LapOk; hide KeepsLocals;
    HeldRegion(cfg, s, w);
    assert WorkerOk(cfg, s, w);
    assert ProgramOk(cfg, cfg.calls[MyItem(s, w).call], s.callers[MyItem(s, w).call]);
  }

  lemma WorkerInput(cfg: Config, s: State, w: nat, scratch: Bytes, x: nat)
    requires RingInv(cfg, s) && Data(cfg, s) && WorkerEnabled(cfg, s, w) && x < |s.workers|
    requires RingInv(cfg, WorkerStep(cfg, s, w, scratch))
    ensures InputOk(cfg, WorkerStep(cfg, s, w, scratch), x)
  {
    hide Ring; hide ProgramOk; hide WorkerStep; hide Items; hide ProgressOf; hide BufferOk; hide Original;
    var s' := WorkerStep(cfg, s, w, scratch);
    WorkerStepFrame(cfg, s, w, scratch);
    assert InputOk(cfg, s, x);
    if s.workers[w].pc.Starting? {
      StartingReads(cfg, s, w, scratch);
    } else if s.workers[w].pc.Working? {
      WorkingKeepsInput(cfg, s, w, scratch);
    }
  }

  lemma WorkingKeepsInput(cfg: Config, s: State, w: nat, scratch: Bytes)
    requires Shaped(cfg, s) && WorkerEnabled(cfg, s, w) && s.workers[w].pc.Working?
    ensures WorkerStep(cfg, s, w, scratch).workers[w].input == s.workers[w].input
  {
    hide KeepsLocals; hide Overwrite; hide ItemSize;
  }

  lemma StartingReads(cfg: Config, s: State, w: nat, scratch: Bytes)
    requires RingInv(cfg, s) && Data(cfg, s) && WorkerEnabled(cfg, s, w) && s.workers[w].pc.Starting?
    ensures var t := s.workers[w].ticket;
            && t < |s.log| && s.log[t].call < |cfg.calls| && Items(cfg, cfg.calls[s.log[t].call]) > 0
            && WorkerStep(cfg, s, w, scratch).workers[w].input == Original(cfg, cfg.calls[s.log[t].call], s.log[t].k)
  {
    hide RegionStart; hide RegionUnitNo; hide RegionSize; hide Items; hide Carries; hide BatchOk; hide ItemOk; hide Slice; hide ItemSize; hide ProgramOk;
    hide LocksOk; hide TicketCountOk; hide LapOk; hide KeepsLocals;
    HeldRegion(cfg, s, w);
    assert WorkerOk(cfg, s, w);
    var x := s.log[s.workers[w].ticket];
    assert BufferOk(cfg, s, x.call);
    assert PartOk(cfg, cfg.calls[x.call], s.memory[x.call], x.k, ProgressOf(s, x.call, x.k));
  }

  lemma WorkerData(cfg: Config, s: State, w: nat, scratch: Bytes)
    requires RingInv(cfg, s) && Data(cfg, s) && WorkerEnabled(cfg, s, w)
    requires RingInv(cfg, WorkerStep(cfg, s, w, scratch))
    ensures Data(cfg, WorkerStep(cfg, s, w, scratch))
  {
    hide Ring; hide ProgramOk; hide WorkerStep; hide Items; hide ProgressOf; hide PartOk; hide InputOk; hide FlagOk; hide ValidCall;
    var s' := WorkerStep(cfg, s, w, scratch);
    WorkerStepFrame(cfg, s, w, scratch);
    forall x: nat | x < |s'.workers| ensures InputOk(cfg, s', x) { WorkerInput(cfg, s, w, scratch, x); }
    forall c: nat | c < |s'.callers| ensures BufferOk(cfg, s', c) && FlagOk(cfg, s', c) {
      WorkerFlag(cfg, s, w, scratch, c);
      assert BufferOk(cfg, s, c);
      assert SameLocals(s.callers[c], s'.callers[c]);
      if IsPooled(cfg.calls[c]) {
        Facts(cfg, s, c);
        WorkerPart(cfg, s, w, scratch, c, 0);
        forall k: nat | k < Items(cfg, cfg.calls[c]) ensures PartOk(cfg, cfg.calls[c], s'.memory[c], k, ProgressOf(s', c, k)) {
          WorkerPart(cfg, s, w, scratch, c, k);
        }
      } else {
        WorkerElsewhere(cfg, s, w, scratch, c);
      }
    }
  }

  /** Workers do not touch the buffers of calls that run in their own thread. */
  lemma WorkerElsewhere(cfg: Config, s: State, w: nat, scratch: Bytes, c: nat)
    requires RingInv(cfg, s) && WorkerEnabled(cfg, s, w) && c < |s.callers| && !IsPooled(cfg.calls[c])
    ensures WorkerStep(cfg, s, w, scratch).memory[c] == s.memory[c]
  {
    hide Ring; hide ProgramOk; hide Items; hide WorkerStep; hide Overwrite;
    WorkerStepFrame(cfg, s, w, scratch);
    if s.workers[w].pc.Working? {
      HeldRegion(cfg, s, w);
      WorkingWrites(cfg, s, w, scratch);
    }
  }

  // ---- Steps of a caller ----

  lemma PartingFirst(cfg: Config, s: State, c: nat)
    requires RingInv(cfg, s) && c < |s.callers| && s.callers[c].pc.FreeingFirst?
    ensures var t := s.callers[c].firstTicket;
            t < |s.log| && s.log[t].call == c && s.log[t].phase.Parked?
  {
    hide RegionStart; hide RegionUnitNo; hide FragmentSize; hide Call.UnitCount; hide FragmentCount; hide Carries;
    hide BatchOk; hide ItemOk; hide LocksOk; hide TicketItemOk; hide LapOk;
    assert CallerOk(cfg, s, c) && ProgramOk(cfg, cfg.calls[c], s.callers[c]);
    assert Mine(s, c, s.callers[c].firstTicket, 0);
    assert TicketOk(cfg, s, s.callers[c].firstTicket);
  }

  lemma CallerProgress(cfg: Config, s: State, c: nat, b: nat, k: nat)
    requires RingInv(cfg, s) && CallerEnabled(cfg, s, c) && b < |s.callers|
    ensures ProgressOf(CallerStep(cfg, s, c), b, k) == ProgressOf(s, b, k)
    ensures CallerStep(cfg, s, c).callers[b].posted >= s.callers[b].posted
  {
    hide RegionStart; hide RegionUnitNo; hide FragmentSize; hide Call.UnitCount; hide FragmentCount; hide Carries; hide Items;
    hide BatchOk; hide ItemOk; hide LocksOk; hide TicketItemOk; hide LapOk; hide CallerStep; hide WorkProgramOk;
    var s' := CallerStep(cfg, s, c);
    CallerStepFrame(cfg, s, c);
    assert CallerOk(cfg, s, b) && CallerOk(cfg, s, c) && ProgramOk(cfg, cfg.calls[c], s.callers[c]);
    if s.callers[c].pc.FreeingFirst? { PartingFirst(cfg, s, c); }
    if k < s.callers[b].posted {
      assert Mine(s, b, s.callers[b].firstTicket, k);
      assert TicketOk(cfg, s, s.callers[b].firstTicket + k);
    }
  }

  lemma CallerData(cfg: Config, s: State, c: nat)
    requires RingInv(cfg, s) && Data(cfg, s) && CallerEnabled(cfg, s, c)
    ensures Data(cfg, CallerStep(cfg, s, c))
  {
    hide Ring; hide ProgramOk; hide CallerStep; hide Items; hide ProgressOf; hide PartOk; hide ValidCall; hide CallerEnabled; hide SequentialResult;
    hide Original; hide Call.UnitCount;
    var s' := CallerStep(cfg, s, c);
    CallerStepFrame(cfg, s, c);
    forall w: nat | w < |s'.workers| ensures InputOk(cfg, s', w) { CallerInput(cfg, s, c, w); }
    forall b: nat | b < |s'.callers| ensures BufferOk(cfg, s', b) && FlagOk(cfg, s', b) {
      assert BufferOk(cfg, s, b) && FlagOk(cfg, s, b);
      CallerProgress(cfg, s, c, b, 0);
      BeginWrites(cfg, s, c);
      if IsPooled(cfg.calls[b]) {
        Facts(cfg, s, b);
        forall k: nat | k < Items(cfg, cfg.calls[b]) ensures PartOk(cfg, cfg.calls[b], s'.memory[b], k, ProgressOf(s', b, k)) {
          CallerProgress(cfg, s, c, b, k);
          assert PartOk(cfg, cfg.calls[b], s.memory[b], k, ProgressOf(s, b, k));
        }
      }
    }
  }

  lemma CallerInput(cfg: Config, s: State, c: nat, w: nat)
    requires RingInv(cfg, s) && Data(cfg, s) && CallerEnabled(cfg, s, c) && w < |s.workers|
    ensures InputOk(cfg, CallerStep(cfg, s, c), w)
  {
    hide ProgramOk; hide LocksOk; hide TicketOk; hide CallerOk; hide ItemOk; hide CallerStep; hide Items; hide BufferOk; hide Original;
    CallerStepFrame(cfg, s, c);
    assert InputOk(cfg, s, w) && WorkerOk(cfg, s, w);
  }

  /** A call runs in its own thread exactly if it is not pooled. */
  lemma BeginWrites(cfg: Config, s: State, c: nat)
    requires RingInv(cfg, s) && Data(cfg, s) && CallerEnabled(cfg, s, c)
    ensures var s' := CallerStep(cfg, s, c);
            var call := cfg.calls[c];
            && (s.callers[c].pc.Begin? && !IsPooled(call) ==>
                  s'.memory == s.memory[c := SequentialResult(call)] && |SequentialResult(call)| == |call.data|
                  && s'.callers[c].pc.Done?)
            && (IsPooled(call) || !s.callers[c].pc.Begin? ==> s'.memory == s.memory)
            && (!IsPooled(call) ==> s.callers[c].pc.Begin?)
  {
    hide Ring; hide ProgressOf; hide PartOk; hide Items; hide WorkProgramOk; hide DerivationProgramOk;
    hide OpenBatch; hide ReserveItem; hide FillItem; hide FillKeyItem; hide PostItem; hide ConsumeCompletion; hide FreeFirstItem; hide ReleaseEnqueue;
    CallerStepFrame(cfg, s, c);
    assert BufferOk(cfg, s, c) && ProgramOk(cfg, cfg.calls[c], s.callers[c]) && ValidCall(cfg, cfg.calls[c]);
  }

  // ---- Runs ----

  lemma StartData(cfg: Config)
    requires ValidConfig(cfg)
    ensures Data(cfg, Start(cfg))
  {
    hide RegionStart; hide RegionSize; hide RegionUnitNo; hide Items; hide ValidCall; hide Slice;
  }

  lemma DataNext(cfg: Config, s: State, s': State)
    requires RingInv(cfg, s) && Data(cfg, s) && Next(cfg, s, s')
    ensures RingInv(cfg, s') && Data(cfg, s')
  {
    hide Ring; hide ProgramInv; hide WorkerStep; hide CallerStep; hide BufferOk; hide FlagOk; hide InputOk;
    RingNext(cfg, s, s');
    if w, scratch :| WorkerEnabled(cfg, s, w) && s' == WorkerStep(cfg, s, w, scratch) {
      WorkerData(cfg, s, w, scratch);
    } else {
      var c :| CallerEnabled(cfg, s, c) && s' == CallerStep(cfg, s, c);
      CallerData(cfg, s, c);
    }
  }

  lemma {:induction false} RunData(cfg: Config, run: seq<State>)
    requires ValidConfig(cfg) && IsRun(cfg, run)
    ensures RingInv(cfg, run[|run| - 1]) && Data(cfg, run[|run| - 1])
  {
    hide Ring; hide ProgramInv; hide Data; hide Next;
    if |run| == 1 {
      StartRing(cfg);
      StartData(cfg);
    } else {
      RunData(cfg, run[..|run| - 1]);
      DataNext(cfg, run[|run| - 2], run[|run| - 1]);
    }
  }

  /** Parts that were each processed with their own data unit number make up the whole. */
  lemma {:induction false} Assembled(cfg: Config, call: Call, buffer: Bytes, k: nat)
    requires ValidConfig(cfg) && ValidCall(cfg, call) && IsPooled(call) && !call.IsDerivation() && Items(cfg, call) > 0
    requires |buffer| == |call.data| && k <= Items(cfg, call)
    requires forall j: nat :: j < k ==> PartOk(cfg, call, buffer, j, Processed)
    ensures RegionStart(cfg, call, k) <= |call.data|
    ensures buffer[..RegionStart(cfg, call, k)] == call.work(call.startUnitNo, call.data[..RegionStart(cfg, call, k)])
  {
    hide ValidCall; hide Items; hide FragmentStart; hide FragmentSize;
    if k == 0 {
      NothingToDo(cfg, call);
    } else {
      Assembled(cfg, call, buffer, k - 1);
      RegionFits(cfg, call, k - 1);
      NextFragment(cfg, call, k - 1);
      var a, n := RegionStart(cfg, call, k - 1), RegionSize(cfg, call, k - 1);
      assert PartOk(cfg, call, buffer, k - 1, Processed);
      assert buffer[..a + n] == buffer[..a] + buffer[a..a + n];
      assert call.data[..a + n] == call.data[..a] + call.data[a..a + n];
      SplitWork(cfg, call, call.data[..a], call.data[a..a + n]);
    }
  }

  lemma NothingToDo(cfg: Config, call: Call)
    requires ValidConfig(cfg) && ValidCall(cfg, call) && Items(cfg, call) > 0 && !call.IsDerivation()
    ensures call.work(call.startUnitNo, call.data[..0]) == call.data[..0] && RegionStart(cfg, call, 0) == 0
  {
    assert call.data[..0] == [];
  }

  lemma SplitWork(cfg: Config, call: Call, a: Bytes, b: Bytes)
    requires ValidConfig(cfg) && ValidCall(cfg, call) && !call.IsDerivation()
    requires |a| % ENCRYPTION_DATA_UNIT_SIZE == 0 && |b| % ENCRYPTION_DATA_UNIT_SIZE == 0
    ensures call.work(call.startUnitNo, a + b)
         == call.work(call.startUnitNo, a) + call.work((call.startUnitNo + |a| / ENCRYPTION_DATA_UNIT_SIZE) % TWO_TO_THE_64, b)
  {
  }

  lemma AllProcessed(cfg: Config, s: State, c: nat, k: nat)
    requires RingInv(cfg, s) && c < |s.callers| && IsPooled(cfg.calls[c]) && !cfg.calls[c].IsDerivation()
    requires Closed(StageOf(s.callers[c].pc)) && k < Items(cfg, cfg.calls[c])
    ensures ProgressOf(s, c, k).Processed?
  {
    hide RegionStart; hide RegionUnitNo; hide FragmentSize; hide Call.UnitCount; hide FragmentCount; hide Carries;
    hide BatchOk; hide ItemOk; hide LocksOk; hide TicketItemOk; hide LapOk;
    assert CallerOk(cfg, s, c) && ProgramOk(cfg, cfg.calls[c], s.callers[c]);
    assert Mine(s, c, s.callers[c].firstTicket, k);
    assert TicketOk(cfg, s, s.callers[c].firstTicket + k);
  }

  /** Main result: when EncryptionThreadPoolDoWork has consumed its completion event, or has
      returned, in any run and whatever the other callers do, its buffer is what one sequential
      call on the whole buffer would have left. */
  lemma ReturnedBufferIsSequential(cfg: Config, s: State, c: nat)
    requires ValidConfig(cfg) && Reachable(cfg, s) && c < |s.callers|
    requires Shaped(cfg, s) && !cfg.calls[c].IsDerivation()
    requires s.callers[c].pc in {FreeingFirst, SignallingFirst, Done}
    ensures s.memory[c] == SequentialResult(cfg.calls[c])
  {
    hide RegionSize; hide RegionUnitNo; hide FragmentSize; hide Items; hide Ring; hide ProgramOk; hide PartOk;
    var run :| IsRun(cfg, run) && run[|run| - 1] == s;
    RunData(cfg, run);
    var call := cfg.calls[c];
    assert BufferOk(cfg, s, c);
    if IsPooled(call) {
      Facts(cfg, s, c);
      var n := Items(cfg, call);
      forall k: nat | k < n ensures PartOk(cfg, call, s.memory[c], k, Processed) {
        AllProcessed(cfg, s, c, k);
        assert PartOk(cfg, call, s.memory[c], k, ProgressOf(s, c, k));
      }
      Assembled(cfg, call, s.memory[c], n);
      FragmentsTile(call.UnitCount(), n);
      assert RegionStart(cfg, call, n) == |call.data|;
      assert s.memory[c][..|call.data|] == s.memory[c] && call.data[..|call.data|] == call.data;
    }
  }

  /** A caller of EncryptionThreadPoolBeginKeyDerivation that finds its completion flag set finds
      the derived key in its buffer. */
  lemma FlagMeansDerived(cfg: Config, s: State, c: nat)
    requires ValidConfig(cfg) && Reachable(cfg, s) && Shaped(cfg, s) && c < |s.callers| && s.completionFlags[c]
    ensures cfg.calls[c].IsDerivation() && s.memory[c] == SequentialResult(cfg.calls[c])
  {
    hide Ring; hide ProgramOk; hide ProgressOf;
    var run :| IsRun(cfg, run) && run[|run| - 1] == s;
    RunData(cfg, run);
    var call := cfg.calls[c];
    assert BufferOk(cfg, s, c) && FlagOk(cfg, s, c);
    KeyRegion(cfg, call);
    assert PartOk(cfg, call, s.memory[c], 0, ProgressOf(s, c, 0));
    assert ValidCall(cfg, call) && |call.work(call.startUnitNo, call.data)| == |call.data|;
    assert s.memory[c][0..|call.data|] == s.memory[c] && call.data[0..|call.data|] == call.data;
  }
}
