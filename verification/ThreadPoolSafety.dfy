/** The ring invariant in every reachable state. */
module ThreadPoolSafety {
  import opened ThreadPoolModel
  import opened ThreadPoolInvariant
  import opened ThreadPoolProgram
  import opened ThreadPoolRing

  lemma WorkerRing(cfg: Config, s: State, w: nat, scratch: Bytes)
    requires RingInv(cfg, s) && WorkerEnabled(cfg, s, w)
    ensures Ring(cfg, WorkerStep(cfg, s, w, scratch))
  {
    hide Ring; hide ProgramOk; hide ReadItem; hide LookAtItem; hide TakeItem; hide ClaimItem; hide FreeOwnItem; hide FreeKeyItem;
    hide CountFragment; hide CompleteBatch; hide FinishItem; hide Scribble; hide SetPc;
    match s.workers[w].pc
    case Idle => TakeItemRing(cfg, s, w);
    case Looking => LookAtItemRing(cfg, s, w);
    case Claiming => ClaimItemRing(cfg, s, w);
    case ReleasingDequeue => ReleaseDequeueRing(cfg, s, w);
    case Freeing => FreeingRing(cfg, s, w);
    case CountingFirst => CountFragmentRing(cfg, s, w);
    case Counting => CountFragmentRing(cfg, s, w);
    case Completing => CompleteBatchRing(cfg, s, w);
    case FreeingKey => FreeKeyItemRing(cfg, s, w);
    case _ => QuietWorkerRing(cfg, s, w, scratch);
  }

  /** The pcs at which a step of a worker does nothing the ring invariant speaks of. */
  predicate QuietPc(pc: WorkerPc) {
    || pc.WaitingReady? || pc.Starting? || pc.Working? || pc.SignallingFreed? || pc.Flagging? || pc.Announcing?
    || pc.Uncounting? || pc.LastKey? || pc.SignallingKey?
  }

  lemma LookAtItemRing(cfg: Config, s: State, w: nat)
    requires RingInv(cfg, s) && WorkerEnabled(cfg, s, w) && s.workers[w].pc.Looking?
    ensures Ring(cfg, LookAtItem(cfg, s, w))
  {
    assert WorkerOk(cfg, s, w);
    var s' := LookAtItem(cfg, s, w);
    if MyItem(s, w).state.WorkItemReady? {
      ReadyMeansPosted(cfg, s, w);
      assert TicketOk(cfg, s, s.workers[w].ticket);
    }
    WorkerMoves(cfg, s, s', w);
  }

  lemma FreeingRing(cfg: Config, s: State, w: nat)
    requires RingInv(cfg, s) && WorkerEnabled(cfg, s, w) && s.workers[w].pc.Freeing?
    ensures Ring(cfg, FreeOwnItem(cfg, s, w))
  {
    if s.workers[w].item != MyItem(s, w).firstFragment {
      FreeOwnItemRing(cfg, s, w);
    } else {
      FirstFragmentIsOwn(cfg, s, w);
      assert WorkerOk(cfg, s, w);
      WorkerMoves(cfg, s, FreeOwnItem(cfg, s, w), w);
    }
  }

  /** The step moves worker w to pc, which is possible for all the same items as where it was, and
      touches no field the ring invariant speaks of. */
  predicate QuietlyTo(s: State, s': State, w: nat, pc: WorkerPc)
    requires w < |s.workers| == |s'.workers|
  {
    var me := s.workers[w];
    && s' == s.(workers := s.workers[w := me.(pc := pc, input := s'.workers[w].input)],
             memory := s'.memory, readyEvent := s'.readyEvent, completedEvent := s'.completedEvent,
             completionFlags := s'.completionFlags, completionEvent := s'.completionEvent,
             outstandingWorkItemCount := s'.outstandingWorkItemCount,
             noOutstandingWorkItemEvent := s'.noOutstandingWorkItemEvent,
             outstandingKeys := s'.outstandingKeys)
    && RoleOf(pc) == RoleOf(me.pc)
    && (HoldsDequeueMutex(pc) <==> HoldsDequeueMutex(me.pc))
    && !pc.Claiming?
    && !pc.CountingFirst?
  }

  lemma QuietRing(cfg: Config, s: State, s': State, w: nat, pc: WorkerPc)
    requires RingInv(cfg, s) && w < |s.workers| && Shaped(cfg, s') && QuietlyTo(s, s', w, pc)
    requires var t := s.workers[w].ticket;
             RoleOf(pc).Holding? && t < |s.log| && s.log[t].call < |cfg.calls| ==>
               KindOk(pc, cfg.calls[s.log[t].call].IsDerivation(), s.log[t].k)
    ensures Ring(cfg, s')
  {
    hide CallerOk; hide TicketOk; hide ItemOk; hide LocksOk; hide ProgramOk; hide Items;
    assert WorkerOk(cfg, s, w);
    WorkerMoves(cfg, s, s', w);
  }

  /** The item a busy worker holds carries the ticket of its call. */
  lemma HeldItem(cfg: Config, s: State, w: nat)
    requires RingInv(cfg, s) && w < |s.workers| && RoleOf(s.workers[w].pc).Holding?
    ensures var me := s.workers[w];
            && me.ticket < |s.log|
            && s.log[me.ticket].phase == Held(w)
            && s.log[me.ticket].call < |cfg.calls|
            && var x := s.log[me.ticket];
            var call := cfg.calls[x.call];
            && IsPooled(call) && x.k < s.callers[x.call].posted <= Items(cfg, call)
            && Carries(cfg, MyItem(s, w), x.call, x.k, s.callers[x.call].first)
            && KindOk(me.pc, call.IsDerivation(), x.k)
  {
    hide RegionStart; hide RegionUnitNo; hide FragmentSize; hide Call.UnitCount; hide FragmentCount; hide Carries;
    assert WorkerOk(cfg, s, w);
    var t := s.workers[w].ticket;
    assert TicketOk(cfg, s, t);
    assert ProgramOk(cfg, cfg.calls[s.log[t].call], s.callers[s.log[t].call]);
  }

  lemma QuietWorkerRing(cfg: Config, s: State, w: nat, scratch: Bytes)
    requires RingInv(cfg, s) && WorkerEnabled(cfg, s, w) && QuietPc(s.workers[w].pc)
    ensures Ring(cfg, WorkerStep(cfg, s, w, scratch))
  {
    hide Ring; hide ProgramOk; hide KeepsLocals; hide QuietlyTo;
    var s' := WorkerStep(cfg, s, w, scratch);
    if RoleOf(s.workers[w].pc).Holding? { HeldItem(cfg, s, w); QuietHolder(cfg, s, w, scratch); } else { QuietOther(cfg, s, w, scratch); }
    QuietRing(cfg, s, s', w, s'.workers[w].pc);
  }

  lemma QuietHolder(cfg: Config, s: State, w: nat, scratch: Bytes)
    requires Shaped(cfg, s) && WorkerEnabled(cfg, s, w) && QuietPc(s.workers[w].pc) && RoleOf(s.workers[w].pc).Holding?
    ensures var s' := WorkerStep(cfg, s, w, scratch);
            QuietlyTo(s, s', w, s'.workers[w].pc)
    ensures forall d: bool, k: nat :: KindOk(s.workers[w].pc, d, k) && (MyItem(s, w).workType.DeriveKeyWork? <==> d)
                                      ==> KindOk(WorkerStep(cfg, s, w, scratch).workers[w].pc, d, k)
  {
    hide KeepsLocals; hide Shaped; hide QuietlyTo; hide ItemSize; hide Overwrite; hide Slice;
    match s.workers[w].pc
    case Working(left) =>
      if left > 0 { ScribbleIsQuiet(cfg, s, w, left, scratch); } else { FinishIsQuiet(cfg, s, w); }
    case Starting => ReadIsQuiet(cfg, s, w);
    case _ => KeyStepIsQuiet(cfg, s, w, scratch);
  }

  lemma ScribbleIsQuiet(cfg: Config, s: State, w: nat, left: nat, scratch: Bytes)
    requires Shaped(cfg, s) && w < |s.workers| && left > 0 && s.workers[w].pc == Working(left)
    ensures QuietlyTo(s, Scribble(cfg, s, w, left, scratch), w, Working(left - 1))
  {
  }

  lemma FinishIsQuiet(cfg: Config, s: State, w: nat)
    requires Shaped(cfg, s) && w < |s.workers| && s.workers[w].pc.Working?
    ensures QuietlyTo(s, FinishItem(cfg, s, w), w, if MyItem(s, w).workType.DeriveKeyWork? then Flagging else Freeing)
  {
  }

  lemma ReadIsQuiet(cfg: Config, s: State, w: nat)
    requires Shaped(cfg, s) && w < |s.workers| && s.workers[w].pc.Starting?
    ensures QuietlyTo(s, ReadItem(cfg, s, w), w, Working(cfg.calls[MyItem(s, w).call].effort))
  {
  }

  lemma KeyStepIsQuiet(cfg: Config, s: State, w: nat, scratch: Bytes)
    requires Shaped(cfg, s) && w < |s.workers| && s.workers[w].pc in {Flagging, Announcing, Uncounting, LastKey}
    ensures var s' := WorkerStep(cfg, s, w, scratch);
            QuietlyTo(s, s', w, s'.workers[w].pc) && KindOk(s'.workers[w].pc, true, 0)
            && (forall k: nat :: KindOk(s'.workers[w].pc, true, k))
            && forall k: nat :: !KindOk(s.workers[w].pc, false, k)
  {
    hide KeepsLocals;
  }

  lemma QuietOther(cfg: Config, s: State, w: nat, scratch: Bytes)
    requires Shaped(cfg, s) && WorkerEnabled(cfg, s, w) && QuietPc(s.workers[w].pc) && !RoleOf(s.workers[w].pc).Holding?
    ensures var s' := WorkerStep(cfg, s, w, scratch);
            QuietlyTo(s, s', w, s'.workers[w].pc)
  {
    hide KeepsLocals;
  }

  lemma CallerRing(cfg: Config, s: State, c: nat)
    requires RingInv(cfg, s) && CallerEnabled(cfg, s, c)
    ensures Ring(cfg, CallerStep(cfg, s, c))
  {
    hide Ring; hide ProgramOk; hide BeginCall; hide OpenBatch; hide ReserveItem; hide FillItem; hide FillKeyItem; hide PostItem;
    hide ConsumeCompletion; hide FreeFirstItem; hide SetCallerPc; hide ReleaseEnqueue;
    var me := s.callers[c];
    match me.pc
    case Begin => BeginCallRing(cfg, s, c);
    case CheckingFirst =>
      if s.queue[me.first].state.WorkItemFree? { OpenBatchRing(cfg, s, c); } else { QuietCallerRing(cfg, s, c); }
    case Taking => if me.left > 0 { ReserveItemRing(cfg, s, c); } else { LeaveLoopRing(cfg, s, c); }
    case Checking =>
      if s.queue[me.item].state.WorkItemFree? { FindFreeRing(cfg, s, c); } else { QuietCallerRing(cfg, s, c); }
    case Filling => if cfg.calls[c].IsDerivation() { FillKeyItemRing(cfg, s, c); } else { FillItemRing(cfg, s, c); }
    case Posting => PostItemRing(cfg, s, c);
    case SignallingReady => SignalReadyRing(cfg, s, c);
    case ReleasingEnqueue => ReleaseEnqueueRing(cfg, s, c);
    case AwaitingCompletion => ConsumeCompletionRing(cfg, s, c);
    case FreeingFirst => FreeFirstItemRing(cfg, s, c);
    case _ => QuietCallerRing(cfg, s, c);
  }

  predicate QuietCaller(s: State, c: nat)
    requires |s.queue| == QUEUE_SIZE && c < |s.callers|
  {
    var me := s.callers[c];
    || me.pc.WaitingFirst? || me.pc.WaitingFree? || me.pc.Clearing? || me.pc.SignallingFirst?
    || (me.pc.CheckingFirst? && !s.queue[me.first].state.WorkItemFree?)
    || (me.pc.Checking? && !s.queue[me.item].state.WorkItemFree?)
  }

  lemma QuietCallerRing(cfg: Config, s: State, c: nat)
    requires RingInv(cfg, s) && CallerEnabled(cfg, s, c) && QuietCaller(s, c)
    ensures Ring(cfg, CallerStep(cfg, s, c))
  {
    hide Ring; hide ProgramOk;
    CallerMoves(cfg, s, CallerStep(cfg, s, c), c);
  }

  /** Setting WorkItemReadyEvent, which the ring invariant does not speak of. */
  lemma SignalReadyRing(cfg: Config, s: State, c: nat)
    requires RingInv(cfg, s) && CallerEnabled(cfg, s, c) && s.callers[c].pc.SignallingReady?
    ensures Ring(cfg, CallerStep(cfg, s, c))
  {
    hide ProgramOk;
    var s' := CallerStep(cfg, s, c);
    if cfg.calls[c].IsDerivation() {
      LeaveLoopRing(cfg, s, c);
      SameRing(cfg, SetCallerPc(cfg, s, c, ReleasingEnqueue), s');
    } else {
      CallerMoves(cfg, s, s', c);
    }
  }

  lemma SameRing(cfg: Config, s: State, s': State)
    requires Shaped(cfg, s) && Shaped(cfg, s') && Ring(cfg, s)
    requires s' == s.(readyEvent := s'.readyEvent)
    ensures Ring(cfg, s')
  {
    forall t: nat | t < |s'.log| ensures TicketOk(cfg, s', t) { assert TicketOk(cfg, s, t); }
    forall c: nat | c < |s'.callers| ensures CallerOk(cfg, s', c) {
      assert CallerOk(cfg, s, c);
      forall j | 0 <= j < s'.callers[c].posted ensures Mine(s', c, s'.callers[c].firstTicket, j) {
        assert Mine(s, c, s.callers[c].firstTicket, j);
      }
    }
    forall x: nat | x < |s'.workers| ensures WorkerOk(cfg, s', x) { assert WorkerOk(cfg, s, x); }
    forall i: nat | i < QUEUE_SIZE ensures ItemOk(cfg, s', i) { assert ItemOk(cfg, s, i); }
  }

  lemma StartRing(cfg: Config)
    requires ValidConfig(cfg)
    ensures RingInv(cfg, Start(cfg))
  {
    hide RegionStart; hide RegionUnitNo; hide FragmentSize; hide Items; hide Call.UnitCount; hide ValidCall;
    var s := Start(cfg);
    forall c: nat | c < |s.callers| ensures ProgramOk(cfg, cfg.calls[c], s.callers[c]) && CallerOk(cfg, s, c) {
      StartProgram(cfg, c);
    }
  }

  lemma StartProgram(cfg: Config, c: nat)
    requires ValidConfig(cfg) && c < |cfg.calls|
    ensures ProgramOk(cfg, cfg.calls[c], freshCaller)
  {
    assert ValidCall(cfg, cfg.calls[c]);
    if IsPooled(cfg.calls[c]) { ItemsBound(cfg, cfg.calls[c]); }
  }

  lemma RingNext(cfg: Config, s: State, s': State)
    requires RingInv(cfg, s) && Next(cfg, s, s')
    ensures RingInv(cfg, s')
  {
    hide Ring; hide ProgramInv; hide WorkerStep; hide CallerStep;
    if w, scratch :| WorkerEnabled(cfg, s, w) && s' == WorkerStep(cfg, s, w, scratch) {
      WorkerRing(cfg, s, w, scratch);
      WorkerProgram(cfg, s, w, scratch);
    } else {
      var c :| CallerEnabled(cfg, s, c) && s' == CallerStep(cfg, s, c);
      CallerRing(cfg, s, c);
      RingLocks(cfg, s);
      CallerProgram(cfg, s, c);
    }
  }

  lemma RingIsShaped(cfg: Config, s: State)
    requires RingInv(cfg, s)
    ensures Shaped(cfg, s) && ProgramInv(cfg, s) && ValidConfig(cfg)
  {
  }

  lemma RingLocks(cfg: Config, s: State)
    requires RingInv(cfg, s)
    ensures LocksOk(cfg, s)
  {
  }

  lemma {:induction false} RunRing(cfg: Config, run: seq<State>)
    requires ValidConfig(cfg) && IsRun(cfg, run)
    ensures RingInv(cfg, run[|run| - 1])
  {
    hide RingInv; hide Next;
    if |run| == 1 {
      StartRing(cfg);
    } else {
      RunRing(cfg, run[..|run| - 1]);
      RingNext(cfg, run[|run| - 2], run[|run| - 1]);
    }
  }

  /** In every reachable state a worker that has not finished with its batch, even one that has
      already freed its item, still reads the first fragment of its own batch. */
  lemma ReachableFirstFragment(cfg: Config, s: State, w: nat)
    requires ValidConfig(cfg) && Reachable(cfg, s) && w < |s.workers|
    requires s.workers[w].pc in {SignallingFreed, Counting, CountingFirst, Completing}
    ensures Shaped(cfg, s) && s.workers[w].ticket < |s.log|
    ensures var x := s.log[s.workers[w].ticket];
            && x.call < |s.callers|
            && MyItem(s, w).firstFragment == s.callers[x.call].first
            && s.queue[s.callers[x.call].first].batch == x.call
            && !s.queue[s.callers[x.call].first].state.WorkItemFree?
  {
    hide ProgramOk;
    var run :| IsRun(cfg, run) && run[|run| - 1] == s;
    RunRing(cfg, run);
    assert WorkerOk(cfg, s, w);
    FirstFragmentIsOwn(cfg, s, w);
    assert TicketOk(cfg, s, s.workers[w].ticket);
  }
}
