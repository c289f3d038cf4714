/** No wake-up is lost, no reachable state is stuck before every call has returned, and every run
    is finite. */
module ThreadPoolProgress {
  import opened ThreadPoolModel
  import opened ThreadPoolInvariant
  import opened ThreadPoolProgram
  import opened ThreadPoolRing
  import opened ThreadPoolSafety
  import opened ThreadPoolFrame

  // ---- Wake-ups ----

  /** Someone is just about to set WorkItemReadyEvent. */
  predicate ReadyAnnounced(cfg: Config, s: State)
    requires Shaped(cfg, s)
  {
    s.readyEvent
    || (s.enqueueMutex.Caller? && s.enqueueMutex.c < |s.callers| && s.callers[s.enqueueMutex.c].pc.SignallingReady?)
  }

  /** A worker that waits although its item has been posted is going to be woken. */
  predicate WorkerWakes(cfg: Config, s: State, w: nat)
    requires Shaped(cfg, s) && w < |s.workers|
  {
    s.workers[w].pc.WaitingReady? && s.workers[w].ticket < |s.log| ==> ReadyAnnounced(cfg, s)
  }

  /** The thread that freed an item is still to set WorkItemCompletedEvent. */
  predicate StillSignals(s: State, t: Thread) {
    match t
    case NoThread => false
    case Worker(w) => w < |s.workers| && (s.workers[w].pc.SignallingFreed? || s.workers[w].pc.SignallingKey?)
    case Caller(c) => c < |s.callers| && s.callers[c].pc.SignallingFirst?
  }

  predicate FreedAnnounced(s: State, i: Slot)
    requires |s.queue| == QUEUE_SIZE
  {
    s.queue[i].state.WorkItemFree? ==> s.completedEvent || StillSignals(s, s.queue[i].freedBy)
  }

  /** A caller that waits for an item which has been freed is going to be woken. */
  predicate CallerWakes(cfg: Config, s: State, c: nat)
    requires Shaped(cfg, s) && c < |s.callers|
  {
    && (s.callers[c].pc.WaitingFirst? ==> FreedAnnounced(s, s.callers[c].first))
    && (s.callers[c].pc.WaitingFree? ==> FreedAnnounced(s, s.callers[c].item))
  }

  ghost predicate Wakes(cfg: Config, s: State)
    requires Shaped(cfg, s)
  {
    && (forall w :: 0 <= w < |s.workers| ==> WorkerWakes(cfg, s, w))
    && (forall c :: 0 <= c < |s.callers| ==> CallerWakes(cfg, s, c))
  }

  /** What a step of worker w can do to the state of item i and to the events. */
  predicate WorkerSignals(s: State, s': State, w: nat, i: Slot)
    requires |s.queue| == |s'.queue| == QUEUE_SIZE && w < |s.workers| == |s'.workers|
  {
    var x, y := s.queue[i], s'.queue[i];
    && (|| (y.state == x.state && y.freedBy == x.freedBy)
        || y.state.WorkItemBusy?
        || (y.freedBy == Worker(w) && StillSignals(s', Worker(w))))
    && s'.completedEvent == (s.completedEvent || StillSignals(s, Worker(w)))
    && s'.readyEvent == (s.readyEvent && !s.workers[w].pc.WaitingReady?)
  }

  lemma ClaimItemSignals(cfg: Config, s: State, w: nat, i: Slot)
    requires Shaped(cfg, s) && w < |s.workers| && s.workers[w].pc.Claiming?
    ensures WorkerSignals(s, ClaimItem(cfg, s, w), w, i)
  {
  }

  lemma FreeOwnItemSignals(cfg: Config, s: State, w: nat, i: Slot)
    requires Shaped(cfg, s) && w < |s.workers| && s.workers[w].pc.Freeing?
    ensures WorkerSignals(s, FreeOwnItem(cfg, s, w), w, i)
  {
  }

  lemma FreeKeyItemSignals(cfg: Config, s: State, w: nat, i: Slot)
    requires Shaped(cfg, s) && w < |s.workers| && s.workers[w].pc.FreeingKey?
    ensures WorkerSignals(s, FreeKeyItem(cfg, s, w), w, i)
  {
  }

  lemma CountingSignals(cfg: Config, s: State, w: nat, i: Slot)
    requires Shaped(cfg, s) && w < |s.workers|
    ensures s.workers[w].pc.CountingFirst? || s.workers[w].pc.Counting? ==> WorkerSignals(s, CountFragment(cfg, s, w), w, i)
    ensures s.workers[w].pc.Completing? ==> WorkerSignals(s, CompleteBatch(cfg, s, w), w, i)
  {
  }

  lemma KeySignals(cfg: Config, s: State, w: nat, scratch: Bytes, i: Slot)
    requires Shaped(cfg, s) && WorkerEnabled(cfg, s, w)
    requires s.workers[w].pc in {Flagging, Announcing, Uncounting, LastKey, SignallingKey}
    ensures WorkerSignals(s, WorkerStep(cfg, s, w, scratch), w, i)
  {
    hide KeepsLocals;
  }

  lemma WorkerStepSignals(cfg: Config, s: State, w: nat, scratch: Bytes, i: Slot)
    requires Shaped(cfg, s) && WorkerEnabled(cfg, s, w)
    ensures WorkerSignals(s, WorkerStep(cfg, s, w, scratch), w, i)
  {
    hide KeepsLocals; hide Slice; hide ItemSize; hide Overwrite; hide ClaimItem; hide FreeOwnItem; hide FreeKeyItem;
    hide CountFragment; hide CompleteBatch;
    if s.workers[w].pc in {Flagging, Announcing, Uncounting, LastKey, SignallingKey} {
      KeySignals(cfg, s, w, scratch, i);
      return;
    }
    match s.workers[w].pc
    case Claiming => ClaimItemSignals(cfg, s, w, i);
    case Freeing => FreeOwnItemSignals(cfg, s, w, i);
    case FreeingKey => FreeKeyItemSignals(cfg, s, w, i);
    case CountingFirst => CountingSignals(cfg, s, w, i);
    case Counting => CountingSignals(cfg, s, w, i);
    case Completing => CountingSignals(cfg, s, w, i);
    case _ =>
  }

  /** A worker only waits for an item that has not been posted yet. */
  lemma UnreadyMeansUnposted(cfg: Config, s: State, w: nat)
    requires RingInv(cfg, s) && w < |s.workers| && s.workers[w].pc.Looking? && s.workers[w].ticket < |s.log|
    ensures MyItem(s, w).state.WorkItemReady?
  {
    hide RegionStart; hide RegionUnitNo; hide FragmentSize; hide Call.UnitCount; hide FragmentCount; hide Carries; hide Items;
    hide ProgramOk; hide CallerOk; hide ItemOk; hide TicketCountOk;
    assert WorkerOk(cfg, s, w) && TicketOk(cfg, s, s.workers[w].ticket);
  }

  lemma WorkerKeepsWakes(cfg: Config, s: State, w: nat, scratch: Bytes)
    requires RingInv(cfg, s) && Wakes(cfg, s) && WorkerEnabled(cfg, s, w)
    ensures Wakes(cfg, WorkerStep(cfg, s, w, scratch))
  {
    hide Ring; hide ProgramOk; hide WorkerStep; hide WorkerWakes; hide CallerWakes; hide ValidCall;
    var s' := WorkerStep(cfg, s, w, scratch);
    WorkerStepFrame(cfg, s, w, scratch);
    forall x: nat | x < |s'.workers| ensures WorkerWakes(cfg, s', x) { WorkerKeepsWorkerWakes(cfg, s, w, scratch, x); }
    forall c: nat | c < |s'.callers| ensures CallerWakes(cfg, s', c) { WorkerKeepsCallerWakes(cfg, s, w, scratch, c); }
  }

  lemma WorkerKeepsWorkerWakes(cfg: Config, s: State, w: nat, scratch: Bytes, x: nat)
    requires RingInv(cfg, s) && Wakes(cfg, s) && WorkerEnabled(cfg, s, w) && x < |s.workers|
    ensures WorkerWakes(cfg, WorkerStep(cfg, s, w, scratch), x)
  {
    hide ProgramOk; hide WorkerStep; hide CallerWakes; hide ValidCall; hide CallerOk; hide TicketOk; hide ItemOk; hide LocksOk;
    var s' := WorkerStep(cfg, s, w, scratch);
    WorkerStepFrame(cfg, s, w, scratch);
    WorkerStepSignals(cfg, s, w, scratch, 0);
    assert WorkerWakes(cfg, s, x) && WorkerOk(cfg, s, x) && WorkerOk(cfg, s, w);
    if s.workers[w].pc.Looking? && s.workers[w].ticket < |s.log| {
      UnreadyMeansUnposted(cfg, s, w);
      LookingClaims(cfg, s, w, scratch);
    }
  }

  lemma LookingClaims(cfg: Config, s: State, w: nat, scratch: Bytes)
    requires Shaped(cfg, s) && WorkerEnabled(cfg, s, w) && s.workers[w].pc.Looking? && MyItem(s, w).state.WorkItemReady?
    ensures WorkerStep(cfg, s, w, scratch).workers[w].pc.Claiming?
  {
  }

  lemma WorkerKeepsCallerWakes(cfg: Config, s: State, w: nat, scratch: Bytes, c: nat)
    requires RingInv(cfg, s) && Wakes(cfg, s) && WorkerEnabled(cfg, s, w) && c < |s.callers|
    ensures CallerWakes(cfg, WorkerStep(cfg, s, w, scratch), c)
  {
    hide Ring; hide ProgramOk; hide WorkerStep; hide WorkerWakes; hide ValidCall;
    WorkerStepFrame(cfg, s, w, scratch);
    WorkerStepSignals(cfg, s, w, scratch, s.callers[c].first);
    WorkerStepSignals(cfg, s, w, scratch, s.callers[c].item);
    var s' := WorkerStep(cfg, s, w, scratch);
    assert SameLocals(s.callers[c], s'.callers[c]);
    assert CallerWakes(cfg, s, c);
  }

  /** What a step of caller c can do to the state of item i and to the events. */
  predicate CallerSignals(cfg: Config, s: State, s': State, c: nat, i: Slot)
    requires Shaped(cfg, s) && Shaped(cfg, s') && c < |s.callers|
  {
    var x, y := s.queue[i], s'.queue[i];
    var me, me' := s.callers[c], s'.callers[c];
    && (|| (y.state == x.state && y.freedBy == x.freedBy)
        || me.pc.Posting?
        || (y.freedBy == Caller(c) && me'.pc.SignallingFirst?))
    && s'.completedEvent == ((s.completedEvent && !me.pc.WaitingFirst? && !me.pc.WaitingFree?) || me.pc.SignallingFirst?)
    && s'.readyEvent == (s.readyEvent || me.pc.SignallingReady?)
    && (me'.pc.WaitingFirst? ==> !s'.queue[me'.first].state.WorkItemFree?)
    && (me'.pc.WaitingFree? ==> !s'.queue[me'.item].state.WorkItemFree?)
    && (me.pc.Posting? ==> me'.pc.SignallingReady?)
    && (|| s'.enqueueMutex == s.enqueueMutex
        || (me.pc.Begin? && s.enqueueMutex.NoThread?)
        || me.pc.ReleasingEnqueue?)
  }

  lemma BeginCallSignals(cfg: Config, s: State, c: nat, i: Slot)
    requires Shaped(cfg, s) && c < |s.callers| && s.callers[c].pc.Begin? && cfg.threadCount > 0 && CallerEnabled(cfg, s, c)
    ensures CallerSignals(cfg, s, BeginCall(cfg, s, c), c, i)
  {
    hide Call.UnitCount;
  }

  lemma OpenBatchSignals(cfg: Config, s: State, c: nat, i: Slot)
    requires Shaped(cfg, s) && c < |s.callers| && s.callers[c].pc.CheckingFirst?
    ensures CallerSignals(cfg, s, OpenBatch(cfg, s, c), c, i)
  {
    hide Below;
  }

  lemma ReserveItemSignals(cfg: Config, s: State, c: nat, i: Slot)
    requires Shaped(cfg, s) && c < |s.callers| && s.callers[c].pc.Taking? && s.callers[c].left > 0
    ensures CallerSignals(cfg, s, ReserveItem(cfg, s, c), c, i)
  {
    hide Advance;
  }

  lemma FillItemSignals(cfg: Config, s: State, c: nat, i: Slot)
    requires Shaped(cfg, s) && c < |s.callers| && s.callers[c].pc.Filling?
    ensures CallerSignals(cfg, s, FillItem(cfg, s, c), c, i)
  {
  }

  lemma FillKeyItemSignals(cfg: Config, s: State, c: nat, i: Slot)
    requires Shaped(cfg, s) && c < |s.callers| && s.callers[c].pc.Filling?
    ensures CallerSignals(cfg, s, FillKeyItem(cfg, s, c), c, i)
  {
  }

  lemma PostItemSignals(cfg: Config, s: State, c: nat, i: Slot)
    requires Shaped(cfg, s) && c < |s.callers| && s.callers[c].pc.Posting?
    ensures CallerSignals(cfg, s, PostItem(cfg, s, c), c, i)
  {
  }

  lemma ReleaseEnqueueSignals(cfg: Config, s: State, c: nat, i: Slot)
    requires Shaped(cfg, s) && c < |s.callers| && s.callers[c].pc.ReleasingEnqueue?
    ensures CallerSignals(cfg, s, ReleaseEnqueue(cfg, s, c), c, i)
  {
  }

  lemma ConsumeCompletionSignals(cfg: Config, s: State, c: nat, i: Slot)
    requires Shaped(cfg, s) && c < |s.callers| && s.callers[c].pc.AwaitingCompletion?
    ensures CallerSignals(cfg, s, ConsumeCompletion(cfg, s, c), c, i)
  {
  }

  lemma FreeFirstItemSignals(cfg: Config, s: State, c: nat, i: Slot)
    requires Shaped(cfg, s) && c < |s.callers| && s.callers[c].pc.FreeingFirst?
    ensures CallerSignals(cfg, s, FreeFirstItem(cfg, s, c), c, i)
  {
  }

  predicate HandlesEvent(pc: CallerPc) {
    pc.WaitingFirst? || pc.WaitingFree? || pc.Clearing? || pc.SignallingReady? || pc.SignallingFirst?
  }

  lemma HandleEventSignals(cfg: Config, s: State, c: nat, i: Slot)
    requires Shaped(cfg, s) && CallerEnabled(cfg, s, c) && cfg.threadCount > 0 && HandlesEvent(s.callers[c].pc)
    ensures CallerSignals(cfg, s, CallerStep(cfg, s, c), c, i)
  {
    hide BeginCall; hide OpenBatch; hide ReserveItem; hide FillItem; hide FillKeyItem; hide PostItem;
    hide ConsumeCompletion; hide FreeFirstItem; hide ReleaseEnqueue;
    match s.callers[c].pc
    case WaitingFirst =>
    case WaitingFree =>
    case Clearing =>
    case SignallingReady =>
    case SignallingFirst =>
  }

  /** The caller finds an item busy or free, or has left the loop. */
  lemma LookSignals(cfg: Config, s: State, c: nat, i: Slot)
    requires Shaped(cfg, s) && CallerEnabled(cfg, s, c) && cfg.threadCount > 0
    requires var me := s.callers[c];
             || (me.pc.CheckingFirst? && s.queue[me.first].state != WorkItemFree) || me.pc.Checking?
             || (me.pc.Taking? && me.left == 0) || me.pc.Done?
    ensures CallerSignals(cfg, s, CallerStep(cfg, s, c), c, i)
  {
    hide BeginCall; hide OpenBatch; hide ReserveItem; hide FillItem; hide FillKeyItem; hide PostItem;
    hide ConsumeCompletion; hide FreeFirstItem; hide ReleaseEnqueue;
  }

  lemma CallerStepSignals(cfg: Config, s: State, c: nat, i: Slot)
    requires Shaped(cfg, s) && CallerEnabled(cfg, s, c) && cfg.threadCount > 0
    ensures CallerSignals(cfg, s, CallerStep(cfg, s, c), c, i)
  {
    hide BeginCall; hide OpenBatch; hide ReserveItem; hide FillItem; hide FillKeyItem; hide PostItem;
    hide ConsumeCompletion; hide FreeFirstItem; hide ReleaseEnqueue; hide CallerSignals; hide SetCallerPc;
    var me := s.callers[c];
    match me.pc
    case Begin => BeginCallSignals(cfg, s, c, i);
    case CheckingFirst =>
      if s.queue[me.first].state == WorkItemFree { OpenBatchSignals(cfg, s, c, i); } else { LookSignals(cfg, s, c, i); }
    case Taking => if me.left > 0 { ReserveItemSignals(cfg, s, c, i); } else { LookSignals(cfg, s, c, i); }
    case Checking => LookSignals(cfg, s, c, i);
    case Filling => if cfg.calls[c].IsDerivation() { FillKeyItemSignals(cfg, s, c, i); } else { FillItemSignals(cfg, s, c, i); }
    case Posting => PostItemSignals(cfg, s, c, i);
    case ReleasingEnqueue => ReleaseEnqueueSignals(cfg, s, c, i);
    case AwaitingCompletion => ConsumeCompletionSignals(cfg, s, c, i);
    case FreeingFirst => FreeFirstItemSignals(cfg, s, c, i);
    case Done => LookSignals(cfg, s, c, i);
    case _ => HandleEventSignals(cfg, s, c, i);
  }

  lemma CallerKeepsWakes(cfg: Config, s: State, c: nat)
    requires RingInv(cfg, s) && Wakes(cfg, s) && CallerEnabled(cfg, s, c)
    ensures Wakes(cfg, CallerStep(cfg, s, c))
  {
    hide Ring; hide ProgramOk; hide CallerStep; hide WorkerWakes; hide CallerWakes; hide ValidCall;
    var s' := CallerStep(cfg, s, c);
    CallerStepFrame(cfg, s, c);
    forall x: nat | x < |s'.workers| ensures WorkerWakes(cfg, s', x) { CallerKeepsWorkerWakes(cfg, s, c, x); }
    forall b: nat | b < |s'.callers| ensures CallerWakes(cfg, s', b) { CallerKeepsCallerWakes(cfg, s, c, b); }
  }

  lemma CallerKeepsWorkerWakes(cfg: Config, s: State, c: nat, x: nat)
    requires RingInv(cfg, s) && Wakes(cfg, s) && CallerEnabled(cfg, s, c) && x < |s.workers|
    ensures WorkerWakes(cfg, CallerStep(cfg, s, c), x)
  {
    hide ProgramOk; hide CallerStep; hide CallerWakes; hide ValidCall; hide TicketOk; hide ItemOk; hide WorkerOk; hide LocksOk; hide BatchOk;
    hide Carries; hide Items;
    CallerStepFrame(cfg, s, c);
    CallerStepSignals(cfg, s, c, 0);
    assert WorkerWakes(cfg, s, x) && CallerOk(cfg, s, c);
  }

  lemma CallerKeepsCallerWakes(cfg: Config, s: State, c: nat, b: nat)
    requires RingInv(cfg, s) && Wakes(cfg, s) && CallerEnabled(cfg, s, c) && b < |s.callers|
    ensures CallerWakes(cfg, CallerStep(cfg, s, c), b)
  {
    hide ProgramOk; hide CallerStep; hide WorkerWakes; hide ValidCall; hide TicketOk; hide ItemOk; hide WorkerOk; hide LocksOk; hide BatchOk;
    hide Carries; hide Items;
    CallerStepFrame(cfg, s, c);
    CallerStepSignals(cfg, s, c, s.callers[b].first);
    CallerStepSignals(cfg, s, c, s.callers[b].item);
    assert CallerWakes(cfg, s, b) && CallerOk(cfg, s, c) && CallerOk(cfg, s, b);
  }

  // ---- No deadlock ----

  ghost predicate Blocked(cfg: Config, s: State)
    requires Shaped(cfg, s)
  {
    && (forall w: nat :: w < |s.workers| ==> !WorkerEnabled(cfg, s, w))
    && (forall c: nat :: c < |s.callers| ==> !CallerEnabled(cfg, s, c))
  }

  lemma BlockedCaller(cfg: Config, s: State, c: nat)
    requires Shaped(cfg, s) && Blocked(cfg, s) && c < |s.callers|
    ensures s.callers[c].pc in {Begin, WaitingFirst, WaitingFree, AwaitingCompletion, Done}
    ensures s.callers[c].pc.WaitingFirst? || s.callers[c].pc.WaitingFree? ==> !s.completedEvent
    ensures s.callers[c].pc.AwaitingCompletion? ==> !s.queue[s.callers[c].first].itemCompletedEvent
    ensures s.callers[c].pc.Begin? ==> !s.enqueueMutex.NoThread?
  {
    assert !CallerEnabled(cfg, s, c);
  }

  /** In a blocked state all workers are idle but the one that waits for the next item. */
  lemma BlockedWorkers(cfg: Config, s: State)
    requires RingInv(cfg, s) && Blocked(cfg, s)
    ensures s.dequeueMutex.Worker? && s.dequeueMutex.w < |s.workers|
    ensures s.workers[s.dequeueMutex.w].pc.WaitingReady? && s.workers[s.dequeueMutex.w].ticket + 1 == s.taken
    ensures !s.readyEvent
    ensures forall w: nat :: w < |s.workers| ==> s.workers[w].pc.Idle? || s.workers[w].pc.WaitingReady?
  {
    hide CallerOk; hide TicketOk; hide ItemOk; hide ProgramOk; hide ValidCall; hide CallerEnabled; hide BeingTaken;
    assert !WorkerEnabled(cfg, s, 0);
    assert WorkerOk(cfg, s, 0);
    forall w: nat | w < |s.workers| ensures s.workers[w].pc.Idle? || s.workers[w].pc.WaitingReady? {
      assert !WorkerEnabled(cfg, s, w);
    }
    assert WorkerOk(cfg, s, s.dequeueMutex.w);
    assert !WorkerEnabled(cfg, s, s.dequeueMutex.w);
  }

  /** In a blocked state every item that was posted has been worked on and counted. */
  lemma BlockedTickets(cfg: Config, s: State, t: nat)
    requires RingInv(cfg, s) && Wakes(cfg, s) && Blocked(cfg, s) && t < |s.log|
    ensures s.log[t].phase.Parked? || s.log[t].phase.Retired?
  {
    hide CallerOk; hide ItemOk; hide ProgramOk; hide ValidCall; hide WorkerEnabled; hide LocksOk; hide WorkerOk;
    hide TicketItemOk; hide LapOk; hide TicketCountOk; hide CallerWakes;
    BlockedWorkers(cfg, s);
    var h := s.dequeueMutex.w;
    assert WorkerWakes(cfg, s, h);
    if s.enqueueMutex.Caller? && s.enqueueMutex.c < |s.callers| { BlockedCaller(cfg, s, s.enqueueMutex.c); }
    assert TicketOk(cfg, s, t);
  }

  /** A call that waits for its completion event does not wait in vain. */
  lemma BlockedAwaiting(cfg: Config, s: State, c: nat)
    requires RingInv(cfg, s) && Wakes(cfg, s) && Blocked(cfg, s) && c < |s.callers|
    ensures !s.callers[c].pc.AwaitingCompletion?
  {
    hide ItemOk; hide ValidCall; hide WorkerEnabled; hide LocksOk; hide WorkerOk; hide Carries; hide AtFragment;
    hide TicketItemOk; hide LapOk; hide Wakes; hide TicketWorkerOk; hide Items;
    if s.callers[c].pc.AwaitingCompletion? {
      var me := s.callers[c];
      assert CallerOk(cfg, s, c) && ProgramOk(cfg, cfg.calls[c], me);
      assert BatchOk(cfg, s, c);
      BlockedWorkers(cfg, s);
      BlockedCaller(cfg, s, c);
      forall k: nat ensures k !in me.uncounted {
        if k < me.posted {
          assert Mine(s, c, me.firstTicket, k);
          BlockedTickets(cfg, s, me.firstTicket + k);
          assert TicketOk(cfg, s, me.firstTicket + k);
        }
      }
      assert false;
    }
  }

  /** The item a caller waits for is free in a blocked state only if its wake-up was lost. */
  lemma BlockedWaiting(cfg: Config, s: State, c: nat, i: Slot)
    requires RingInv(cfg, s) && Wakes(cfg, s) && Blocked(cfg, s) && c < |s.callers|
    requires (s.callers[c].pc.WaitingFirst? && i == s.callers[c].first) || (s.callers[c].pc.WaitingFree? && i == s.callers[c].item)
    ensures !s.queue[i].state.WorkItemFree?
    ensures i == |s.log| % QUEUE_SIZE && s.enqueueMutex == Caller(c) && s.callers[c].firstTicket + s.callers[c].posted == |s.log|
    ensures s.callers[c].posted <= MAX_THREAD_COUNT
  {
    hide ItemOk; hide LocksOk; hide TicketOk; hide WorkerOk; hide BatchOk; hide Carries; hide AtFragment; hide RegionStart; hide RegionUnitNo; hide FragmentSize;
    hide ValidCall; hide Call.UnitCount;
    assert CallerOk(cfg, s, c) && ProgramOk(cfg, cfg.calls[c], s.callers[c]);
    assert CallerWakes(cfg, s, c);
    BlockedCaller(cfg, s, c);
    BlockedWorkers(cfg, s);
    var t := s.queue[i].freedBy;
    if t.Caller? && t.c < |s.callers| { BlockedCaller(cfg, s, t.c); }
  }

  /** An item that comes up for filling in a blocked state and is not free holds a first fragment. */
  lemma BlockedItem(cfg: Config, s: State, i: Slot)
    requires RingInv(cfg, s) && Wakes(cfg, s) && Blocked(cfg, s)
    requires i == |s.log| % QUEUE_SIZE && !s.queue[i].state.WorkItemFree?
    ensures |s.log| >= QUEUE_SIZE && s.log[|s.log| - QUEUE_SIZE].phase.Parked?
  {
    hide Carries; hide ProgramOk; hide WorkerOk; hide LocksOk; hide CallerOk; hide Wakes; hide Blocked; hide TicketWorkerOk;
    hide TicketCountOk; hide LapOk; hide Items;
    assert ItemOk(cfg, s, i);
    var u := |s.log| - QUEUE_SIZE;
    BlockedTickets(cfg, s, u);
    assert TicketOk(cfg, s, u);
  }

  /** The item a caller waits for holds the first fragment of a batch that is still open. */
  lemma BlockedBy(cfg: Config, s: State, c: nat, i: Slot) returns (b: nat)
    requires RingInv(cfg, s) && Wakes(cfg, s) && Blocked(cfg, s) && c < |s.callers|
    requires (s.callers[c].pc.WaitingFirst? && i == s.callers[c].first) || (s.callers[c].pc.WaitingFree? && i == s.callers[c].item)
    ensures b < |s.callers| && b != c
    ensures s.callers[b].pc.AwaitingCompletion?
  {
    hide Carries; hide RegionStart; hide RegionUnitNo; hide FragmentSize; hide ValidCall; hide Call.UnitCount; hide WorkerOk;
    hide LocksOk; hide BatchOk; hide Wakes; hide AtFragment; hide Items; hide Blocked; hide ItemOk; hide TicketItemOk; hide LapOk;
    BlockedWaiting(cfg, s, c, i);
    BlockedItem(cfg, s, i);
    var u := |s.log| - QUEUE_SIZE;
    assert TicketOk(cfg, s, u);
    b := s.log[u].call;
    assert ProgramOk(cfg, cfg.calls[b], s.callers[b]) && CallerOk(cfg, s, b);
    BlockedCaller(cfg, s, b);
  }

  lemma BlockedMeansDone(cfg: Config, s: State, c: nat)
    requires RingInv(cfg, s) && Wakes(cfg, s) && Blocked(cfg, s) && c < |s.callers|
    ensures s.callers[c].pc.Done?
  {
    hide CallerOk; hide TicketOk; hide WorkerOk; hide ItemOk; hide ProgramOk; hide ValidCall; hide Wakes; hide Blocked;
    BlockedCaller(cfg, s, c);
    BlockedAwaiting(cfg, s, c);
    BlockedEnqueuer(cfg, s, c);
    if s.enqueueMutex.Caller? {
      BlockedCaller(cfg, s, s.enqueueMutex.c);
      BlockedEnqueuer(cfg, s, s.enqueueMutex.c);
    }
  }

  lemma BlockedEnqueuer(cfg: Config, s: State, c: nat)
    requires RingInv(cfg, s) && Wakes(cfg, s) && Blocked(cfg, s) && c < |s.callers|
    ensures !s.callers[c].pc.WaitingFirst? && !s.callers[c].pc.WaitingFree?
  {
    hide RingInv; hide Wakes; hide Blocked;
    if s.callers[c].pc.WaitingFirst? {
      var b := BlockedBy(cfg, s, c, s.callers[c].first);
      BlockedAwaiting(cfg, s, b);
      assert false;
    }
    if s.callers[c].pc.WaitingFree? {
      var b := BlockedBy(cfg, s, c, s.callers[c].item);
      BlockedAwaiting(cfg, s, b);
      assert false;
    }
  }

  // ---- Runs ----

  lemma StartWakes(cfg: Config)
    requires ValidConfig(cfg)
    ensures Wakes(cfg, Start(cfg))
  {
    hide ValidCall;
  }

  lemma WakesNext(cfg: Config, s: State, s': State)
    requires RingInv(cfg, s) && Wakes(cfg, s) && Next(cfg, s, s')
    ensures RingInv(cfg, s') && Wakes(cfg, s')
  {
    hide Ring; hide ProgramInv; hide WorkerStep; hide CallerStep; hide WorkerWakes; hide CallerWakes;
    RingNext(cfg, s, s');
    if w, scratch :| WorkerEnabled(cfg, s, w) && s' == WorkerStep(cfg, s, w, scratch) {
      WorkerKeepsWakes(cfg, s, w, scratch);
    } else {
      var c :| CallerEnabled(cfg, s, c) && s' == CallerStep(cfg, s, c);
      CallerKeepsWakes(cfg, s, c);
    }
  }

  lemma {:induction false} RunWakes(cfg: Config, run: seq<State>)
    requires ValidConfig(cfg) && IsRun(cfg, run)
    ensures RingInv(cfg, run[|run| - 1]) && Wakes(cfg, run[|run| - 1])
  {
    hide Ring; hide ProgramInv; hide Wakes; hide Next;
    if |run| == 1 {
      StartRing(cfg);
      StartWakes(cfg);
    } else {
      RunWakes(cfg, run[..|run| - 1]);
      WakesNext(cfg, run[|run| - 2], run[|run| - 1]);
    }
  }

  /** Some call has not returned, or the work of some item that was posted is not done.  Key derivations are not waited
      for by their calls, so that the second does not imply the first. */
  ghost predicate Unfinished(s: State) {
    || (exists c :: 0 <= c < |s.callers| && !s.callers[c].pc.Done?)
    || (exists t :: 0 <= t < |s.log| && !s.log[t].phase.Parked? && !s.log[t].phase.Retired?)
  }

  /** No thread can take a step. */
  ghost predicate Stopped(cfg: Config, s: State) {
    !exists s' :: Next(cfg, s, s')
  }

  lemma CanMove(cfg: Config, s: State)
    requires ValidConfig(cfg) && Shaped(cfg, s) && !Blocked(cfg, s)
    ensures !Stopped(cfg, s)
  {
    hide WorkerStep; hide CallerStep; hide WorkerEnabled; hide CallerEnabled;
    if w: nat :| w < |s.workers| && WorkerEnabled(cfg, s, w) {
      assert Next(cfg, s, WorkerStep(cfg, s, w, []));
    } else {
      var c: nat :| c < |s.callers| && CallerEnabled(cfg, s, c);
      assert Next(cfg, s, CallerStep(cfg, s, c));
    }
  }

  lemma StoppedIsBlocked(cfg: Config, s: State)
    requires ValidConfig(cfg) && Shaped(cfg, s) && Stopped(cfg, s)
    ensures Blocked(cfg, s)
  {
    hide Blocked; hide Stopped;
    if !Blocked(cfg, s) { CanMove(cfg, s); }
  }

  /** Main result: in every reachable state some thread can take a step, unless every call has returned and all items that
      were posted have been worked on. */
  lemma NoDeadlock(cfg: Config, s: State)
    requires ValidConfig(cfg) && Reachable(cfg, s) && Unfinished(s)
    ensures exists s' :: Next(cfg, s, s')
  {
    hide Ring; hide ProgramInv; hide Wakes; hide Next;
    var run :| IsRun(cfg, run) && run[|run| - 1] == s;
    RunWakes(cfg, run);
    RingIsShaped(cfg, s);
    if Stopped(cfg, s) {
      StoppedIsBlocked(cfg, s);
      forall c: nat | c < |s.callers| ensures s.callers[c].pc.Done? { BlockedMeansDone(cfg, s, c); }
      forall t: nat | t < |s.log| ensures s.log[t].phase.Parked? || s.log[t].phase.Retired? { BlockedTickets(cfg, s, t); }
      assert false;
    }
  }
}
