/** Every step of every thread keeps the ring invariant. */
module ThreadPoolRing {
  import opened ThreadPoolModel
  import opened ThreadPoolInvariant

  // ---- What the state of an item tells about its ticket ----

  /** A ticket that is being worked on belongs to a call whose batch is still open. */
  lemma UnfinishedIsLive(cfg: Config, s: State, t: nat)
    requires RingInv(cfg, s) && t < |s.log| && TicketOk(cfg, s, t)
    requires !cfg.calls[s.log[t].call].IsDerivation() && !s.log[t].phase.Retired? && !s.log[t].phase.Parked?
    ensures Live(cfg.calls[s.log[t].call], StageOf(s.callers[s.log[t].call].pc))
  {
    hide RegionStart; hide RegionUnitNo; hide FragmentSize; hide Call.UnitCount; hide Carries; hide FragmentCount;
    assert ProgramOk(cfg, cfg.calls[s.log[t].call], s.callers[s.log[t].call]);
  }

  /** A free item that comes up for filling carries no unfinished business: in particular no
      worker is still going to look up the first fragment in it. */
  lemma FreeMeansRetired(cfg: Config, s: State, t: nat)
    requires RingInv(cfg, s) && t < |s.log| && t + QUEUE_SIZE == |s.log|
    requires s.queue[t % QUEUE_SIZE].state.WorkItemFree?
    ensures s.log[t].phase.Retired?
  {
    hide RegionStart; hide RegionUnitNo; hide FragmentSize; hide Call.UnitCount; hide FragmentCount; hide Carries;
    assert TicketOk(cfg, s, t);
    var x := s.log[t];
    assert CallerOk(cfg, s, x.call);
    assert Mine(s, x.call, s.callers[x.call].firstTicket, 0);
    assert TicketOk(cfg, s, s.callers[x.call].firstTicket);
    if !x.phase.Retired? {
      UnfinishedIsLive(cfg, s, t);
      assert false;
    }
  }

  /** The last ticket that was put into an item. */
  function LastTicket(posted: nat, i: Slot): (t: nat)
    requires i < posted
    ensures t < posted <= t + QUEUE_SIZE && t % QUEUE_SIZE == i
  {
    i + (posted - 1 - i) / QUEUE_SIZE * QUEUE_SIZE
  }

  /** An item that a worker finds ready carries the ticket it came for. */
  lemma ReadyMeansPosted(cfg: Config, s: State, w: nat)
    requires RingInv(cfg, s) && w < |s.workers| && s.workers[w].pc.Looking?
    requires MyItem(s, w).state.WorkItemReady?
    ensures s.workers[w].ticket < |s.log| && s.log[s.workers[w].ticket].phase.Posted?
  {
    hide RegionStart; hide RegionUnitNo; hide FragmentSize; hide Call.UnitCount; hide FragmentCount; hide Carries;
    var me := s.workers[w];
    assert WorkerOk(cfg, s, w) && ItemOk(cfg, s, me.item);
    var u := LastTicket(|s.log|, me.item);
    assert TicketOk(cfg, s, u);
    if me.ticket < |s.log| {
      assert TicketOk(cfg, s, me.ticket);
    }
  }

  // ---- Steps that leave the ring alone ----

  /** Only worker w has moved, and it plays the same part in the ring as before. */
  predicate SameButWorker(s: State, s': State, w: nat) {
    && w < |s.workers| == |s'.workers|
    && s'.workers == s.workers[w := s'.workers[w]]
    && s'.workers[w].item == s.workers[w].item && s'.workers[w].ticket == s.workers[w].ticket
    && RoleOf(s'.workers[w].pc) == RoleOf(s.workers[w].pc)
    && (HoldsDequeueMutex(s'.workers[w].pc) <==> HoldsDequeueMutex(s.workers[w].pc))
    && s'.queue == s.queue && s'.callers == s.callers && s'.log == s.log && s'.taken == s.taken
    && s'.dequeueMutex == s.dequeueMutex && s'.enqueueMutex == s.enqueueMutex
    && s'.dequeuePosition == s.dequeuePosition && s'.enqueuePosition == s.enqueuePosition
  }

  lemma WorkerMoves(cfg: Config, s: State, s': State, w: nat)
    requires RingInv(cfg, s) && Shaped(cfg, s') && SameButWorker(s, s', w) && WorkerOk(cfg, s', w)
    ensures Ring(cfg, s')
  {
    hide RegionStart; hide RegionUnitNo; hide FragmentSize; hide Call.UnitCount; hide FragmentCount; hide Carries;
    forall t: nat | t < |s'.log| ensures TicketOk(cfg, s', t) { assert TicketOk(cfg, s, t); }
    forall c: nat | c < |s'.callers| ensures CallerOk(cfg, s', c) {
      assert CallerOk(cfg, s, c);
      forall j | 0 <= j < s'.callers[c].posted ensures Mine(s', c, s'.callers[c].firstTicket, j) {
        assert Mine(s, c, s.callers[c].firstTicket, j);
      }
    }
    forall x: nat | x < |s'.workers| ensures WorkerOk(cfg, s', x) { assert WorkerOk(cfg, s, x); }
    forall i: nat | i < QUEUE_SIZE ensures ItemOk(cfg, s', i) { assert ItemOk(cfg, s, i); }
  }

  /** Only caller c has moved, and it plays the same part in the ring as before. */
  predicate SameButCaller(s: State, s': State, c: nat) {
    && c < |s.callers| == |s'.callers|
    && s'.callers == s.callers[c := s'.callers[c]]
    && (var x, y := s.callers[c], s'.callers[c];
        && StageOf(x.pc) == StageOf(y.pc)
        && x == y.(pc := x.pc))
    && s'.queue == s.queue && s'.workers == s.workers && s'.log == s.log && s'.taken == s.taken
    && s'.dequeueMutex == s.dequeueMutex && s'.enqueueMutex == s.enqueueMutex
    && s'.dequeuePosition == s.dequeuePosition && s'.enqueuePosition == s.enqueuePosition
  }

  lemma CallerMovesTicket(cfg: Config, s: State, s': State, c: nat, t: nat)
    requires RingInv(cfg, s) && Shaped(cfg, s') && SameButCaller(s, s', c) && t < |s.log|
    ensures TicketOk(cfg, s', t)
  {
    hide RegionStart; hide RegionUnitNo; hide FragmentSize; hide Call.UnitCount; hide FragmentCount; hide Carries;
    hide BatchOk; hide ItemOk; hide IsPooled; hide Items;
    assert TicketOk(cfg, s, t);
  }

  lemma CallerMovesBatch(cfg: Config, s: State, s': State, c: nat, b: nat)
    requires Shaped(cfg, s) && Shaped(cfg, s') && SameButCaller(s, s', c) && b < |s.callers| && BatchOk(cfg, s, b)
    ensures BatchOk(cfg, s', b)
  {
    hide Items;
  }

  lemma CallerMovesCaller(cfg: Config, s: State, s': State, c: nat, b: nat)
    requires RingInv(cfg, s) && Shaped(cfg, s') && SameButCaller(s, s', c) && b < |s.callers|
    ensures CallerOk(cfg, s', b)
  {
    hide RegionStart; hide RegionUnitNo; hide FragmentSize; hide Call.UnitCount; hide FragmentCount; hide Carries;
    hide TicketOk; hide ItemOk; hide WorkerOk; hide LocksOk; hide Items; hide BatchOk;
    assert CallerOk(cfg, s, b);
    if Live(cfg.calls[b], StageOf(s.callers[b].pc)) { CallerMovesBatch(cfg, s, s', c, b); }
    forall j | 0 <= j < s'.callers[b].posted ensures Mine(s', b, s'.callers[b].firstTicket, j) {
      assert Mine(s, b, s.callers[b].firstTicket, j);
    }
  }

  lemma CallerMoves(cfg: Config, s: State, s': State, c: nat)
    requires RingInv(cfg, s) && Shaped(cfg, s') && SameButCaller(s, s', c)
    ensures Ring(cfg, s')
  {
    hide RegionStart; hide RegionUnitNo; hide FragmentSize; hide Call.UnitCount; hide FragmentCount; hide Carries;
    hide TicketOk; hide CallerOk;
    forall t: nat | t < |s'.log| ensures TicketOk(cfg, s', t) { CallerMovesTicket(cfg, s, s', c, t); }
    forall b: nat | b < |s'.callers| ensures CallerOk(cfg, s', b) { CallerMovesCaller(cfg, s, s', c, b); }
    forall x: nat | x < |s'.workers| ensures WorkerOk(cfg, s', x) { assert WorkerOk(cfg, s, x); }
    forall i: nat | i < QUEUE_SIZE ensures ItemOk(cfg, s', i) { assert ItemOk(cfg, s, i); }
  }

  /** Two tickets still in the ring are in different items. */
  lemma Apart(t: nat, u: nat, posted: nat)
    requires t < posted <= t + QUEUE_SIZE && u < posted <= u + QUEUE_SIZE && t != u
    ensures t % QUEUE_SIZE != u % QUEUE_SIZE
  {
  }

  lemma SameFieldsCarry(cfg: Config, x: WorkItem, y: WorkItem, c: nat, k: nat, first: nat)
    requires c < |cfg.calls| && Items(cfg, cfg.calls[c]) > 0
    requires x.call == y.call && x.workType == y.workType && x.dataOffset == y.dataOffset
    requires x.startUnitNo == y.startUnitNo && x.firstFragment == y.firstFragment && x.unitCount == y.unitCount
    ensures Carries(cfg, x, c, k, first) <==> Carries(cfg, y, c, k, first)
  {
  }

  /** A ticket whose item and owner a step leaves alone. */
  lemma TicketItemKept(cfg: Config, s: State, s': State, t: nat)
    requires Shaped(cfg, s) && Shaped(cfg, s') && t < |s.log| && |s'.log| >= |s.log| && s'.log[t] == s.log[t]
    requires TicketOwnerOk(cfg, s, t) && TicketItemOk(cfg, s, t)
    requires var x, y := s.callers[s.log[t].call], s'.callers[s.log[t].call];
             y.posted >= x.posted && y.firstTicket == x.firstTicket && y.first == x.first
    requires t + QUEUE_SIZE >= |s.log| ==> s'.queue[t % QUEUE_SIZE] == s.queue[t % QUEUE_SIZE]
    ensures TicketOwnerOk(cfg, s', t) && TicketItemOk(cfg, s', t)
  {
    hide Carries; hide IsPooled; hide Items;
  }

  /** An item taken for ticket `posted` is not in use by a later ticket than `posted` - QUEUE_SIZE. */
  lemma ApartFromNext(t: nat, posted: nat)
    requires t < posted < t + QUEUE_SIZE
    ensures t % QUEUE_SIZE != posted % QUEUE_SIZE
  {
  }

  /** Safety of the look-up of the first fragment.  A worker that works for EncryptionThreadPoolDoWork
      and has not set its last event yet, even one that has already freed its item, still finds
      the first fragment of its own batch there, and that item still belongs to the batch. */
  lemma FirstFragmentIsOwn(cfg: Config, s: State, w: nat)
    requires RingInv(cfg, s) && w < |s.workers|
    requires RoleOf(s.workers[w].pc).Holding? || RoleOf(s.workers[w].pc).Dangling? || RoleOf(s.workers[w].pc).Finishing?
    ensures s.workers[w].ticket < |s.log| && s.log[s.workers[w].ticket].call < |cfg.calls|
    ensures var x := s.log[s.workers[w].ticket];
            var me := s.callers[x.call];
            !cfg.calls[x.call].IsDerivation() ==>
              && Live(cfg.calls[x.call], StageOf(me.pc))
              && x.k < me.posted
              && MyItem(s, w).firstFragment == me.first
              && (s.workers[w].item == me.first <==> x.k == 0)
              && s.queue[me.first].batch == x.call
              && s.queue[me.first].outstandingFragmentCount == |me.uncounted|
              && s.queue[me.first].itemCompletedEvent == me.signalled
              && !s.queue[me.first].state.WorkItemFree?
  {
    hide RegionStart; hide RegionUnitNo; hide FragmentSize; hide Call.UnitCount; hide FragmentCount;
    assert WorkerOk(cfg, s, w);
    var t := s.workers[w].ticket;
    assert TicketOk(cfg, s, t);
    var c := s.log[t].call;
    if !cfg.calls[c].IsDerivation() {
      UnfinishedIsLive(cfg, s, t);
      assert CallerOk(cfg, s, c) && ProgramOk(cfg, cfg.calls[c], s.callers[c]);
      var f := s.callers[c].firstTicket;
      assert Mine(s, c, f, 0);
      assert TicketOk(cfg, s, f);
      if t != f { Apart(t, f, |s.log|); }
    }
  }

  // ---- Workers ----

  /** What counting a fragment does in a state that satisfies the invariant. */
  lemma CountFragmentIs(cfg: Config, s: State, w: nat)
    requires RingInv(cfg, s) && w < |s.workers| && (s.workers[w].pc.CountingFirst? || s.workers[w].pc.Counting?)
    ensures s.workers[w].ticket < |s.log| && s.log[s.workers[w].ticket].call < |cfg.calls|
    ensures var t := s.workers[w].ticket;
            var x := s.log[t];
            var me := s.callers[x.call];
            var left := me.uncounted - {x.k};
            && x.k in me.uncounted && |left| == |me.uncounted| - 1
            && CountFragment(cfg, s, w)
               == s.(workers := s.workers[w := s.workers[w].(pc := if left == {} then Completing else Idle)],
                  log := s.log[t := x.(phase := if left == {} then Last(w) else if x.k == 0 then Parked else Retired)],
                  queue := s.queue[me.first := s.queue[me.first].(outstandingFragmentCount := |left|)],
                  callers := s.callers[x.call := me.(uncounted := left, counter := w)])
  {
    hide IsPooled; hide LocksOk;
    hide RegionStart; hide RegionUnitNo; hide FragmentSize; hide Call.UnitCount; hide FragmentCount; hide Carries; hide Items;
    assert WorkerOk(cfg, s, w);
    var t := s.workers[w].ticket;
    assert TicketOk(cfg, s, t);
    FirstFragmentIsOwn(cfg, s, w);
    var me := s.callers[s.log[t].call];
    assert |me.uncounted - {s.log[t].k}| == |me.uncounted| - 1;
  }

  /** What completing a batch does in a state that satisfies the invariant. */
  lemma CompleteBatchIs(cfg: Config, s: State, w: nat)
    requires RingInv(cfg, s) && w < |s.workers| && s.workers[w].pc.Completing?
    ensures s.workers[w].ticket < |s.log| && s.log[s.workers[w].ticket].call < |cfg.calls|
    ensures var t := s.workers[w].ticket;
            var x := s.log[t];
            var me := s.callers[x.call];
            && me.uncounted == {} && !me.signalled && me.counter == w
            && CompleteBatch(cfg, s, w)
               == s.(workers := s.workers[w := s.workers[w].(pc := Idle)],
                  log := s.log[t := x.(phase := if x.k == 0 then Parked else Retired)],
                  queue := s.queue[me.first := s.queue[me.first].(itemCompletedEvent := true)],
                  callers := s.callers[x.call := me.(signalled := true)])
  {
    hide RegionStart; hide RegionUnitNo; hide FragmentSize; hide Call.UnitCount; hide FragmentCount; hide Carries; hide Items;
    assert WorkerOk(cfg, s, w);
    assert TicketOk(cfg, s, s.workers[w].ticket);
    FirstFragmentIsOwn(cfg, s, w);
  }

  lemma TakeItemTicket(cfg: Config, s: State, w: nat, t: nat)
    requires RingInv(cfg, s) && WorkerEnabled(cfg, s, w) && s.workers[w].pc.Idle?
    requires t < |s.log|
    ensures TicketOk(cfg, TakeItem(cfg, s, w), t)
  {
    hide RegionStart; hide RegionUnitNo; hide FragmentSize; hide Call.UnitCount; hide FragmentCount; hide Carries;
    hide CallerOk; hide ItemOk; hide Items; hide IsPooled;
    assert WorkerOk(cfg, s, w);
    assert TicketOk(cfg, s, t);
  }

  lemma TakeItemCaller(cfg: Config, s: State, w: nat, b: nat)
    requires RingInv(cfg, s) && WorkerEnabled(cfg, s, w) && s.workers[w].pc.Idle?
    requires b < |s.callers|
    ensures CallerOk(cfg, TakeItem(cfg, s, w), b)
  {
    hide RegionStart; hide RegionUnitNo; hide FragmentSize; hide Call.UnitCount; hide FragmentCount; hide Carries;
    hide TicketOk; hide ItemOk; hide Items; hide LocksOk;
    assert CallerOk(cfg, s, b);
    var s' := TakeItem(cfg, s, w);
    forall j | 0 <= j < s'.callers[b].posted ensures Mine(s', b, s'.callers[b].firstTicket, j) {
      assert Mine(s, b, s.callers[b].firstTicket, j);
    }
  }

  lemma TakeItemWorker(cfg: Config, s: State, w: nat, x: nat)
    requires RingInv(cfg, s) && WorkerEnabled(cfg, s, w) && s.workers[w].pc.Idle?
    requires x < |s.workers|
    ensures WorkerOk(cfg, TakeItem(cfg, s, w), x)
  {
    hide ProgramOk; hide Items; hide TicketOk; hide CallerOk; hide ItemOk;
    hide RegionStart; hide RegionUnitNo; hide FragmentSize; hide Call.UnitCount; hide FragmentCount; hide Carries;
    assert WorkerOk(cfg, s, w) && WorkerOk(cfg, s, x);
  }

  lemma TakeItemItem(cfg: Config, s: State, w: nat, i: nat)
    requires RingInv(cfg, s) && WorkerEnabled(cfg, s, w) && s.workers[w].pc.Idle?
    requires i < QUEUE_SIZE
    ensures ItemOk(cfg, TakeItem(cfg, s, w), i)
  {
    hide ProgramOk; hide Items; hide TicketOk; hide CallerOk; hide WorkerOk;
    hide RegionStart; hide RegionUnitNo; hide FragmentSize; hide Call.UnitCount; hide FragmentCount; hide Carries;
    assert ItemOk(cfg, s, i);
  }

  lemma TakeItemLocks(cfg: Config, s: State, w: nat)
    requires RingInv(cfg, s) && WorkerEnabled(cfg, s, w) && s.workers[w].pc.Idle?
    ensures LocksOk(cfg, TakeItem(cfg, s, w))
    ensures var s' := TakeItem(cfg, s, w); |s'.log| == |s.log| && |s'.callers| == |s.callers| && |s'.workers| == |s.workers|
  {
    hide ProgramOk; hide Items; hide TicketOk; hide CallerOk; hide ItemOk; hide Carries;
    assert WorkerOk(cfg, s, w);
  }

  lemma TakeItemRing(cfg: Config, s: State, w: nat)
    requires RingInv(cfg, s) && WorkerEnabled(cfg, s, w) && s.workers[w].pc.Idle?
    ensures Ring(cfg, TakeItem(cfg, s, w))
  {
    hide ProgramOk; hide ValidCall; hide TakeItem; hide LocksOk; hide TicketOk; hide CallerOk; hide WorkerOk; hide ItemOk;
    var s' := TakeItem(cfg, s, w);
    TakeItemLocks(cfg, s, w);
    forall t: nat | t < |s'.log| ensures TicketOk(cfg, s', t) { TakeItemTicket(cfg, s, w, t); }
    forall b: nat | b < |s'.callers| ensures CallerOk(cfg, s', b) { TakeItemCaller(cfg, s, w, b); }
    forall x: nat | x < |s'.workers| ensures WorkerOk(cfg, s', x) { TakeItemWorker(cfg, s, w, x); }
    forall i: nat | i < QUEUE_SIZE ensures ItemOk(cfg, s', i) { TakeItemItem(cfg, s, w, i); }
  }

  lemma ClaimItemOwnTicket(cfg: Config, s: State, w: nat, t: nat)
    requires RingInv(cfg, s) && WorkerEnabled(cfg, s, w) && s.workers[w].pc.Claiming?
    requires t < |s.log| && t == s.workers[w].ticket
    ensures TicketOwnerOk(cfg, ClaimItem(cfg, s, w), t) && TicketItemOk(cfg, ClaimItem(cfg, s, w), t)
  {
    hide RegionStart; hide RegionUnitNo; hide FragmentSize; hide Call.UnitCount; hide FragmentCount; hide Carries;
    hide TicketCountOk; hide BatchOk; hide ItemOk; hide LocksOk; hide BeingTaken;
    assert WorkerOk(cfg, s, w);
    assert TicketOk(cfg, s, t);
    var x := s.log[t];
    SameFieldsCarry(cfg, s.queue[t % QUEUE_SIZE], ClaimItem(cfg, s, w).queue[t % QUEUE_SIZE], x.call, x.k, s.callers[x.call].first);
  }

  lemma ClaimItemTicketItem(cfg: Config, s: State, w: nat, t: nat)
    requires RingInv(cfg, s) && WorkerEnabled(cfg, s, w) && s.workers[w].pc.Claiming?
    requires t < |s.log|
    ensures TicketOwnerOk(cfg, ClaimItem(cfg, s, w), t) && TicketItemOk(cfg, ClaimItem(cfg, s, w), t)
  {
    hide RegionStart; hide RegionUnitNo; hide FragmentSize; hide Call.UnitCount; hide FragmentCount; hide Carries;
    hide TicketCountOk; hide TicketItemOk; hide BatchOk; hide ItemOk; hide LocksOk; hide BeingTaken; hide IsPooled;
    assert WorkerOk(cfg, s, w);
    var u := s.workers[w].ticket;
    if t == u {
      ClaimItemOwnTicket(cfg, s, w, t);
    } else {
      assert TicketOk(cfg, s, t) && TicketOk(cfg, s, u);
      assert LapOk(cfg, s, u);
      if t + QUEUE_SIZE >= |s.log| { Apart(t, u, |s.log|); }
      TicketItemKept(cfg, s, ClaimItem(cfg, s, w), t);
    }
  }

  lemma ClaimItemTicket(cfg: Config, s: State, w: nat, t: nat)
    requires RingInv(cfg, s) && WorkerEnabled(cfg, s, w) && s.workers[w].pc.Claiming?
    requires t < |s.log|
    ensures TicketOk(cfg, ClaimItem(cfg, s, w), t)
  {
    hide RegionStart; hide RegionUnitNo; hide FragmentSize; hide Call.UnitCount; hide FragmentCount; hide Carries;
    hide TicketItemOk;
    assert WorkerOk(cfg, s, w);
    assert TicketOk(cfg, s, s.workers[w].ticket);
    assert TicketOk(cfg, s, t);
    ClaimItemTicketItem(cfg, s, w, t);
  }

  lemma ClaimItemCaller(cfg: Config, s: State, w: nat, b: nat)
    requires RingInv(cfg, s) && WorkerEnabled(cfg, s, w) && s.workers[w].pc.Claiming?
    requires b < |s.callers|
    ensures CallerOk(cfg, ClaimItem(cfg, s, w), b)
  {
    hide RegionStart; hide RegionUnitNo; hide FragmentSize; hide Call.UnitCount; hide FragmentCount; hide Carries;
    assert WorkerOk(cfg, s, w);
    assert TicketOk(cfg, s, s.workers[w].ticket);
    assert CallerOk(cfg, s, b);
    var s' := ClaimItem(cfg, s, w);
    forall j | 0 <= j < s'.callers[b].posted ensures Mine(s', b, s'.callers[b].firstTicket, j) {
      assert Mine(s, b, s.callers[b].firstTicket, j);
    }
    if StageOf(s.callers[b].pc).Publishing? {
      SameFieldsCarry(cfg, s.queue[s.callers[b].item], s'.queue[s.callers[b].item], b, s.callers[b].posted, s.callers[b].first);
    }
  }

  lemma ClaimItemWorker(cfg: Config, s: State, w: nat, x: nat)
    requires RingInv(cfg, s) && WorkerEnabled(cfg, s, w) && s.workers[w].pc.Claiming?
    requires x < |s.workers|
    ensures WorkerOk(cfg, ClaimItem(cfg, s, w), x)
  {
    hide RegionStart; hide RegionUnitNo; hide FragmentSize; hide Call.UnitCount; hide FragmentCount; hide Carries;
    assert WorkerOk(cfg, s, w);
    assert TicketOk(cfg, s, s.workers[w].ticket);
    assert WorkerOk(cfg, s, x);
  }

  lemma ClaimItemItem(cfg: Config, s: State, w: nat, i: nat)
    requires RingInv(cfg, s) && WorkerEnabled(cfg, s, w) && s.workers[w].pc.Claiming?
    requires i < QUEUE_SIZE
    ensures ItemOk(cfg, ClaimItem(cfg, s, w), i)
  {
    hide RegionStart; hide RegionUnitNo; hide FragmentSize; hide Call.UnitCount; hide FragmentCount; hide Carries;
    assert WorkerOk(cfg, s, w);
    assert TicketOk(cfg, s, s.workers[w].ticket);
    assert ItemOk(cfg, s, i);
  }

  lemma ClaimItemRing(cfg: Config, s: State, w: nat)
    requires RingInv(cfg, s) && WorkerEnabled(cfg, s, w) && s.workers[w].pc.Claiming?
    ensures Ring(cfg, ClaimItem(cfg, s, w))
  {
    hide RegionStart; hide RegionUnitNo; hide FragmentSize; hide Call.UnitCount; hide FragmentCount; hide Carries;
    var s' := ClaimItem(cfg, s, w);
    assert WorkerOk(cfg, s, w);
    assert TicketOk(cfg, s, s.workers[w].ticket);
    forall t: nat | t < |s'.log| ensures TicketOk(cfg, s', t) { ClaimItemTicket(cfg, s, w, t); }
    forall b: nat | b < |s'.callers| ensures CallerOk(cfg, s', b) { ClaimItemCaller(cfg, s, w, b); }
    forall x: nat | x < |s'.workers| ensures WorkerOk(cfg, s', x) { ClaimItemWorker(cfg, s, w, x); }
    forall i: nat | i < QUEUE_SIZE ensures ItemOk(cfg, s', i) { ClaimItemItem(cfg, s, w, i); }
  }

  lemma ReleaseDequeueRing(cfg: Config, s: State, w: nat)
    requires RingInv(cfg, s) && WorkerEnabled(cfg, s, w) && s.workers[w].pc.ReleasingDequeue?
    ensures Ring(cfg, SetPc(cfg, s, w, Starting).(dequeueMutex := NoThread))
  {
    hide RegionStart; hide RegionUnitNo; hide FragmentSize; hide Call.UnitCount; hide FragmentCount; hide Carries;
    var s' := SetPc(cfg, s, w, Starting).(dequeueMutex := NoThread);
    assert WorkerOk(cfg, s, w);
    forall t: nat | t < |s'.log| ensures TicketOk(cfg, s', t) { assert TicketOk(cfg, s, t); }
    forall b: nat | b < |s'.callers| ensures CallerOk(cfg, s', b) {
      assert CallerOk(cfg, s, b);
      forall j | 0 <= j < s'.callers[b].posted ensures Mine(s', b, s'.callers[b].firstTicket, j) {
        assert Mine(s, b, s.callers[b].firstTicket, j);
      }
    }
    forall x: nat | x < |s'.workers| ensures WorkerOk(cfg, s', x) { assert WorkerOk(cfg, s, x); }
    forall i: nat | i < QUEUE_SIZE ensures ItemOk(cfg, s', i) { assert ItemOk(cfg, s, i); }
  }

  lemma FreeOwnItemOwnTicket(cfg: Config, s: State, w: nat, t: nat)
    requires RingInv(cfg, s) && WorkerEnabled(cfg, s, w) && s.workers[w].pc.Freeing? && s.workers[w].item != MyItem(s, w).firstFragment
    requires t < |s.log| && t == s.workers[w].ticket
    ensures TicketOwnerOk(cfg, FreeOwnItem(cfg, s, w), t) && TicketItemOk(cfg, FreeOwnItem(cfg, s, w), t)
  {
    hide RegionStart; hide RegionUnitNo; hide FragmentSize; hide Call.UnitCount; hide FragmentCount; hide Carries;
    hide TicketCountOk; hide BatchOk; hide ItemOk; hide LocksOk; hide BeingTaken;
    assert WorkerOk(cfg, s, w);
    assert TicketOk(cfg, s, t);
    var x := s.log[t];
    SameFieldsCarry(cfg, s.queue[t % QUEUE_SIZE], FreeOwnItem(cfg, s, w).queue[t % QUEUE_SIZE], x.call, x.k, s.callers[x.call].first);
  }

  lemma FreeOwnItemTicketItem(cfg: Config, s: State, w: nat, t: nat)
    requires RingInv(cfg, s) && WorkerEnabled(cfg, s, w) && s.workers[w].pc.Freeing? && s.workers[w].item != MyItem(s, w).firstFragment
    requires t < |s.log|
    ensures TicketOwnerOk(cfg, FreeOwnItem(cfg, s, w), t) && TicketItemOk(cfg, FreeOwnItem(cfg, s, w), t)
  {
    hide RegionStart; hide RegionUnitNo; hide FragmentSize; hide Call.UnitCount; hide FragmentCount; hide Carries;
    hide TicketCountOk; hide TicketItemOk; hide BatchOk; hide ItemOk; hide LocksOk; hide BeingTaken; hide IsPooled;
    assert WorkerOk(cfg, s, w);
    var u := s.workers[w].ticket;
    if t == u {
      FreeOwnItemOwnTicket(cfg, s, w, t);
    } else {
      assert TicketOk(cfg, s, t) && TicketOk(cfg, s, u);
      assert LapOk(cfg, s, u);
      if t + QUEUE_SIZE >= |s.log| { Apart(t, u, |s.log|); }
      TicketItemKept(cfg, s, FreeOwnItem(cfg, s, w), t);
    }
  }

  lemma FreeOwnItemTicket(cfg: Config, s: State, w: nat, t: nat)
    requires RingInv(cfg, s) && WorkerEnabled(cfg, s, w) && s.workers[w].pc.Freeing? && s.workers[w].item != MyItem(s, w).firstFragment
    requires t < |s.log|
    ensures TicketOk(cfg, FreeOwnItem(cfg, s, w), t)
  {
    hide RegionStart; hide RegionUnitNo; hide FragmentSize; hide Call.UnitCount; hide FragmentCount; hide Carries;
    hide TicketItemOk;
    assert WorkerOk(cfg, s, w);
    assert TicketOk(cfg, s, s.workers[w].ticket);
    assert ProgramOk(cfg, cfg.calls[s.log[s.workers[w].ticket].call], s.callers[s.log[s.workers[w].ticket].call]);
    FirstFragmentIsOwn(cfg, s, w);
    assert TicketOk(cfg, s, t);
    FreeOwnItemTicketItem(cfg, s, w, t);
  }

  lemma FreeOwnItemCaller(cfg: Config, s: State, w: nat, b: nat)
    requires RingInv(cfg, s) && WorkerEnabled(cfg, s, w) && s.workers[w].pc.Freeing? && s.workers[w].item != MyItem(s, w).firstFragment
    requires b < |s.callers|
    ensures CallerOk(cfg, FreeOwnItem(cfg, s, w), b)
  {
    hide ProgramOk; hide LocksOk;
    hide RegionStart; hide RegionUnitNo; hide FragmentSize; hide Call.UnitCount; hide FragmentCount; hide Carries;
    assert WorkerOk(cfg, s, w);
    assert TicketOk(cfg, s, s.workers[w].ticket);
    assert ProgramOk(cfg, cfg.calls[s.log[s.workers[w].ticket].call], s.callers[s.log[s.workers[w].ticket].call]);
    FirstFragmentIsOwn(cfg, s, w);
    assert CallerOk(cfg, s, b);
    var s' := FreeOwnItem(cfg, s, w);
    forall j | 0 <= j < s'.callers[b].posted ensures Mine(s', b, s'.callers[b].firstTicket, j) {
      assert Mine(s, b, s.callers[b].firstTicket, j);
    }
    if StageOf(s.callers[b].pc).Publishing? {
      SameFieldsCarry(cfg, s.queue[s.callers[b].item], s'.queue[s.callers[b].item], b, s.callers[b].posted, s.callers[b].first);
    }
  }

  lemma FreeOwnItemWorker(cfg: Config, s: State, w: nat, x: nat)
    requires RingInv(cfg, s) && WorkerEnabled(cfg, s, w) && s.workers[w].pc.Freeing? && s.workers[w].item != MyItem(s, w).firstFragment
    requires x < |s.workers|
    ensures WorkerOk(cfg, FreeOwnItem(cfg, s, w), x)
  {
    hide RegionStart; hide RegionUnitNo; hide FragmentSize; hide Call.UnitCount; hide FragmentCount; hide Carries;
    assert WorkerOk(cfg, s, w);
    assert TicketOk(cfg, s, s.workers[w].ticket);
    assert ProgramOk(cfg, cfg.calls[s.log[s.workers[w].ticket].call], s.callers[s.log[s.workers[w].ticket].call]);
    FirstFragmentIsOwn(cfg, s, w);
    assert WorkerOk(cfg, s, x);
  }

  lemma FreeOwnItemItem(cfg: Config, s: State, w: nat, i: nat)
    requires RingInv(cfg, s) && WorkerEnabled(cfg, s, w) && s.workers[w].pc.Freeing? && s.workers[w].item != MyItem(s, w).firstFragment
    requires i < QUEUE_SIZE
    ensures ItemOk(cfg, FreeOwnItem(cfg, s, w), i)
  {
    hide RegionStart; hide RegionUnitNo; hide FragmentSize; hide Call.UnitCount; hide FragmentCount; hide Carries;
    assert WorkerOk(cfg, s, w);
    assert TicketOk(cfg, s, s.workers[w].ticket);
    assert ProgramOk(cfg, cfg.calls[s.log[s.workers[w].ticket].call], s.callers[s.log[s.workers[w].ticket].call]);
    FirstFragmentIsOwn(cfg, s, w);
    assert ItemOk(cfg, s, i);
  }

  lemma FreeOwnItemRing(cfg: Config, s: State, w: nat)
    requires RingInv(cfg, s) && WorkerEnabled(cfg, s, w) && s.workers[w].pc.Freeing? && s.workers[w].item != MyItem(s, w).firstFragment
    ensures Ring(cfg, FreeOwnItem(cfg, s, w))
  {
    hide RegionStart; hide RegionUnitNo; hide FragmentSize; hide Call.UnitCount; hide FragmentCount; hide Carries;
    var s' := FreeOwnItem(cfg, s, w);
    assert WorkerOk(cfg, s, w);
    assert TicketOk(cfg, s, s.workers[w].ticket);
    assert ProgramOk(cfg, cfg.calls[s.log[s.workers[w].ticket].call], s.callers[s.log[s.workers[w].ticket].call]);
    FirstFragmentIsOwn(cfg, s, w);
    forall t: nat | t < |s'.log| ensures TicketOk(cfg, s', t) { FreeOwnItemTicket(cfg, s, w, t); }
    forall b: nat | b < |s'.callers| ensures CallerOk(cfg, s', b) { FreeOwnItemCaller(cfg, s, w, b); }
    forall x: nat | x < |s'.workers| ensures WorkerOk(cfg, s', x) { FreeOwnItemWorker(cfg, s, w, x); }
    forall i: nat | i < QUEUE_SIZE ensures ItemOk(cfg, s', i) { FreeOwnItemItem(cfg, s, w, i); }
  }

  lemma CountFragmentTicketItem(cfg: Config, s: State, w: nat, t: nat)
    requires RingInv(cfg, s) && WorkerEnabled(cfg, s, w) && (s.workers[w].pc.CountingFirst? || s.workers[w].pc.Counting?)
    requires t < |s.log|
    ensures TicketOwnerOk(cfg, CountFragment(cfg, s, w), t) && TicketItemOk(cfg, CountFragment(cfg, s, w), t)
  {
    hide IsPooled; hide ProgramOk; hide LocksOk;
    hide RegionStart; hide RegionUnitNo; hide FragmentSize; hide Call.UnitCount; hide FragmentCount; hide Carries;
    hide CountFragment;
    hide TicketCountOk;
    assert WorkerOk(cfg, s, w);
    hide CountFragment;
    CountFragmentIs(cfg, s, w);
    assert TicketOk(cfg, s, t) && TicketOk(cfg, s, s.workers[w].ticket);
    FirstFragmentIsOwn(cfg, s, w);
    var x := s.log[t];
    if t + QUEUE_SIZE >= |s.log| {
      SameFieldsCarry(cfg, s.queue[t % QUEUE_SIZE], CountFragment(cfg, s, w).queue[t % QUEUE_SIZE], x.call, x.k, s.callers[x.call].first);
    }
  }

  lemma CountFragmentTicketCount(cfg: Config, s: State, w: nat, t: nat)
    requires RingInv(cfg, s) && WorkerEnabled(cfg, s, w) && (s.workers[w].pc.CountingFirst? || s.workers[w].pc.Counting?)
    requires t < |s.log|
    ensures var s' := CountFragment(cfg, s, w);
            t < |s'.log| && s'.log[t].call < |cfg.calls| && TicketCountOk(cfg.calls[s'.log[t].call], s'.callers[s'.log[t].call], s'.log[t])
  {
    hide RegionStart; hide RegionUnitNo; hide FragmentSize; hide Call.UnitCount; hide FragmentCount; hide Carries;
    hide CountFragment;
    hide TicketItemOk; hide TicketWorkerOk; hide ItemOk;
    assert WorkerOk(cfg, s, w);
    CountFragmentIs(cfg, s, w);
    assert TicketOk(cfg, s, s.workers[w].ticket);
    FirstFragmentIsOwn(cfg, s, w);
    assert CallerOk(cfg, s, s.log[s.workers[w].ticket].call);
    assert TicketOk(cfg, s, t);
    CountFragmentTicketItem(cfg, s, w, t);
  }

  lemma CountFragmentTicket(cfg: Config, s: State, w: nat, t: nat)
    requires RingInv(cfg, s) && WorkerEnabled(cfg, s, w) && (s.workers[w].pc.CountingFirst? || s.workers[w].pc.Counting?)
    requires t < |s.log|
    ensures TicketOk(cfg, CountFragment(cfg, s, w), t)
  {
    hide ProgramOk; hide Items; hide LocksOk;
    hide RegionStart; hide RegionUnitNo; hide FragmentSize; hide Call.UnitCount; hide FragmentCount; hide Carries;
    hide CountFragment;
    hide TicketItemOk; hide TicketCountOk; hide BatchOk; hide ItemOk;
    assert WorkerOk(cfg, s, w);
    CountFragmentIs(cfg, s, w);
    assert TicketOk(cfg, s, s.workers[w].ticket);
    FirstFragmentIsOwn(cfg, s, w);
    assert CallerOk(cfg, s, s.log[s.workers[w].ticket].call);
    assert TicketOk(cfg, s, t);
    CountFragmentTicketItem(cfg, s, w, t);
    CountFragmentTicketCount(cfg, s, w, t);
  }

  lemma CountFragmentBatch(cfg: Config, s: State, w: nat, b: nat)
    requires RingInv(cfg, s) && WorkerEnabled(cfg, s, w) && (s.workers[w].pc.CountingFirst? || s.workers[w].pc.Counting?)
    requires b < |s.callers|
    ensures Live(cfg.calls[b], StageOf(CountFragment(cfg, s, w).callers[b].pc)) ==> BatchOk(cfg, CountFragment(cfg, s, w), b)
  {
    hide BeingTaken; hide ProgramOk; hide LocksOk; hide ItemOk;
    hide RegionStart; hide RegionUnitNo; hide FragmentSize; hide Call.UnitCount; hide FragmentCount; hide Carries;
    hide CountFragment;
    assert WorkerOk(cfg, s, w);
    CountFragmentIs(cfg, s, w);
    assert TicketOk(cfg, s, s.workers[w].ticket);
    FirstFragmentIsOwn(cfg, s, w);
    assert CallerOk(cfg, s, s.log[s.workers[w].ticket].call);
    assert CallerOk(cfg, s, b);
  }

  lemma CountFragmentCaller(cfg: Config, s: State, w: nat, b: nat)
    requires RingInv(cfg, s) && WorkerEnabled(cfg, s, w) && (s.workers[w].pc.CountingFirst? || s.workers[w].pc.Counting?)
    requires b < |s.callers|
    ensures CallerOk(cfg, CountFragment(cfg, s, w), b)
  {
    hide ProgramOk; hide WorkerOk; hide TicketOk;
    hide RegionStart; hide RegionUnitNo; hide FragmentSize; hide Call.UnitCount; hide FragmentCount; hide Carries;
    hide CountFragment;
    hide BatchOk;
    assert WorkerOk(cfg, s, w);
    CountFragmentIs(cfg, s, w);
    assert TicketOk(cfg, s, s.workers[w].ticket);
    FirstFragmentIsOwn(cfg, s, w);
    assert CallerOk(cfg, s, s.log[s.workers[w].ticket].call);
    assert CallerOk(cfg, s, b);
    var s' := CountFragment(cfg, s, w);
    forall j | 0 <= j < s'.callers[b].posted ensures Mine(s', b, s'.callers[b].firstTicket, j) {
      assert Mine(s, b, s.callers[b].firstTicket, j);
    }
    CountFragmentBatch(cfg, s, w, b);
    if StageOf(s.callers[b].pc).Publishing? {
      SameFieldsCarry(cfg, s.queue[s.callers[b].item], s'.queue[s.callers[b].item], b, s.callers[b].posted, s.callers[b].first);
    }
  }

  lemma CountFragmentWorker(cfg: Config, s: State, w: nat, x: nat)
    requires RingInv(cfg, s) && WorkerEnabled(cfg, s, w) && (s.workers[w].pc.CountingFirst? || s.workers[w].pc.Counting?)
    requires x < |s.workers|
    ensures WorkerOk(cfg, CountFragment(cfg, s, w), x)
  {
    hide RegionStart; hide RegionUnitNo; hide FragmentSize; hide Call.UnitCount; hide FragmentCount; hide Carries;
    hide CountFragment;
    assert WorkerOk(cfg, s, w);
    CountFragmentIs(cfg, s, w);
    assert TicketOk(cfg, s, s.workers[w].ticket);
    FirstFragmentIsOwn(cfg, s, w);
    assert CallerOk(cfg, s, s.log[s.workers[w].ticket].call);
    assert WorkerOk(cfg, s, x);
  }

  lemma CountFragmentItem(cfg: Config, s: State, w: nat, i: nat)
    requires RingInv(cfg, s) && WorkerEnabled(cfg, s, w) && (s.workers[w].pc.CountingFirst? || s.workers[w].pc.Counting?)
    requires i < QUEUE_SIZE
    ensures ItemOk(cfg, CountFragment(cfg, s, w), i)
  {
    hide RegionStart; hide RegionUnitNo; hide FragmentSize; hide Call.UnitCount; hide FragmentCount; hide Carries;
    hide CountFragment;
    assert WorkerOk(cfg, s, w);
    CountFragmentIs(cfg, s, w);
    assert TicketOk(cfg, s, s.workers[w].ticket);
    FirstFragmentIsOwn(cfg, s, w);
    assert CallerOk(cfg, s, s.log[s.workers[w].ticket].call);
    assert ItemOk(cfg, s, i);
  }

  lemma CountFragmentRing(cfg: Config, s: State, w: nat)
    requires RingInv(cfg, s) && WorkerEnabled(cfg, s, w) && (s.workers[w].pc.CountingFirst? || s.workers[w].pc.Counting?)
    ensures Ring(cfg, CountFragment(cfg, s, w))
  {
    hide RegionStart; hide RegionUnitNo; hide FragmentSize; hide Call.UnitCount; hide FragmentCount; hide Carries;
    hide CountFragment;
    var s' := CountFragment(cfg, s, w);
    assert WorkerOk(cfg, s, w);
    CountFragmentIs(cfg, s, w);
    assert TicketOk(cfg, s, s.workers[w].ticket);
    FirstFragmentIsOwn(cfg, s, w);
    assert CallerOk(cfg, s, s.log[s.workers[w].ticket].call);
    forall t: nat | t < |s'.log| ensures TicketOk(cfg, s', t) { CountFragmentTicket(cfg, s, w, t); }
    forall b: nat | b < |s'.callers| ensures CallerOk(cfg, s', b) { CountFragmentCaller(cfg, s, w, b); }
    forall x: nat | x < |s'.workers| ensures WorkerOk(cfg, s', x) { CountFragmentWorker(cfg, s, w, x); }
    forall i: nat | i < QUEUE_SIZE ensures ItemOk(cfg, s', i) { CountFragmentItem(cfg, s, w, i); }
  }

  lemma CompleteBatchTicketItem(cfg: Config, s: State, w: nat, t: nat)
    requires RingInv(cfg, s) && WorkerEnabled(cfg, s, w) && s.workers[w].pc.Completing?
    requires t < |s.log|
    ensures TicketOwnerOk(cfg, CompleteBatch(cfg, s, w), t) && TicketItemOk(cfg, CompleteBatch(cfg, s, w), t)
  {
    hide RegionStart; hide RegionUnitNo; hide FragmentSize; hide Call.UnitCount; hide FragmentCount; hide Carries;
    hide CompleteBatch;
    hide TicketCountOk;
    assert WorkerOk(cfg, s, w);
    hide CompleteBatch;
    CompleteBatchIs(cfg, s, w);
    assert TicketOk(cfg, s, t) && TicketOk(cfg, s, s.workers[w].ticket);
    FirstFragmentIsOwn(cfg, s, w);
    var x := s.log[t];
    if t + QUEUE_SIZE >= |s.log| {
      SameFieldsCarry(cfg, s.queue[t % QUEUE_SIZE], CompleteBatch(cfg, s, w).queue[t % QUEUE_SIZE], x.call, x.k, s.callers[x.call].first);
    }
  }

  lemma CompleteBatchTicket(cfg: Config, s: State, w: nat, t: nat)
    requires RingInv(cfg, s) && WorkerEnabled(cfg, s, w) && s.workers[w].pc.Completing?
    requires t < |s.log|
    ensures TicketOk(cfg, CompleteBatch(cfg, s, w), t)
  {
    hide RegionStart; hide RegionUnitNo; hide FragmentSize; hide Call.UnitCount; hide FragmentCount; hide Carries;
    hide CompleteBatch;
    hide TicketItemOk;
    assert WorkerOk(cfg, s, w);
    CompleteBatchIs(cfg, s, w);
    assert TicketOk(cfg, s, s.workers[w].ticket);
    FirstFragmentIsOwn(cfg, s, w);
    assert CallerOk(cfg, s, s.log[s.workers[w].ticket].call);
    assert TicketOk(cfg, s, t);
    CompleteBatchTicketItem(cfg, s, w, t);
  }

  lemma CompleteBatchBatch(cfg: Config, s: State, w: nat, b: nat)
    requires RingInv(cfg, s) && WorkerEnabled(cfg, s, w) && s.workers[w].pc.Completing?
    requires b < |s.callers|
    ensures Live(cfg.calls[b], StageOf(CompleteBatch(cfg, s, w).callers[b].pc)) ==> BatchOk(cfg, CompleteBatch(cfg, s, w), b)
  {
    hide RegionStart; hide RegionUnitNo; hide FragmentSize; hide Call.UnitCount; hide FragmentCount; hide Carries;
    hide CompleteBatch;
    assert WorkerOk(cfg, s, w);
    CompleteBatchIs(cfg, s, w);
    assert TicketOk(cfg, s, s.workers[w].ticket);
    FirstFragmentIsOwn(cfg, s, w);
    assert CallerOk(cfg, s, s.log[s.workers[w].ticket].call);
    assert CallerOk(cfg, s, b);
  }

  lemma CompleteBatchCaller(cfg: Config, s: State, w: nat, b: nat)
    requires RingInv(cfg, s) && WorkerEnabled(cfg, s, w) && s.workers[w].pc.Completing?
    requires b < |s.callers|
    ensures CallerOk(cfg, CompleteBatch(cfg, s, w), b)
  {
    hide BeingTaken; hide ProgramOk; hide TicketItemOk; hide LocksOk;
    hide RegionStart; hide RegionUnitNo; hide FragmentSize; hide Call.UnitCount; hide FragmentCount; hide Carries;
    hide CompleteBatch;
    hide BatchOk;
    assert WorkerOk(cfg, s, w);
    CompleteBatchIs(cfg, s, w);
    assert TicketOk(cfg, s, s.workers[w].ticket);
    FirstFragmentIsOwn(cfg, s, w);
    assert CallerOk(cfg, s, s.log[s.workers[w].ticket].call);
    assert CallerOk(cfg, s, b);
    var s' := CompleteBatch(cfg, s, w);
    forall j | 0 <= j < s'.callers[b].posted ensures Mine(s', b, s'.callers[b].firstTicket, j) {
      assert Mine(s, b, s.callers[b].firstTicket, j);
    }
    CompleteBatchBatch(cfg, s, w, b);
    if StageOf(s.callers[b].pc).Publishing? {
      SameFieldsCarry(cfg, s.queue[s.callers[b].item], s'.queue[s.callers[b].item], b, s.callers[b].posted, s.callers[b].first);
    }
  }

  lemma CompleteBatchWorker(cfg: Config, s: State, w: nat, x: nat)
    requires RingInv(cfg, s) && WorkerEnabled(cfg, s, w) && s.workers[w].pc.Completing?
    requires x < |s.workers|
    ensures WorkerOk(cfg, CompleteBatch(cfg, s, w), x)
  {
    hide RegionStart; hide RegionUnitNo; hide FragmentSize; hide Call.UnitCount; hide FragmentCount; hide Carries;
    hide CompleteBatch;
    assert WorkerOk(cfg, s, w);
    CompleteBatchIs(cfg, s, w);
    assert TicketOk(cfg, s, s.workers[w].ticket);
    FirstFragmentIsOwn(cfg, s, w);
    assert CallerOk(cfg, s, s.log[s.workers[w].ticket].call);
    assert WorkerOk(cfg, s, x);
  }

  lemma CompleteBatchItem(cfg: Config, s: State, w: nat, i: nat)
    requires RingInv(cfg, s) && WorkerEnabled(cfg, s, w) && s.workers[w].pc.Completing?
    requires i < QUEUE_SIZE
    ensures ItemOk(cfg, CompleteBatch(cfg, s, w), i)
  {
    hide RegionStart; hide RegionUnitNo; hide FragmentSize; hide Call.UnitCount; hide FragmentCount; hide Carries;
    hide CompleteBatch;
    assert WorkerOk(cfg, s, w);
    CompleteBatchIs(cfg, s, w);
    assert TicketOk(cfg, s, s.workers[w].ticket);
    FirstFragmentIsOwn(cfg, s, w);
    assert CallerOk(cfg, s, s.log[s.workers[w].ticket].call);
    assert ItemOk(cfg, s, i);
  }

  lemma CompleteBatchRing(cfg: Config, s: State, w: nat)
    requires RingInv(cfg, s) && WorkerEnabled(cfg, s, w) && s.workers[w].pc.Completing?
    ensures Ring(cfg, CompleteBatch(cfg, s, w))
  {
    hide RegionStart; hide RegionUnitNo; hide FragmentSize; hide Call.UnitCount; hide FragmentCount; hide Carries;
    hide CompleteBatch;
    var s' := CompleteBatch(cfg, s, w);
    assert WorkerOk(cfg, s, w);
    CompleteBatchIs(cfg, s, w);
    assert TicketOk(cfg, s, s.workers[w].ticket);
    FirstFragmentIsOwn(cfg, s, w);
    assert CallerOk(cfg, s, s.log[s.workers[w].ticket].call);
    forall t: nat | t < |s'.log| ensures TicketOk(cfg, s', t) { CompleteBatchTicket(cfg, s, w, t); }
    forall b: nat | b < |s'.callers| ensures CallerOk(cfg, s', b) { CompleteBatchCaller(cfg, s, w, b); }
    forall x: nat | x < |s'.workers| ensures WorkerOk(cfg, s', x) { CompleteBatchWorker(cfg, s, w, x); }
    forall i: nat | i < QUEUE_SIZE ensures ItemOk(cfg, s', i) { CompleteBatchItem(cfg, s, w, i); }
  }

  lemma FreeKeyItemOwnTicket(cfg: Config, s: State, w: nat, t: nat)
    requires RingInv(cfg, s) && WorkerEnabled(cfg, s, w) && s.workers[w].pc.FreeingKey?
    requires t < |s.log| && t == s.workers[w].ticket
    ensures TicketOwnerOk(cfg, FreeKeyItem(cfg, s, w), t) && TicketItemOk(cfg, FreeKeyItem(cfg, s, w), t)
  {
    hide RegionStart; hide RegionUnitNo; hide FragmentSize; hide Call.UnitCount; hide FragmentCount; hide Carries;
    hide TicketCountOk; hide BatchOk; hide ItemOk; hide LocksOk; hide BeingTaken;
    assert WorkerOk(cfg, s, w);
    assert TicketOk(cfg, s, t);
    var x := s.log[t];
    SameFieldsCarry(cfg, s.queue[t % QUEUE_SIZE], FreeKeyItem(cfg, s, w).queue[t % QUEUE_SIZE], x.call, x.k, s.callers[x.call].first);
  }

  lemma FreeKeyItemTicketItem(cfg: Config, s: State, w: nat, t: nat)
    requires RingInv(cfg, s) && WorkerEnabled(cfg, s, w) && s.workers[w].pc.FreeingKey?
    requires t < |s.log|
    ensures TicketOwnerOk(cfg, FreeKeyItem(cfg, s, w), t) && TicketItemOk(cfg, FreeKeyItem(cfg, s, w), t)
  {
    hide RegionStart; hide RegionUnitNo; hide FragmentSize; hide Call.UnitCount; hide FragmentCount; hide Carries;
    hide TicketCountOk; hide TicketItemOk; hide BatchOk; hide ItemOk; hide LocksOk; hide BeingTaken; hide IsPooled;
    assert WorkerOk(cfg, s, w);
    var u := s.workers[w].ticket;
    if t == u {
      FreeKeyItemOwnTicket(cfg, s, w, t);
    } else {
      assert TicketOk(cfg, s, t) && TicketOk(cfg, s, u);
      assert LapOk(cfg, s, u);
      if t + QUEUE_SIZE >= |s.log| { Apart(t, u, |s.log|); }
      TicketItemKept(cfg, s, FreeKeyItem(cfg, s, w), t);
    }
  }

  lemma FreeKeyItemTicket(cfg: Config, s: State, w: nat, t: nat)
    requires RingInv(cfg, s) && WorkerEnabled(cfg, s, w) && s.workers[w].pc.FreeingKey?
    requires t < |s.log|
    ensures TicketOk(cfg, FreeKeyItem(cfg, s, w), t)
  {
    hide RegionStart; hide RegionUnitNo; hide FragmentSize; hide Call.UnitCount; hide FragmentCount; hide Carries;
    hide TicketItemOk;
    assert WorkerOk(cfg, s, w);
    assert TicketOk(cfg, s, s.workers[w].ticket);
    assert ProgramOk(cfg, cfg.calls[s.log[s.workers[w].ticket].call], s.callers[s.log[s.workers[w].ticket].call]);
    assert TicketOk(cfg, s, t);
    FreeKeyItemTicketItem(cfg, s, w, t);
  }

  lemma FreeKeyItemCaller(cfg: Config, s: State, w: nat, b: nat)
    requires RingInv(cfg, s) && WorkerEnabled(cfg, s, w) && s.workers[w].pc.FreeingKey?
    requires b < |s.callers|
    ensures CallerOk(cfg, FreeKeyItem(cfg, s, w), b)
  {
    hide BeingTaken;
    hide RegionStart; hide RegionUnitNo; hide FragmentSize; hide Call.UnitCount; hide FragmentCount; hide Carries;
    assert WorkerOk(cfg, s, w);
    assert TicketOk(cfg, s, s.workers[w].ticket);
    assert ProgramOk(cfg, cfg.calls[s.log[s.workers[w].ticket].call], s.callers[s.log[s.workers[w].ticket].call]);
    assert CallerOk(cfg, s, b);
    var s' := FreeKeyItem(cfg, s, w);
    forall j | 0 <= j < s'.callers[b].posted ensures Mine(s', b, s'.callers[b].firstTicket, j) {
      assert Mine(s, b, s.callers[b].firstTicket, j);
    }
    if StageOf(s.callers[b].pc).Publishing? {
      SameFieldsCarry(cfg, s.queue[s.callers[b].item], s'.queue[s.callers[b].item], b, s.callers[b].posted, s.callers[b].first);
    }
  }

  lemma FreeKeyItemWorker(cfg: Config, s: State, w: nat, x: nat)
    requires RingInv(cfg, s) && WorkerEnabled(cfg, s, w) && s.workers[w].pc.FreeingKey?
    requires x < |s.workers|
    ensures WorkerOk(cfg, FreeKeyItem(cfg, s, w), x)
  {
    hide RegionStart; hide RegionUnitNo; hide FragmentSize; hide Call.UnitCount; hide FragmentCount; hide Carries;
    assert WorkerOk(cfg, s, w);
    assert TicketOk(cfg, s, s.workers[w].ticket);
    assert ProgramOk(cfg, cfg.calls[s.log[s.workers[w].ticket].call], s.callers[s.log[s.workers[w].ticket].call]);
    assert WorkerOk(cfg, s, x);
  }

  lemma FreeKeyItemItem(cfg: Config, s: State, w: nat, i: nat)
    requires RingInv(cfg, s) && WorkerEnabled(cfg, s, w) && s.workers[w].pc.FreeingKey?
    requires i < QUEUE_SIZE
    ensures ItemOk(cfg, FreeKeyItem(cfg, s, w), i)
  {
    hide RegionStart; hide RegionUnitNo; hide FragmentSize; hide Call.UnitCount; hide FragmentCount; hide Carries;
    assert WorkerOk(cfg, s, w);
    assert TicketOk(cfg, s, s.workers[w].ticket);
    assert ProgramOk(cfg, cfg.calls[s.log[s.workers[w].ticket].call], s.callers[s.log[s.workers[w].ticket].call]);
    assert ItemOk(cfg, s, i);
  }

  lemma FreeKeyItemRing(cfg: Config, s: State, w: nat)
    requires RingInv(cfg, s) && WorkerEnabled(cfg, s, w) && s.workers[w].pc.FreeingKey?
    ensures Ring(cfg, FreeKeyItem(cfg, s, w))
  {
    hide RegionStart; hide RegionUnitNo; hide FragmentSize; hide Call.UnitCount; hide FragmentCount; hide Carries;
    var s' := FreeKeyItem(cfg, s, w);
    assert WorkerOk(cfg, s, w);
    assert TicketOk(cfg, s, s.workers[w].ticket);
    assert ProgramOk(cfg, cfg.calls[s.log[s.workers[w].ticket].call], s.callers[s.log[s.workers[w].ticket].call]);
    forall t: nat | t < |s'.log| ensures TicketOk(cfg, s', t) { FreeKeyItemTicket(cfg, s, w, t); }
    forall b: nat | b < |s'.callers| ensures CallerOk(cfg, s', b) { FreeKeyItemCaller(cfg, s, w, b); }
    forall x: nat | x < |s'.workers| ensures WorkerOk(cfg, s', x) { FreeKeyItemWorker(cfg, s, w, x); }
    forall i: nat | i < QUEUE_SIZE ensures ItemOk(cfg, s', i) { FreeKeyItemItem(cfg, s, w, i); }
  }

  // ---- Callers ----

  /** What beginning a call does, as far as the ring is concerned. */
  lemma BeginCallIs(cfg: Config, s: State, c: nat)
    requires ProgramInv(cfg, s) && CallerEnabled(cfg, s, c) && s.callers[c].pc.Begin?
    ensures var s' := BeginCall(cfg, s, c);
            && s'.callers[c].posted == 0
            && (IsPooled(cfg.calls[c]) ==>
                  && s' == s.(callers := s'.callers, enqueueMutex := Caller(c))
                  && s.enqueueMutex == NoThread
                  && s'.callers[c].firstTicket == |s.log|
                  && (if cfg.calls[c].IsDerivation() then s'.callers[c].pc == Taking else s'.callers[c].pc == CheckingFirst))
            && (!IsPooled(cfg.calls[c]) ==> s' == s.(callers := s'.callers, memory := s'.memory) && s'.callers[c].pc == Done)
  {
    assert ProgramOk(cfg, cfg.calls[c], s.callers[c]);
  }

  lemma KeyRegion(cfg: Config, call: Call)
    requires call.IsDerivation()
    ensures Items(cfg, call) == 1 && RegionStart(cfg, call, 0) == 0 && RegionUnitNo(cfg, call, 0) == call.startUnitNo
  {
  }

  /** No other live batch uses a free item as its first. */
  lemma FreeFirstIsUnused(cfg: Config, s: State, c: nat, b: nat)
    requires RingInv(cfg, s) && c < |s.callers| && b < |s.callers| && b != c
    requires s.callers[c].pc.CheckingFirst? && s.queue[s.callers[c].first].state.WorkItemFree?
    requires Live(cfg.calls[b], StageOf(s.callers[b].pc))
    ensures s.callers[b].first != s.callers[c].first
  {
    hide RegionStart; hide RegionUnitNo; hide FragmentSize; hide Call.UnitCount; hide FragmentCount; hide Carries;
    assert CallerOk(cfg, s, c) && ProgramOk(cfg, cfg.calls[c], s.callers[c]);
    assert CallerOk(cfg, s, b) && ProgramOk(cfg, cfg.calls[b], s.callers[b]);
    var f := s.callers[b].firstTicket;
    assert Mine(s, b, f, 0);
    assert TicketOk(cfg, s, f);
    if s.callers[b].first == s.callers[c].first {
      FreeMeansRetired(cfg, s, f);
      assert false;
    }
  }

  lemma BeginCallTicket(cfg: Config, s: State, c: nat, t: nat)
    requires RingInv(cfg, s) && CallerEnabled(cfg, s, c) && s.callers[c].pc.Begin?
    requires t < |s.log|
    ensures TicketOk(cfg, BeginCall(cfg, s, c), t)
  {
    hide IsPooled;
    hide RegionStart; hide RegionUnitNo; hide FragmentSize; hide Call.UnitCount; hide FragmentCount; hide Carries;
    hide BeginCall; hide Items;
    assert CallerOk(cfg, s, c) && ProgramOk(cfg, cfg.calls[c], s.callers[c]);
    hide ItemOk; hide WorkerOk; hide TicketItemOk;
    BeginCallIs(cfg, s, c);
    assert TicketOk(cfg, s, t);
    TicketItemKept(cfg, s, BeginCall(cfg, s, c), t);
  }

  lemma BeginCallOwn(cfg: Config, s: State, c: nat)
    requires RingInv(cfg, s) && CallerEnabled(cfg, s, c) && s.callers[c].pc.Begin?
    ensures CallerOk(cfg, BeginCall(cfg, s, c), c)
  {
    hide LocksOk; hide TicketOk; hide WorkerOk; hide ItemOk;
    hide RegionStart; hide RegionUnitNo; hide FragmentSize; hide Call.UnitCount; hide FragmentCount; hide Carries;
    hide BeginCall; hide Items;
    hide BatchOk;
    assert CallerOk(cfg, s, c) && ProgramOk(cfg, cfg.calls[c], s.callers[c]);
    BeginCallIs(cfg, s, c);
  }

  lemma BeginCallCaller(cfg: Config, s: State, c: nat, b: nat)
    requires RingInv(cfg, s) && CallerEnabled(cfg, s, c) && s.callers[c].pc.Begin?
    requires b < |s.callers|
    ensures CallerOk(cfg, BeginCall(cfg, s, c), b)
  {
    hide LocksOk; hide TicketOk; hide WorkerOk; hide ItemOk;
    hide RegionStart; hide RegionUnitNo; hide FragmentSize; hide Call.UnitCount; hide FragmentCount; hide Carries;
    hide BeginCall; hide Items;
    if b == c {
      BeginCallOwn(cfg, s, c);
      return;
    }
    hide ProgramOk;
    BeginCallIs(cfg, s, c);
    assert CallerOk(cfg, s, b);
    var s' := BeginCall(cfg, s, c);
    forall j | 0 <= j < s'.callers[b].posted ensures Mine(s', b, s'.callers[b].firstTicket, j) {
      assert Mine(s, b, s.callers[b].firstTicket, j);
    }
  }

  lemma BeginCallWorker(cfg: Config, s: State, c: nat, x: nat)
    requires RingInv(cfg, s) && CallerEnabled(cfg, s, c) && s.callers[c].pc.Begin?
    requires x < |s.workers|
    ensures WorkerOk(cfg, BeginCall(cfg, s, c), x)
  {
    hide RegionStart; hide RegionUnitNo; hide FragmentSize; hide Call.UnitCount; hide FragmentCount; hide Carries;
    hide BeginCall; hide Items;
    assert CallerOk(cfg, s, c) && ProgramOk(cfg, cfg.calls[c], s.callers[c]);
    BeginCallIs(cfg, s, c);
    assert WorkerOk(cfg, s, x);
  }

  lemma BeginCallItem(cfg: Config, s: State, c: nat, i: nat)
    requires RingInv(cfg, s) && CallerEnabled(cfg, s, c) && s.callers[c].pc.Begin?
    requires i < QUEUE_SIZE
    ensures ItemOk(cfg, BeginCall(cfg, s, c), i)
  {
    hide RegionStart; hide RegionUnitNo; hide FragmentSize; hide Call.UnitCount; hide FragmentCount; hide Carries;
    hide BeginCall; hide Items;
    assert CallerOk(cfg, s, c) && ProgramOk(cfg, cfg.calls[c], s.callers[c]);
    BeginCallIs(cfg, s, c);
    assert ItemOk(cfg, s, i);
  }

  lemma BeginCallRing(cfg: Config, s: State, c: nat)
    requires RingInv(cfg, s) && CallerEnabled(cfg, s, c) && s.callers[c].pc.Begin?
    ensures Ring(cfg, BeginCall(cfg, s, c))
  {
    hide RegionStart; hide RegionUnitNo; hide FragmentSize; hide Call.UnitCount; hide FragmentCount; hide Carries;
    hide BeginCall; hide Items;
    var s' := BeginCall(cfg, s, c);
    assert CallerOk(cfg, s, c) && ProgramOk(cfg, cfg.calls[c], s.callers[c]);
    BeginCallIs(cfg, s, c);
    forall t: nat | t < |s'.log| ensures TicketOk(cfg, s', t) { BeginCallTicket(cfg, s, c, t); }
    forall b: nat | b < |s'.callers| ensures CallerOk(cfg, s', b) { BeginCallCaller(cfg, s, c, b); }
    forall x: nat | x < |s'.workers| ensures WorkerOk(cfg, s', x) { BeginCallWorker(cfg, s, c, x); }
    forall i: nat | i < QUEUE_SIZE ensures ItemOk(cfg, s', i) { BeginCallItem(cfg, s, c, i); }
  }

  lemma OpenBatchOwner(cfg: Config, s: State, c: nat, t: nat)
    requires RingInv(cfg, s) && CallerEnabled(cfg, s, c) && s.callers[c].pc.CheckingFirst? && s.queue[s.callers[c].first].state.WorkItemFree?
    requires t < |s.log|
    ensures TicketOwnerOk(cfg, OpenBatch(cfg, s, c), t)
  {
    hide RegionStart; hide RegionUnitNo; hide FragmentSize; hide Call.UnitCount; hide FragmentCount; hide Carries;
    hide TicketCountOk;
    hide TicketItemOk; hide WorkerOk; hide ItemOk; hide BatchOk; hide LocksOk; hide Items; hide AtFragment;
    assert CallerOk(cfg, s, c) && ProgramOk(cfg, cfg.calls[c], s.callers[c]);
    assert TicketOk(cfg, s, t);
  }

  lemma OpenBatchTicketItem(cfg: Config, s: State, c: nat, t: nat)
    requires RingInv(cfg, s) && CallerEnabled(cfg, s, c) && s.callers[c].pc.CheckingFirst? && s.queue[s.callers[c].first].state.WorkItemFree?
    requires t < |s.log|
    ensures TicketOwnerOk(cfg, OpenBatch(cfg, s, c), t) && TicketItemOk(cfg, OpenBatch(cfg, s, c), t)
  {
    hide RegionStart; hide RegionUnitNo; hide FragmentSize; hide Call.UnitCount; hide FragmentCount; hide Carries;
    hide TicketCountOk;
    hide ProgramOk; hide CallerOk; hide WorkerOk; hide ItemOk; hide LocksOk; hide LapOk; hide TicketWorkerOk; hide BeingTaken;
    OpenBatchOwner(cfg, s, c, t);
    assert TicketOk(cfg, s, t);
    var x := s.log[t];
    if t + QUEUE_SIZE >= |s.log| {
      SameFieldsCarry(cfg, s.queue[t % QUEUE_SIZE], OpenBatch(cfg, s, c).queue[t % QUEUE_SIZE], x.call, x.k, s.callers[x.call].first);
    }
  }

  lemma OpenBatchTicketIf(cfg: Config, s: State, c: nat, t: nat)
    requires RingInv(cfg, s) && CallerEnabled(cfg, s, c) && s.callers[c].pc.CheckingFirst? && s.queue[s.callers[c].first].state.WorkItemFree?
    requires t < |s.log|
    requires t + QUEUE_SIZE == |s.log| ==> s.log[t].phase.Retired?
    ensures TicketOk(cfg, OpenBatch(cfg, s, c), t)
  {
    hide RegionStart; hide RegionUnitNo; hide FragmentSize; hide Call.UnitCount; hide FragmentCount; hide Carries;
    hide TicketItemOk;
    assert CallerOk(cfg, s, c) && ProgramOk(cfg, cfg.calls[c], s.callers[c]);
    assert TicketOk(cfg, s, t);
    OpenBatchTicketItem(cfg, s, c, t);
  }

  lemma FoundFirstFree(cfg: Config, s: State, c: nat, t: nat)
    requires RingInv(cfg, s) && CallerEnabled(cfg, s, c) && s.callers[c].pc.CheckingFirst? && s.queue[s.callers[c].first].state.WorkItemFree?
    requires t + QUEUE_SIZE == |s.log|
    ensures s.log[t].phase.Retired?
  {
    NextFirst(cfg, s, c);
    hide *;
    OneLapBack(t);
    FreeMeansRetired(cfg, s, t);
  }

  lemma NextFirst(cfg: Config, s: State, c: nat)
    requires RingInv(cfg, s) && CallerEnabled(cfg, s, c) && s.callers[c].pc.CheckingFirst?
    ensures s.callers[c].first == |s.log| % QUEUE_SIZE
  {
    hide TicketOk; hide WorkerOk; hide ItemOk; hide BatchOk; hide LocksOk; hide AtFragment;
    hide IsPooled; hide Items;
    assert CallerOk(cfg, s, c) && ProgramOk(cfg, cfg.calls[c], s.callers[c]);
  }

  lemma OpenBatchTicket(cfg: Config, s: State, c: nat, t: nat)
    requires RingInv(cfg, s) && CallerEnabled(cfg, s, c) && s.callers[c].pc.CheckingFirst? && s.queue[s.callers[c].first].state.WorkItemFree?
    requires t < |s.log|
    ensures TicketOk(cfg, OpenBatch(cfg, s, c), t)
  {
    hide *;
    if t + QUEUE_SIZE == |s.log| { FoundFirstFree(cfg, s, c, t); }
    OpenBatchTicketIf(cfg, s, c, t);
  }

  lemma OpenOwnBatch(cfg: Config, s: State, c: nat)
    requires RingInv(cfg, s) && CallerEnabled(cfg, s, c) && s.callers[c].pc.CheckingFirst? && s.queue[s.callers[c].first].state.WorkItemFree?
    ensures Live(cfg.calls[c], StageOf(OpenBatch(cfg, s, c).callers[c].pc)) ==> BatchOk(cfg, OpenBatch(cfg, s, c), c)
  {
    hide RegionStart; hide RegionUnitNo; hide FragmentSize; hide Call.UnitCount; hide FragmentCount; hide Carries;
    hide TicketOk; hide WorkerOk; hide LapOk; hide LocksOk;
    assert CallerOk(cfg, s, c) && ProgramOk(cfg, cfg.calls[c], s.callers[c]);
    assert ItemOk(cfg, s, s.callers[c].first);
    var before := s.queue[s.callers[c].first].batch;
    if before < |s.callers| && before != c && Live(cfg.calls[before], StageOf(s.callers[before].pc)) { FreeFirstIsUnused(cfg, s, c, before); }
  }

  lemma OpenBatchBatch(cfg: Config, s: State, c: nat, b: nat)
    requires RingInv(cfg, s) && CallerEnabled(cfg, s, c) && s.callers[c].pc.CheckingFirst? && s.queue[s.callers[c].first].state.WorkItemFree?
    requires b < |s.callers|
    ensures Live(cfg.calls[b], StageOf(OpenBatch(cfg, s, c).callers[b].pc)) ==> BatchOk(cfg, OpenBatch(cfg, s, c), b)
  {
    hide RegionStart; hide RegionUnitNo; hide FragmentSize; hide Call.UnitCount; hide FragmentCount; hide Carries;
    hide TicketOk; hide WorkerOk; hide LapOk; hide ItemOk; hide LocksOk;
    if b == c {
      OpenOwnBatch(cfg, s, c);
    } else {
      hide Items; hide ProgramOk;
      assert CallerOk(cfg, s, b);
      if Live(cfg.calls[b], StageOf(s.callers[b].pc)) { FreeFirstIsUnused(cfg, s, c, b); }
    }
  }

  lemma OpenBatchCaller(cfg: Config, s: State, c: nat, b: nat)
    requires RingInv(cfg, s) && CallerEnabled(cfg, s, c) && s.callers[c].pc.CheckingFirst? && s.queue[s.callers[c].first].state.WorkItemFree?
    requires b < |s.callers|
    ensures CallerOk(cfg, OpenBatch(cfg, s, c), b)
  {
    hide IsPooled; hide ProgramOk; hide ItemOk; hide WorkerOk; hide TicketOk;
    hide RegionStart; hide RegionUnitNo; hide FragmentSize; hide Call.UnitCount; hide FragmentCount; hide Carries;
    hide BatchOk;
    assert CallerOk(cfg, s, c) && ProgramOk(cfg, cfg.calls[c], s.callers[c]);
    assert CallerOk(cfg, s, b);
    var s' := OpenBatch(cfg, s, c);
    forall j | 0 <= j < s'.callers[b].posted ensures Mine(s', b, s'.callers[b].firstTicket, j) {
      assert Mine(s, b, s.callers[b].firstTicket, j);
    }
    OpenBatchBatch(cfg, s, c, b);
    if StageOf(s.callers[b].pc).Publishing? { assert false; }
  }

  lemma OpenBatchWorker(cfg: Config, s: State, c: nat, x: nat)
    requires RingInv(cfg, s) && CallerEnabled(cfg, s, c) && s.callers[c].pc.CheckingFirst? && s.queue[s.callers[c].first].state.WorkItemFree?
    requires x < |s.workers|
    ensures WorkerOk(cfg, OpenBatch(cfg, s, c), x)
  {
    hide RegionStart; hide RegionUnitNo; hide FragmentSize; hide Call.UnitCount; hide FragmentCount; hide Carries;
    assert CallerOk(cfg, s, c) && ProgramOk(cfg, cfg.calls[c], s.callers[c]);
    assert WorkerOk(cfg, s, x);
  }

  lemma OpenBatchItem(cfg: Config, s: State, c: nat, i: nat)
    requires RingInv(cfg, s) && CallerEnabled(cfg, s, c) && s.callers[c].pc.CheckingFirst? && s.queue[s.callers[c].first].state.WorkItemFree?
    requires i < QUEUE_SIZE
    ensures ItemOk(cfg, OpenBatch(cfg, s, c), i)
  {
    hide RegionStart; hide RegionUnitNo; hide FragmentSize; hide Call.UnitCount; hide FragmentCount; hide Carries;
    assert CallerOk(cfg, s, c) && ProgramOk(cfg, cfg.calls[c], s.callers[c]);
    assert ItemOk(cfg, s, i);
  }

  lemma OpenBatchRing(cfg: Config, s: State, c: nat)
    requires RingInv(cfg, s) && CallerEnabled(cfg, s, c) && s.callers[c].pc.CheckingFirst? && s.queue[s.callers[c].first].state.WorkItemFree?
    ensures Ring(cfg, OpenBatch(cfg, s, c))
  {
    hide RegionStart; hide RegionUnitNo; hide FragmentSize; hide Call.UnitCount; hide FragmentCount; hide Carries;
    var s' := OpenBatch(cfg, s, c);
    assert CallerOk(cfg, s, c) && ProgramOk(cfg, cfg.calls[c], s.callers[c]);
    forall t: nat | t < |s'.log| ensures TicketOk(cfg, s', t) { OpenBatchTicket(cfg, s, c, t); }
    forall b: nat | b < |s'.callers| ensures CallerOk(cfg, s', b) { OpenBatchCaller(cfg, s, c, b); }
    forall x: nat | x < |s'.workers| ensures WorkerOk(cfg, s', x) { OpenBatchWorker(cfg, s, c, x); }
    forall i: nat | i < QUEUE_SIZE ensures ItemOk(cfg, s', i) { OpenBatchItem(cfg, s, c, i); }
  }

  lemma ReserveItemTicket(cfg: Config, s: State, c: nat, t: nat)
    requires RingInv(cfg, s) && CallerEnabled(cfg, s, c) && s.callers[c].pc.Taking? && s.callers[c].left > 0
    requires t < |s.log|
    ensures TicketOk(cfg, ReserveItem(cfg, s, c), t)
  {
    hide RegionStart; hide RegionUnitNo; hide FragmentSize; hide Call.UnitCount; hide FragmentCount; hide Carries;
    assert CallerOk(cfg, s, c) && ProgramOk(cfg, cfg.calls[c], s.callers[c]);
    assert TicketOk(cfg, s, t);
  }

  lemma ReserveItemCaller(cfg: Config, s: State, c: nat, b: nat)
    requires RingInv(cfg, s) && CallerEnabled(cfg, s, c) && s.callers[c].pc.Taking? && s.callers[c].left > 0
    requires b < |s.callers|
    ensures CallerOk(cfg, ReserveItem(cfg, s, c), b)
  {
    hide WorkerOk; hide TicketOk;
    hide RegionStart; hide RegionUnitNo; hide FragmentSize; hide Call.UnitCount; hide FragmentCount; hide Carries;
    assert CallerOk(cfg, s, c) && ProgramOk(cfg, cfg.calls[c], s.callers[c]);
    assert CallerOk(cfg, s, b);
    var s' := ReserveItem(cfg, s, c);
    forall j | 0 <= j < s'.callers[b].posted ensures Mine(s', b, s'.callers[b].firstTicket, j) {
      assert Mine(s, b, s.callers[b].firstTicket, j);
    }
  }

  lemma ReserveItemRing(cfg: Config, s: State, c: nat)
    requires RingInv(cfg, s) && CallerEnabled(cfg, s, c) && s.callers[c].pc.Taking? && s.callers[c].left > 0
    ensures Ring(cfg, ReserveItem(cfg, s, c))
  {
    hide ProgramOk; hide TicketOk;
    hide RegionStart; hide RegionUnitNo; hide FragmentSize; hide Call.UnitCount; hide FragmentCount; hide Carries;
    var s' := ReserveItem(cfg, s, c);
    assert CallerOk(cfg, s, c) && ProgramOk(cfg, cfg.calls[c], s.callers[c]);
    forall t: nat | t < |s'.log| ensures TicketOk(cfg, s', t) { ReserveItemTicket(cfg, s, c, t); }
    forall b: nat | b < |s'.callers| ensures CallerOk(cfg, s', b) { ReserveItemCaller(cfg, s, c, b); }
    forall x: nat | x < |s'.workers| ensures WorkerOk(cfg, s', x) { assert WorkerOk(cfg, s, x); }
    forall i: nat | i < QUEUE_SIZE ensures ItemOk(cfg, s', i) { assert ItemOk(cfg, s, i); }
  }

  lemma LeaveLoopTicket(cfg: Config, s: State, c: nat, t: nat)
    requires RingInv(cfg, s) && CallerEnabled(cfg, s, c) && ((s.callers[c].pc.Taking? && s.callers[c].left == 0) || (s.callers[c].pc.SignallingReady? && cfg.calls[c].IsDerivation()))
    requires t < |s.log|
    ensures TicketOk(cfg, SetCallerPc(cfg, s, c, ReleasingEnqueue), t)
  {
    hide RegionStart; hide RegionUnitNo; hide FragmentSize; hide Call.UnitCount; hide FragmentCount; hide Carries;
    assert CallerOk(cfg, s, c) && ProgramOk(cfg, cfg.calls[c], s.callers[c]);
    assert TicketOk(cfg, s, t);
  }

  lemma LeaveLoopCaller(cfg: Config, s: State, c: nat, b: nat)
    requires RingInv(cfg, s) && CallerEnabled(cfg, s, c) && ((s.callers[c].pc.Taking? && s.callers[c].left == 0) || (s.callers[c].pc.SignallingReady? && cfg.calls[c].IsDerivation()))
    requires b < |s.callers|
    ensures CallerOk(cfg, SetCallerPc(cfg, s, c, ReleasingEnqueue), b)
  {
    hide RegionStart; hide RegionUnitNo; hide FragmentSize; hide Call.UnitCount; hide FragmentCount; hide Carries;
    assert CallerOk(cfg, s, c) && ProgramOk(cfg, cfg.calls[c], s.callers[c]);
    assert CallerOk(cfg, s, b);
    var s' := SetCallerPc(cfg, s, c, ReleasingEnqueue);
    forall j | 0 <= j < s'.callers[b].posted ensures Mine(s', b, s'.callers[b].firstTicket, j) {
      assert Mine(s, b, s.callers[b].firstTicket, j);
    }
  }

  lemma LeaveLoopRing(cfg: Config, s: State, c: nat)
    requires RingInv(cfg, s) && CallerEnabled(cfg, s, c) && ((s.callers[c].pc.Taking? && s.callers[c].left == 0) || (s.callers[c].pc.SignallingReady? && cfg.calls[c].IsDerivation()))
    ensures Ring(cfg, SetCallerPc(cfg, s, c, ReleasingEnqueue))
  {
    hide RegionStart; hide RegionUnitNo; hide FragmentSize; hide Call.UnitCount; hide FragmentCount; hide Carries;
    var s' := SetCallerPc(cfg, s, c, ReleasingEnqueue);
    assert CallerOk(cfg, s, c) && ProgramOk(cfg, cfg.calls[c], s.callers[c]);
    forall t: nat | t < |s'.log| ensures TicketOk(cfg, s', t) { LeaveLoopTicket(cfg, s, c, t); }
    forall b: nat | b < |s'.callers| ensures CallerOk(cfg, s', b) { LeaveLoopCaller(cfg, s, c, b); }
    forall x: nat | x < |s'.workers| ensures WorkerOk(cfg, s', x) { assert WorkerOk(cfg, s, x); }
    forall i: nat | i < QUEUE_SIZE ensures ItemOk(cfg, s', i) { assert ItemOk(cfg, s, i); }
  }

  lemma FindFreeTicketIf(cfg: Config, s: State, c: nat, t: nat)
    requires RingInv(cfg, s) && CallerEnabled(cfg, s, c) && s.callers[c].pc.Checking? && s.queue[s.callers[c].item].state.WorkItemFree?
    requires t < |s.log|
    requires t + QUEUE_SIZE == |s.log| ==> s.log[t].phase.Retired?
    ensures TicketOk(cfg, SetCallerPc(cfg, s, c, Filling), t)
  {
    hide RegionStart; hide RegionUnitNo; hide FragmentSize; hide Call.UnitCount; hide FragmentCount; hide Carries;
    assert CallerOk(cfg, s, c) && ProgramOk(cfg, cfg.calls[c], s.callers[c]);
    assert TicketOk(cfg, s, t);
  }

  /** The item that a call finds free was last used by a ticket that is retired. */
  lemma FoundFree(cfg: Config, s: State, c: nat, t: nat)
    requires RingInv(cfg, s) && CallerEnabled(cfg, s, c) && s.callers[c].pc.Checking? && s.queue[s.callers[c].item].state.WorkItemFree?
    requires t + QUEUE_SIZE == |s.log|
    ensures s.log[t].phase.Retired?
  {
    NextItem(cfg, s, c);
    hide *;
    OneLapBack(t);
    FreeMeansRetired(cfg, s, t);
  }

  lemma NextItem(cfg: Config, s: State, c: nat)
    requires RingInv(cfg, s) && CallerEnabled(cfg, s, c) && s.callers[c].pc.Checking?
    ensures s.callers[c].item == |s.log| % QUEUE_SIZE
  {
    hide ProgramOk; hide TicketOk; hide WorkerOk; hide ItemOk; hide BatchOk; hide LocksOk;
    assert CallerOk(cfg, s, c);
  }

  lemma OneLapBack(t: nat)
    ensures (t + QUEUE_SIZE) % QUEUE_SIZE == t % QUEUE_SIZE
  {
  }

  lemma FindFreeTicket(cfg: Config, s: State, c: nat, t: nat)
    requires RingInv(cfg, s) && CallerEnabled(cfg, s, c) && s.callers[c].pc.Checking? && s.queue[s.callers[c].item].state.WorkItemFree?
    requires t < |s.log|
    ensures TicketOk(cfg, SetCallerPc(cfg, s, c, Filling), t)
  {
    hide *;
    if t + QUEUE_SIZE == |s.log| { FoundFree(cfg, s, c, t); }
    FindFreeTicketIf(cfg, s, c, t);
  }

  lemma FindFreeCaller(cfg: Config, s: State, c: nat, b: nat)
    requires RingInv(cfg, s) && CallerEnabled(cfg, s, c) && s.callers[c].pc.Checking? && s.queue[s.callers[c].item].state.WorkItemFree?
    requires b < |s.callers|
    ensures CallerOk(cfg, SetCallerPc(cfg, s, c, Filling), b)
  {
    hide RegionStart; hide RegionUnitNo; hide FragmentSize; hide Call.UnitCount; hide FragmentCount; hide Carries;
    assert CallerOk(cfg, s, c) && ProgramOk(cfg, cfg.calls[c], s.callers[c]);
    assert CallerOk(cfg, s, b);
    var s' := SetCallerPc(cfg, s, c, Filling);
    forall j | 0 <= j < s'.callers[b].posted ensures Mine(s', b, s'.callers[b].firstTicket, j) {
      assert Mine(s, b, s.callers[b].firstTicket, j);
    }
  }

  lemma FindFreeWorker(cfg: Config, s: State, c: nat, x: nat)
    requires RingInv(cfg, s) && CallerEnabled(cfg, s, c) && s.callers[c].pc.Checking? && s.queue[s.callers[c].item].state.WorkItemFree?
    requires x < |s.workers|
    ensures WorkerOk(cfg, SetCallerPc(cfg, s, c, Filling), x)
  {
    hide RegionStart; hide RegionUnitNo; hide FragmentSize; hide Call.UnitCount; hide FragmentCount; hide Carries;
    assert CallerOk(cfg, s, c) && ProgramOk(cfg, cfg.calls[c], s.callers[c]);
    assert WorkerOk(cfg, s, x);
  }

  lemma FindFreeItem(cfg: Config, s: State, c: nat, i: nat)
    requires RingInv(cfg, s) && CallerEnabled(cfg, s, c) && s.callers[c].pc.Checking? && s.queue[s.callers[c].item].state.WorkItemFree?
    requires i < QUEUE_SIZE
    ensures ItemOk(cfg, SetCallerPc(cfg, s, c, Filling), i)
  {
    hide RegionStart; hide RegionUnitNo; hide FragmentSize; hide Call.UnitCount; hide FragmentCount; hide Carries;
    assert CallerOk(cfg, s, c) && ProgramOk(cfg, cfg.calls[c], s.callers[c]);
    assert ItemOk(cfg, s, i);
  }

  lemma FindFreeRing(cfg: Config, s: State, c: nat)
    requires RingInv(cfg, s) && CallerEnabled(cfg, s, c) && s.callers[c].pc.Checking? && s.queue[s.callers[c].item].state.WorkItemFree?
    ensures Ring(cfg, SetCallerPc(cfg, s, c, Filling))
  {
    hide RegionStart; hide RegionUnitNo; hide FragmentSize; hide Call.UnitCount; hide FragmentCount; hide Carries;
    var s' := SetCallerPc(cfg, s, c, Filling);
    assert CallerOk(cfg, s, c) && ProgramOk(cfg, cfg.calls[c], s.callers[c]);
    forall t: nat | t < |s'.log| ensures TicketOk(cfg, s', t) { FindFreeTicket(cfg, s, c, t); }
    forall b: nat | b < |s'.callers| ensures CallerOk(cfg, s', b) { FindFreeCaller(cfg, s, c, b); }
    forall x: nat | x < |s'.workers| ensures WorkerOk(cfg, s', x) { FindFreeWorker(cfg, s, c, x); }
    forall i: nat | i < QUEUE_SIZE ensures ItemOk(cfg, s', i) { FindFreeItem(cfg, s, c, i); }
  }

  lemma FillItemTicketItem(cfg: Config, s: State, c: nat, t: nat)
    requires RingInv(cfg, s) && CallerEnabled(cfg, s, c) && s.callers[c].pc.Filling? && !cfg.calls[c].IsDerivation()
    requires t < |s.log|
    ensures TicketOwnerOk(cfg, FillItem(cfg, s, c), t) && TicketItemOk(cfg, FillItem(cfg, s, c), t)
  {
    hide RegionStart; hide RegionUnitNo; hide FragmentSize; hide Call.UnitCount; hide FragmentCount;
    hide TicketCountOk;
    assert CallerOk(cfg, s, c) && ProgramOk(cfg, cfg.calls[c], s.callers[c]);
    assert TicketOk(cfg, s, t);
    if t + QUEUE_SIZE > |s.log| { ApartFromNext(t, |s.log|); }
  }

  lemma FillItemTicket(cfg: Config, s: State, c: nat, t: nat)
    requires RingInv(cfg, s) && CallerEnabled(cfg, s, c) && s.callers[c].pc.Filling? && !cfg.calls[c].IsDerivation()
    requires t < |s.log|
    ensures TicketOk(cfg, FillItem(cfg, s, c), t)
  {
    hide RegionStart; hide RegionUnitNo; hide FragmentSize; hide Call.UnitCount; hide FragmentCount;
    hide TicketItemOk;
    assert CallerOk(cfg, s, c) && ProgramOk(cfg, cfg.calls[c], s.callers[c]);
    assert TicketOk(cfg, s, t);
    FillItemTicketItem(cfg, s, c, t);
  }

  lemma FillItemOwn(cfg: Config, s: State, c: nat)
    requires RingInv(cfg, s) && CallerEnabled(cfg, s, c) && s.callers[c].pc.Filling? && !cfg.calls[c].IsDerivation()
    ensures CallerOk(cfg, FillItem(cfg, s, c), c)
  {
    hide TicketOk; hide WorkerOk; hide ItemOk; hide LocksOk;
    hide RegionStart; hide RegionUnitNo; hide FragmentSize; hide Call.UnitCount; hide FragmentCount;
    assert CallerOk(cfg, s, c) && ProgramOk(cfg, cfg.calls[c], s.callers[c]);
    var s' := FillItem(cfg, s, c);
    forall j | 0 <= j < s'.callers[c].posted ensures Mine(s', c, s'.callers[c].firstTicket, j) {
      assert Mine(s, c, s.callers[c].firstTicket, j);
    }
  }

  lemma FillItemCaller(cfg: Config, s: State, c: nat, b: nat)
    requires RingInv(cfg, s) && CallerEnabled(cfg, s, c) && s.callers[c].pc.Filling? && !cfg.calls[c].IsDerivation()
    requires b < |s.callers|
    ensures CallerOk(cfg, FillItem(cfg, s, c), b)
  {
    hide TicketOk; hide WorkerOk; hide ItemOk; hide LocksOk;
    hide RegionStart; hide RegionUnitNo; hide FragmentSize; hide Call.UnitCount; hide FragmentCount;
    if b == c {
      FillItemOwn(cfg, s, c);
      return;
    }
    hide ProgramOk; hide Carries;
    assert CallerOk(cfg, s, c) && CallerOk(cfg, s, b);
    var s' := FillItem(cfg, s, c);
    forall j | 0 <= j < s'.callers[b].posted ensures Mine(s', b, s'.callers[b].firstTicket, j) {
      assert Mine(s, b, s.callers[b].firstTicket, j);
    }
  }

  lemma FillItemWorker(cfg: Config, s: State, c: nat, x: nat)
    requires RingInv(cfg, s) && CallerEnabled(cfg, s, c) && s.callers[c].pc.Filling? && !cfg.calls[c].IsDerivation()
    requires x < |s.workers|
    ensures WorkerOk(cfg, FillItem(cfg, s, c), x)
  {
    hide RegionStart; hide RegionUnitNo; hide FragmentSize; hide Call.UnitCount; hide FragmentCount;
    assert CallerOk(cfg, s, c) && ProgramOk(cfg, cfg.calls[c], s.callers[c]);
    assert WorkerOk(cfg, s, x);
  }

  lemma FillItemItem(cfg: Config, s: State, c: nat, i: nat)
    requires RingInv(cfg, s) && CallerEnabled(cfg, s, c) && s.callers[c].pc.Filling? && !cfg.calls[c].IsDerivation()
    requires i < QUEUE_SIZE
    ensures ItemOk(cfg, FillItem(cfg, s, c), i)
  {
    hide RegionStart; hide RegionUnitNo; hide FragmentSize; hide Call.UnitCount; hide FragmentCount;
    assert CallerOk(cfg, s, c) && ProgramOk(cfg, cfg.calls[c], s.callers[c]);
    assert ItemOk(cfg, s, i);
  }

  lemma FillItemRing(cfg: Config, s: State, c: nat)
    requires RingInv(cfg, s) && CallerEnabled(cfg, s, c) && s.callers[c].pc.Filling? && !cfg.calls[c].IsDerivation()
    ensures Ring(cfg, FillItem(cfg, s, c))
  {
    hide RegionStart; hide RegionUnitNo; hide FragmentSize; hide Call.UnitCount; hide FragmentCount;
    var s' := FillItem(cfg, s, c);
    assert CallerOk(cfg, s, c) && ProgramOk(cfg, cfg.calls[c], s.callers[c]);
    forall t: nat | t < |s'.log| ensures TicketOk(cfg, s', t) { FillItemTicket(cfg, s, c, t); }
    forall b: nat | b < |s'.callers| ensures CallerOk(cfg, s', b) { FillItemCaller(cfg, s, c, b); }
    forall x: nat | x < |s'.workers| ensures WorkerOk(cfg, s', x) { FillItemWorker(cfg, s, c, x); }
    forall i: nat | i < QUEUE_SIZE ensures ItemOk(cfg, s', i) { FillItemItem(cfg, s, c, i); }
  }

  lemma FillKeyItemTicketItem(cfg: Config, s: State, c: nat, t: nat)
    requires RingInv(cfg, s) && CallerEnabled(cfg, s, c) && s.callers[c].pc.Filling? && cfg.calls[c].IsDerivation()
    requires t < |s.log|
    ensures TicketOwnerOk(cfg, FillKeyItem(cfg, s, c), t) && TicketItemOk(cfg, FillKeyItem(cfg, s, c), t)
  {
    hide RegionStart; hide RegionUnitNo; hide FragmentSize; hide Call.UnitCount; hide FragmentCount;
    hide TicketCountOk;
    assert CallerOk(cfg, s, c) && ProgramOk(cfg, cfg.calls[c], s.callers[c]);
    assert TicketOk(cfg, s, t);
    if t + QUEUE_SIZE > |s.log| { ApartFromNext(t, |s.log|); }
  }

  lemma FillKeyItemTicket(cfg: Config, s: State, c: nat, t: nat)
    requires RingInv(cfg, s) && CallerEnabled(cfg, s, c) && s.callers[c].pc.Filling? && cfg.calls[c].IsDerivation()
    requires t < |s.log|
    ensures TicketOk(cfg, FillKeyItem(cfg, s, c), t)
  {
    hide RegionStart; hide RegionUnitNo; hide FragmentSize; hide Call.UnitCount; hide FragmentCount;
    hide TicketItemOk;
    assert CallerOk(cfg, s, c) && ProgramOk(cfg, cfg.calls[c], s.callers[c]);
    if cfg.calls[c].IsDerivation() { KeyRegion(cfg, cfg.calls[c]); }
    assert TicketOk(cfg, s, t);
    FillKeyItemTicketItem(cfg, s, c, t);
  }

  lemma FillKeyItemCaller(cfg: Config, s: State, c: nat, b: nat)
    requires RingInv(cfg, s) && CallerEnabled(cfg, s, c) && s.callers[c].pc.Filling? && cfg.calls[c].IsDerivation()
    requires b < |s.callers|
    ensures CallerOk(cfg, FillKeyItem(cfg, s, c), b)
  {
    hide RegionStart; hide RegionUnitNo; hide FragmentSize; hide Call.UnitCount; hide FragmentCount;
    assert CallerOk(cfg, s, c) && ProgramOk(cfg, cfg.calls[c], s.callers[c]);
    if cfg.calls[c].IsDerivation() { KeyRegion(cfg, cfg.calls[c]); }
    assert CallerOk(cfg, s, b);
    var s' := FillKeyItem(cfg, s, c);
    forall j | 0 <= j < s'.callers[b].posted ensures Mine(s', b, s'.callers[b].firstTicket, j) {
      assert Mine(s, b, s.callers[b].firstTicket, j);
    }
  }

  lemma FillKeyItemWorker(cfg: Config, s: State, c: nat, x: nat)
    requires RingInv(cfg, s) && CallerEnabled(cfg, s, c) && s.callers[c].pc.Filling? && cfg.calls[c].IsDerivation()
    requires x < |s.workers|
    ensures WorkerOk(cfg, FillKeyItem(cfg, s, c), x)
  {
    hide RegionStart; hide RegionUnitNo; hide FragmentSize; hide Call.UnitCount; hide FragmentCount;
    assert CallerOk(cfg, s, c) && ProgramOk(cfg, cfg.calls[c], s.callers[c]);
    if cfg.calls[c].IsDerivation() { KeyRegion(cfg, cfg.calls[c]); }
    assert WorkerOk(cfg, s, x);
  }

  lemma FillKeyItemItem(cfg: Config, s: State, c: nat, i: nat)
    requires RingInv(cfg, s) && CallerEnabled(cfg, s, c) && s.callers[c].pc.Filling? && cfg.calls[c].IsDerivation()
    requires i < QUEUE_SIZE
    ensures ItemOk(cfg, FillKeyItem(cfg, s, c), i)
  {
    hide RegionStart; hide RegionUnitNo; hide FragmentSize; hide Call.UnitCount; hide FragmentCount;
    assert CallerOk(cfg, s, c) && ProgramOk(cfg, cfg.calls[c], s.callers[c]);
    if cfg.calls[c].IsDerivation() { KeyRegion(cfg, cfg.calls[c]); }
    assert ItemOk(cfg, s, i);
  }

  lemma FillKeyItemRing(cfg: Config, s: State, c: nat)
    requires RingInv(cfg, s) && CallerEnabled(cfg, s, c) && s.callers[c].pc.Filling? && cfg.calls[c].IsDerivation()
    ensures Ring(cfg, FillKeyItem(cfg, s, c))
  {
    hide RegionStart; hide RegionUnitNo; hide FragmentSize; hide Call.UnitCount; hide FragmentCount;
    var s' := FillKeyItem(cfg, s, c);
    assert CallerOk(cfg, s, c) && ProgramOk(cfg, cfg.calls[c], s.callers[c]);
    if cfg.calls[c].IsDerivation() { KeyRegion(cfg, cfg.calls[c]); }
    forall t: nat | t < |s'.log| ensures TicketOk(cfg, s', t) { FillKeyItemTicket(cfg, s, c, t); }
    forall b: nat | b < |s'.callers| ensures CallerOk(cfg, s', b) { FillKeyItemCaller(cfg, s, c, b); }
    forall x: nat | x < |s'.workers| ensures WorkerOk(cfg, s', x) { FillKeyItemWorker(cfg, s, c, x); }
    forall i: nat | i < QUEUE_SIZE ensures ItemOk(cfg, s', i) { FillKeyItemItem(cfg, s, c, i); }
  }

  lemma PostItemNewItem(cfg: Config, s: State, c: nat)
    requires RingInv(cfg, s) && CallerEnabled(cfg, s, c) && s.callers[c].pc.Posting?
    ensures TicketOwnerOk(cfg, PostItem(cfg, s, c), |s.log|) && TicketItemOk(cfg, PostItem(cfg, s, c), |s.log|)
  {
    hide RegionStart; hide RegionUnitNo; hide FragmentSize; hide Call.UnitCount; hide FragmentCount; hide Carries;
    hide TicketOk; hide WorkerOk; hide ItemOk; hide BatchOk; hide LocksOk;
    assert CallerOk(cfg, s, c) && ProgramOk(cfg, cfg.calls[c], s.callers[c]);
    var x := s.queue[s.callers[c].item];
    SameFieldsCarry(cfg, x, x.(state := WorkItemReady), c, s.callers[c].posted, s.callers[c].first);
  }

  lemma PostItemTicketItem(cfg: Config, s: State, c: nat, t: nat)
    requires RingInv(cfg, s) && CallerEnabled(cfg, s, c) && s.callers[c].pc.Posting?
    requires t <= |s.log|
    ensures TicketOwnerOk(cfg, PostItem(cfg, s, c), t) && TicketItemOk(cfg, PostItem(cfg, s, c), t)
  {
    hide RegionStart; hide RegionUnitNo; hide FragmentSize; hide Call.UnitCount; hide FragmentCount; hide Carries;
    hide TicketCountOk; hide WorkerOk; hide ItemOk; hide BatchOk; hide LocksOk;
    if t < |s.log| {
      assert CallerOk(cfg, s, c) && ProgramOk(cfg, cfg.calls[c], s.callers[c]);
      assert TicketOk(cfg, s, t);
      if t + QUEUE_SIZE > |s.log| { ApartFromNext(t, |s.log|); }
    } else {
      PostItemNewItem(cfg, s, c);
    }
  }

  lemma PostItemOldTicket(cfg: Config, s: State, c: nat, t: nat)
    requires RingInv(cfg, s) && CallerEnabled(cfg, s, c) && s.callers[c].pc.Posting?
    requires t < |s.log| && TicketOk(cfg, s, t)
    requires t + QUEUE_SIZE == |s.log| ==> s.log[t].phase.Retired?
    ensures TicketOk(cfg, PostItem(cfg, s, c), t)
  {
    hide RegionStart; hide RegionUnitNo; hide FragmentSize; hide Call.UnitCount; hide FragmentCount; hide Carries;
    hide TicketItemOk;
    assert CallerOk(cfg, s, c) && ProgramOk(cfg, cfg.calls[c], s.callers[c]);
    PostItemTicketItem(cfg, s, c, t);
  }

  lemma PostItemNewTicket(cfg: Config, s: State, c: nat)
    requires RingInv(cfg, s) && CallerEnabled(cfg, s, c) && s.callers[c].pc.Posting?
    ensures TicketOk(cfg, PostItem(cfg, s, c), |s.log|)
  {
    hide RegionStart; hide RegionUnitNo; hide FragmentSize; hide Call.UnitCount; hide FragmentCount; hide Carries;
    hide TicketItemOk;
    assert CallerOk(cfg, s, c) && ProgramOk(cfg, cfg.calls[c], s.callers[c]);
    PostItemTicketItem(cfg, s, c, |s.log|);
  }

  lemma PostItemTicket(cfg: Config, s: State, c: nat, t: nat)
    requires RingInv(cfg, s) && CallerEnabled(cfg, s, c) && s.callers[c].pc.Posting?
    requires t <= |s.log|
    ensures TicketOk(cfg, PostItem(cfg, s, c), t)
  {
    hide RegionStart; hide RegionUnitNo; hide FragmentSize; hide Call.UnitCount; hide FragmentCount; hide Carries; hide PostItem;
    hide TicketItemOk; hide TicketWorkerOk; hide TicketCountOk; hide BatchOk; hide WorkerOk; hide ItemOk;
    if t == |s.log| { PostItemNewTicket(cfg, s, c); } else {
      assert TicketOk(cfg, s, t) && CallerOk(cfg, s, c);
      PostItemOldTicket(cfg, s, c, t);
    }
  }

  lemma PostItemCaller(cfg: Config, s: State, c: nat, b: nat)
    requires RingInv(cfg, s) && CallerEnabled(cfg, s, c) && s.callers[c].pc.Posting?
    requires b < |s.callers|
    ensures CallerOk(cfg, PostItem(cfg, s, c), b)
  {
    hide IsPooled; hide ProgramOk; hide TicketWorkerOk; hide LocksOk;
    hide RegionStart; hide RegionUnitNo; hide FragmentSize; hide Call.UnitCount; hide FragmentCount; hide Carries;
    assert CallerOk(cfg, s, c) && ProgramOk(cfg, cfg.calls[c], s.callers[c]);
    assert CallerOk(cfg, s, b);
    var s' := PostItem(cfg, s, c);
    forall j | 0 <= j < s'.callers[b].posted ensures Mine(s', b, s'.callers[b].firstTicket, j) {
      if j < s.callers[b].posted { assert Mine(s, b, s.callers[b].firstTicket, j); }
    }
    if StageOf(s.callers[b].pc).Publishing? {
      SameFieldsCarry(cfg, s.queue[s.callers[b].item], s'.queue[s.callers[b].item], b, s.callers[b].posted, s.callers[b].first);
    }
  }

  lemma PostItemWorker(cfg: Config, s: State, c: nat, x: nat)
    requires RingInv(cfg, s) && CallerEnabled(cfg, s, c) && s.callers[c].pc.Posting?
    requires x < |s.workers|
    ensures WorkerOk(cfg, PostItem(cfg, s, c), x)
  {
    hide RegionStart; hide RegionUnitNo; hide FragmentSize; hide Call.UnitCount; hide FragmentCount; hide Carries;
    assert CallerOk(cfg, s, c) && ProgramOk(cfg, cfg.calls[c], s.callers[c]);
    assert WorkerOk(cfg, s, x);
  }

  lemma PostItemItem(cfg: Config, s: State, c: nat, i: nat)
    requires RingInv(cfg, s) && CallerEnabled(cfg, s, c) && s.callers[c].pc.Posting?
    requires i < QUEUE_SIZE
    ensures ItemOk(cfg, PostItem(cfg, s, c), i)
  {
    hide RegionStart; hide RegionUnitNo; hide FragmentSize; hide Call.UnitCount; hide FragmentCount; hide Carries;
    assert CallerOk(cfg, s, c) && ProgramOk(cfg, cfg.calls[c], s.callers[c]);
    assert ItemOk(cfg, s, i);
  }

  lemma PostItemRing(cfg: Config, s: State, c: nat)
    requires RingInv(cfg, s) && CallerEnabled(cfg, s, c) && s.callers[c].pc.Posting?
    ensures Ring(cfg, PostItem(cfg, s, c))
  {
    hide RegionStart; hide RegionUnitNo; hide FragmentSize; hide Call.UnitCount; hide FragmentCount; hide Carries;
    var s' := PostItem(cfg, s, c);
    assert CallerOk(cfg, s, c) && ProgramOk(cfg, cfg.calls[c], s.callers[c]);
    forall t: nat | t < |s'.log| ensures TicketOk(cfg, s', t) { PostItemTicket(cfg, s, c, t); }
    forall b: nat | b < |s'.callers| ensures CallerOk(cfg, s', b) { PostItemCaller(cfg, s, c, b); }
    forall x: nat | x < |s'.workers| ensures WorkerOk(cfg, s', x) { PostItemWorker(cfg, s, c, x); }
    forall i: nat | i < QUEUE_SIZE ensures ItemOk(cfg, s', i) { PostItemItem(cfg, s, c, i); }
  }

  lemma ReleaseEnqueueTicket(cfg: Config, s: State, c: nat, t: nat)
    requires RingInv(cfg, s) && CallerEnabled(cfg, s, c) && s.callers[c].pc.ReleasingEnqueue?
    requires t < |s.log|
    ensures TicketOk(cfg, ReleaseEnqueue(cfg, s, c), t)
  {
    hide RegionStart; hide RegionUnitNo; hide FragmentSize; hide Call.UnitCount; hide FragmentCount; hide Carries;
    assert CallerOk(cfg, s, c) && ProgramOk(cfg, cfg.calls[c], s.callers[c]);
    assert TicketOk(cfg, s, t);
  }

  lemma ReleaseEnqueueBatch(cfg: Config, s: State, c: nat, b: nat)
    requires RingInv(cfg, s) && CallerEnabled(cfg, s, c) && s.callers[c].pc.ReleasingEnqueue?
    requires b < |s.callers|
    ensures Live(cfg.calls[b], StageOf(ReleaseEnqueue(cfg, s, c).callers[b].pc)) ==> BatchOk(cfg, ReleaseEnqueue(cfg, s, c), b)
  {
    hide RegionStart; hide RegionUnitNo; hide FragmentSize; hide Call.UnitCount; hide FragmentCount; hide Carries;
    assert CallerOk(cfg, s, c) && ProgramOk(cfg, cfg.calls[c], s.callers[c]);
    assert CallerOk(cfg, s, b);
  }

  lemma ReleaseEnqueueCaller(cfg: Config, s: State, c: nat, b: nat)
    requires RingInv(cfg, s) && CallerEnabled(cfg, s, c) && s.callers[c].pc.ReleasingEnqueue?
    requires b < |s.callers|
    ensures CallerOk(cfg, ReleaseEnqueue(cfg, s, c), b)
  {
    hide RegionStart; hide RegionUnitNo; hide FragmentSize; hide Call.UnitCount; hide FragmentCount; hide Carries;
    hide BatchOk;
    assert CallerOk(cfg, s, c) && ProgramOk(cfg, cfg.calls[c], s.callers[c]);
    assert CallerOk(cfg, s, b);
    var s' := ReleaseEnqueue(cfg, s, c);
    forall j | 0 <= j < s'.callers[b].posted ensures Mine(s', b, s'.callers[b].firstTicket, j) {
      assert Mine(s, b, s.callers[b].firstTicket, j);
    }
    ReleaseEnqueueBatch(cfg, s, c, b);
  }

  lemma ReleaseEnqueueWorker(cfg: Config, s: State, c: nat, x: nat)
    requires RingInv(cfg, s) && CallerEnabled(cfg, s, c) && s.callers[c].pc.ReleasingEnqueue?
    requires x < |s.workers|
    ensures WorkerOk(cfg, ReleaseEnqueue(cfg, s, c), x)
  {
    hide RegionStart; hide RegionUnitNo; hide FragmentSize; hide Call.UnitCount; hide FragmentCount; hide Carries;
    assert CallerOk(cfg, s, c) && ProgramOk(cfg, cfg.calls[c], s.callers[c]);
    assert WorkerOk(cfg, s, x);
  }

  lemma ReleaseEnqueueItem(cfg: Config, s: State, c: nat, i: nat)
    requires RingInv(cfg, s) && CallerEnabled(cfg, s, c) && s.callers[c].pc.ReleasingEnqueue?
    requires i < QUEUE_SIZE
    ensures ItemOk(cfg, ReleaseEnqueue(cfg, s, c), i)
  {
    hide RegionStart; hide RegionUnitNo; hide FragmentSize; hide Call.UnitCount; hide FragmentCount; hide Carries;
    assert CallerOk(cfg, s, c) && ProgramOk(cfg, cfg.calls[c], s.callers[c]);
    assert ItemOk(cfg, s, i);
  }

  lemma ReleaseEnqueueRing(cfg: Config, s: State, c: nat)
    requires RingInv(cfg, s) && CallerEnabled(cfg, s, c) && s.callers[c].pc.ReleasingEnqueue?
    ensures Ring(cfg, ReleaseEnqueue(cfg, s, c))
  {
    hide RegionStart; hide RegionUnitNo; hide FragmentSize; hide Call.UnitCount; hide FragmentCount; hide Carries;
    var s' := ReleaseEnqueue(cfg, s, c);
    assert CallerOk(cfg, s, c) && ProgramOk(cfg, cfg.calls[c], s.callers[c]);
    forall t: nat | t < |s'.log| ensures TicketOk(cfg, s', t) { ReleaseEnqueueTicket(cfg, s, c, t); }
    forall b: nat | b < |s'.callers| ensures CallerOk(cfg, s', b) { ReleaseEnqueueCaller(cfg, s, c, b); }
    forall x: nat | x < |s'.workers| ensures WorkerOk(cfg, s', x) { ReleaseEnqueueWorker(cfg, s, c, x); }
    forall i: nat | i < QUEUE_SIZE ensures ItemOk(cfg, s', i) { ReleaseEnqueueItem(cfg, s, c, i); }
  }

  lemma ConsumeCompletionTicket(cfg: Config, s: State, c: nat, t: nat)
    requires RingInv(cfg, s) && CallerEnabled(cfg, s, c) && s.callers[c].pc.AwaitingCompletion? && s.queue[s.callers[c].first].itemCompletedEvent
    requires t < |s.log|
    ensures TicketOk(cfg, ConsumeCompletion(cfg, s, c), t)
  {
    hide RegionStart; hide RegionUnitNo; hide FragmentSize; hide Call.UnitCount; hide FragmentCount;
    assert CallerOk(cfg, s, c) && ProgramOk(cfg, cfg.calls[c], s.callers[c]);
    assert TicketOk(cfg, s, t);
  }

  lemma ConsumeCompletionCaller(cfg: Config, s: State, c: nat, b: nat)
    requires RingInv(cfg, s) && CallerEnabled(cfg, s, c) && s.callers[c].pc.AwaitingCompletion? && s.queue[s.callers[c].first].itemCompletedEvent
    requires b < |s.callers|
    ensures CallerOk(cfg, ConsumeCompletion(cfg, s, c), b)
  {
    hide IsPooled; hide Items; hide LocksOk; hide ItemOk; hide WorkerOk; hide TicketOk;
    hide RegionStart; hide RegionUnitNo; hide FragmentSize; hide Call.UnitCount; hide FragmentCount;
    assert CallerOk(cfg, s, c) && ProgramOk(cfg, cfg.calls[c], s.callers[c]);
    assert CallerOk(cfg, s, b);
    var s' := ConsumeCompletion(cfg, s, c);
    forall j | 0 <= j < s'.callers[b].posted ensures Mine(s', b, s'.callers[b].firstTicket, j) {
      assert Mine(s, b, s.callers[b].firstTicket, j);
    }
    if StageOf(s.callers[b].pc).Publishing? {
      SameFieldsCarry(cfg, s.queue[s.callers[b].item], s'.queue[s.callers[b].item], b, s.callers[b].posted, s.callers[b].first);
    }
  }

  lemma ConsumeCompletionWorker(cfg: Config, s: State, c: nat, x: nat)
    requires RingInv(cfg, s) && CallerEnabled(cfg, s, c) && s.callers[c].pc.AwaitingCompletion? && s.queue[s.callers[c].first].itemCompletedEvent
    requires x < |s.workers|
    ensures WorkerOk(cfg, ConsumeCompletion(cfg, s, c), x)
  {
    hide RegionStart; hide RegionUnitNo; hide FragmentSize; hide Call.UnitCount; hide FragmentCount;
    assert CallerOk(cfg, s, c) && ProgramOk(cfg, cfg.calls[c], s.callers[c]);
    assert WorkerOk(cfg, s, x);
  }

  lemma ConsumeCompletionItem(cfg: Config, s: State, c: nat, i: nat)
    requires RingInv(cfg, s) && CallerEnabled(cfg, s, c) && s.callers[c].pc.AwaitingCompletion? && s.queue[s.callers[c].first].itemCompletedEvent
    requires i < QUEUE_SIZE
    ensures ItemOk(cfg, ConsumeCompletion(cfg, s, c), i)
  {
    hide RegionStart; hide RegionUnitNo; hide FragmentSize; hide Call.UnitCount; hide FragmentCount;
    assert CallerOk(cfg, s, c) && ProgramOk(cfg, cfg.calls[c], s.callers[c]);
    assert ItemOk(cfg, s, i);
  }

  lemma ConsumeCompletionRing(cfg: Config, s: State, c: nat)
    requires RingInv(cfg, s) && CallerEnabled(cfg, s, c) && s.callers[c].pc.AwaitingCompletion? && s.queue[s.callers[c].first].itemCompletedEvent
    ensures Ring(cfg, ConsumeCompletion(cfg, s, c))
  {
    hide RegionStart; hide RegionUnitNo; hide FragmentSize; hide Call.UnitCount; hide FragmentCount;
    var s' := ConsumeCompletion(cfg, s, c);
    assert CallerOk(cfg, s, c) && ProgramOk(cfg, cfg.calls[c], s.callers[c]);
    forall t: nat | t < |s'.log| ensures TicketOk(cfg, s', t) { ConsumeCompletionTicket(cfg, s, c, t); }
    forall b: nat | b < |s'.callers| ensures CallerOk(cfg, s', b) { ConsumeCompletionCaller(cfg, s, c, b); }
    forall x: nat | x < |s'.workers| ensures WorkerOk(cfg, s', x) { ConsumeCompletionWorker(cfg, s, c, x); }
    forall i: nat | i < QUEUE_SIZE ensures ItemOk(cfg, s', i) { ConsumeCompletionItem(cfg, s, c, i); }
  }

  lemma FreeFirstItemOwnTicket(cfg: Config, s: State, c: nat, t: nat)
    requires RingInv(cfg, s) && CallerEnabled(cfg, s, c) && s.callers[c].pc.FreeingFirst?
    requires t < |s.log| && t == s.callers[c].firstTicket
    ensures TicketOwnerOk(cfg, FreeFirstItem(cfg, s, c), t) && TicketItemOk(cfg, FreeFirstItem(cfg, s, c), t)
  {
    hide RegionStart; hide RegionUnitNo; hide FragmentSize; hide Call.UnitCount; hide FragmentCount; hide Carries;
    hide LocksOk; hide WorkerOk; hide ItemOk; hide BatchOk; hide LapOk; hide TicketWorkerOk; hide BeingTaken;
    assert CallerOk(cfg, s, c) && ProgramOk(cfg, cfg.calls[c], s.callers[c]);
    assert Mine(s, c, s.callers[c].firstTicket, 0);
    assert TicketOk(cfg, s, t);
  }

  lemma FreeFirstItemTicketItem(cfg: Config, s: State, c: nat, t: nat)
    requires RingInv(cfg, s) && CallerEnabled(cfg, s, c) && s.callers[c].pc.FreeingFirst?
    requires t < |s.log|
    ensures TicketOwnerOk(cfg, FreeFirstItem(cfg, s, c), t) && TicketItemOk(cfg, FreeFirstItem(cfg, s, c), t)
  {
    hide LapOk;
    hide RegionStart; hide RegionUnitNo; hide FragmentSize; hide Call.UnitCount; hide FragmentCount; hide Carries;
    hide LocksOk; hide WorkerOk; hide ItemOk; hide BatchOk; hide TicketWorkerOk; hide BeingTaken; hide TicketItemOk; hide TicketCountOk;
    assert CallerOk(cfg, s, c) && ProgramOk(cfg, cfg.calls[c], s.callers[c]);
    assert Mine(s, c, s.callers[c].firstTicket, 0);
    var u := s.callers[c].firstTicket;
    if t == u {
      FreeFirstItemOwnTicket(cfg, s, c, t);
    } else {
      assert TicketOk(cfg, s, u) && TicketOk(cfg, s, t);
      if t + QUEUE_SIZE >= |s.log| { FreeFirstIsLate(cfg, s, c); Apart(t, u, |s.log|); }
      TicketItemKept(cfg, s, FreeFirstItem(cfg, s, c), t);
    }
  }

  /** The first fragment's item has not been used again. */
  lemma FreeFirstIsLate(cfg: Config, s: State, c: nat)
    requires RingInv(cfg, s) && c < |s.callers| && s.callers[c].pc.FreeingFirst?
    ensures s.callers[c].firstTicket < |s.log| <= s.callers[c].firstTicket + QUEUE_SIZE
  {
    hide RegionStart; hide RegionUnitNo; hide FragmentSize; hide Call.UnitCount; hide FragmentCount; hide Carries;
    hide LocksOk; hide WorkerOk; hide ItemOk; hide BatchOk; hide TicketWorkerOk; hide BeingTaken; hide TicketItemOk;
    assert CallerOk(cfg, s, c) && ProgramOk(cfg, cfg.calls[c], s.callers[c]);
    assert Mine(s, c, s.callers[c].firstTicket, 0);
    assert TicketOk(cfg, s, s.callers[c].firstTicket);
  }

  lemma FreeFirstItemTicket(cfg: Config, s: State, c: nat, t: nat)
    requires RingInv(cfg, s) && CallerEnabled(cfg, s, c) && s.callers[c].pc.FreeingFirst?
    requires t < |s.log|
    ensures TicketOk(cfg, FreeFirstItem(cfg, s, c), t)
  {
    hide ItemOk;
    hide RegionStart; hide RegionUnitNo; hide FragmentSize; hide Call.UnitCount; hide FragmentCount; hide Carries;
    hide TicketItemOk;
    assert CallerOk(cfg, s, c) && ProgramOk(cfg, cfg.calls[c], s.callers[c]);
    assert Mine(s, c, s.callers[c].firstTicket, 0);
    assert TicketOk(cfg, s, s.callers[c].firstTicket);
    assert TicketOk(cfg, s, t);
    FreeFirstItemTicketItem(cfg, s, c, t);
  }

  lemma FreeFirstItemBatch(cfg: Config, s: State, c: nat, b: nat)
    requires RingInv(cfg, s) && CallerEnabled(cfg, s, c) && s.callers[c].pc.FreeingFirst?
    requires b < |s.callers|
    ensures Live(cfg.calls[b], StageOf(FreeFirstItem(cfg, s, c).callers[b].pc)) ==> BatchOk(cfg, FreeFirstItem(cfg, s, c), b)
  {
    hide RegionStart; hide RegionUnitNo; hide FragmentSize; hide Call.UnitCount; hide FragmentCount; hide Carries;
    assert CallerOk(cfg, s, c) && ProgramOk(cfg, cfg.calls[c], s.callers[c]);
    assert Mine(s, c, s.callers[c].firstTicket, 0);
    assert TicketOk(cfg, s, s.callers[c].firstTicket);
    assert CallerOk(cfg, s, b);
  }

  lemma FreeFirstItemCaller(cfg: Config, s: State, c: nat, b: nat)
    requires RingInv(cfg, s) && CallerEnabled(cfg, s, c) && s.callers[c].pc.FreeingFirst?
    requires b < |s.callers|
    ensures CallerOk(cfg, FreeFirstItem(cfg, s, c), b)
  {
    hide IsPooled; hide LocksOk; hide WorkerOk; hide TicketOk;
    hide RegionStart; hide RegionUnitNo; hide FragmentSize; hide Call.UnitCount; hide FragmentCount; hide Carries;
    hide BatchOk;
    assert CallerOk(cfg, s, c) && ProgramOk(cfg, cfg.calls[c], s.callers[c]);
    assert Mine(s, c, s.callers[c].firstTicket, 0);
    assert TicketOk(cfg, s, s.callers[c].firstTicket);
    assert CallerOk(cfg, s, b);
    var s' := FreeFirstItem(cfg, s, c);
    forall j | 0 <= j < s'.callers[b].posted ensures Mine(s', b, s'.callers[b].firstTicket, j) {
      assert Mine(s, b, s.callers[b].firstTicket, j);
    }
    FreeFirstItemBatch(cfg, s, c, b);
    if StageOf(s.callers[b].pc).Publishing? {
      SameFieldsCarry(cfg, s.queue[s.callers[b].item], s'.queue[s.callers[b].item], b, s.callers[b].posted, s.callers[b].first);
    }
  }

  lemma FreeFirstItemWorker(cfg: Config, s: State, c: nat, x: nat)
    requires RingInv(cfg, s) && CallerEnabled(cfg, s, c) && s.callers[c].pc.FreeingFirst?
    requires x < |s.workers|
    ensures WorkerOk(cfg, FreeFirstItem(cfg, s, c), x)
  {
    hide RegionStart; hide RegionUnitNo; hide FragmentSize; hide Call.UnitCount; hide FragmentCount; hide Carries;
    assert CallerOk(cfg, s, c) && ProgramOk(cfg, cfg.calls[c], s.callers[c]);
    assert Mine(s, c, s.callers[c].firstTicket, 0);
    assert TicketOk(cfg, s, s.callers[c].firstTicket);
    assert WorkerOk(cfg, s, x);
  }

  lemma FreeFirstItemItem(cfg: Config, s: State, c: nat, i: nat)
    requires RingInv(cfg, s) && CallerEnabled(cfg, s, c) && s.callers[c].pc.FreeingFirst?
    requires i < QUEUE_SIZE
    ensures ItemOk(cfg, FreeFirstItem(cfg, s, c), i)
  {
    hide RegionStart; hide RegionUnitNo; hide FragmentSize; hide Call.UnitCount; hide FragmentCount; hide Carries;
    assert CallerOk(cfg, s, c) && ProgramOk(cfg, cfg.calls[c], s.callers[c]);
    assert Mine(s, c, s.callers[c].firstTicket, 0);
    assert TicketOk(cfg, s, s.callers[c].firstTicket);
    assert ItemOk(cfg, s, i);
  }

  lemma FreeFirstItemRing(cfg: Config, s: State, c: nat)
    requires RingInv(cfg, s) && CallerEnabled(cfg, s, c) && s.callers[c].pc.FreeingFirst?
    ensures Ring(cfg, FreeFirstItem(cfg, s, c))
  {
    hide RegionStart; hide RegionUnitNo; hide FragmentSize; hide Call.UnitCount; hide FragmentCount; hide Carries;
    var s' := FreeFirstItem(cfg, s, c);
    assert CallerOk(cfg, s, c) && ProgramOk(cfg, cfg.calls[c], s.callers[c]);
    assert Mine(s, c, s.callers[c].firstTicket, 0);
    assert TicketOk(cfg, s, s.callers[c].firstTicket);
    forall t: nat | t < |s'.log| ensures TicketOk(cfg, s', t) { FreeFirstItemTicket(cfg, s, c, t); }
    forall b: nat | b < |s'.callers| ensures CallerOk(cfg, s', b) { FreeFirstItemCaller(cfg, s, c, b); }
    forall x: nat | x < |s'.workers| ensures WorkerOk(cfg, s', x) { FreeFirstItemWorker(cfg, s, c, x); }
    forall i: nat | i < QUEUE_SIZE ensures ItemOk(cfg, s', i) { FreeFirstItemItem(cfg, s, c, i); }
  }
}
