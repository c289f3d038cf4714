/** What holds in every reachable state of the pool: the program invariant of one caller, and the
    ring invariant that ties the queue to the history of posted items. */
module ThreadPoolInvariant {
  import opened ThreadPoolModel

  // ---- Where a thread is, as far as the ring is concerned ----

  datatype Role =
    | Away        // refers to no item
    | Seeking     // has taken an item under DequeueMutex and waits for it to become ready
    | Holding     // has made the item busy
    | Dangling    // has freed the item but is still to count it
    | Finishing   // is still to set the completion event

  function RoleOf(pc: WorkerPc): Role {
    match pc
    case Idle => Away
    case SignallingKey => Away
    case Looking => Seeking
    case WaitingReady => Seeking
    case Claiming => Seeking
    case SignallingFreed => Dangling
    case Counting => Dangling
    case Completing => Finishing
    case _ => Holding
  }

  predicate HoldsDequeueMutex(pc: WorkerPc) { RoleOf(pc).Seeking? || pc.ReleasingDequeue? }

  datatype Stage =
    | Before      // has not begun
    | Opening     // waits for the item of its first fragment
    | Looping     // between two items
    | Reserving   // has taken an item from the ring and waits for it to become free
    | Preparing   // has seen the item to be free
    | Publishing  // has written the item's fields
    | Leaving     // is about to release EnqueueMutex
    | Awaiting    // waits for its completion event
    | Parting     // is about to free the first fragment's item
    | After       // has returned, but for a last signal

  function StageOf(pc: CallerPc): Stage {
    match pc
    case Begin => Before
    case CheckingFirst => Opening
    case WaitingFirst => Opening
    case Taking => Looping
    case SignallingReady => Looping
    case Checking => Reserving
    case WaitingFree => Reserving
    case Filling => Preparing
    case Clearing => Publishing
    case Posting => Publishing
    case ReleasingEnqueue => Leaving
    case AwaitingCompletion => Awaiting
    case FreeingFirst => Parting
    case SignallingFirst => After
    case Done => After
  }

  predicate HoldsEnqueueMutex(stage: Stage) {
    !stage.Before? && !stage.Awaiting? && !stage.Parting? && !stage.After?
  }

  /** The caller has advanced EnqueuePosition over an item it has not posted yet. */
  predicate HasItem(stage: Stage) { stage.Reserving? || stage.Preparing? || stage.Publishing? }

  /** The caller has seen the next item it is going to post to be free. */
  predicate SawFree(call: Call, stage: Stage, posted: nat) {
    || stage.Preparing? || stage.Publishing?
    || (!call.IsDerivation() && posted == 0 && (stage.Looping? || stage.Reserving?))
  }

  /** The call's fragments are being counted in its first fragment's item. */
  predicate Live(call: Call, stage: Stage) {
    && !call.IsDerivation()
    && !stage.Before? && !stage.Opening? && !stage.Parting? && !stage.After?
  }

  predicate Closed(stage: Stage) { stage.Parting? || stage.After? }

  // ---- The program invariant: the locals of one caller ----

  /** The locals of the loop over fragments stand at fragment j. */
  predicate AtFragment(cfg: Config, x: CallerState, call: Call, j: nat)
    requires !call.IsDerivation() && Items(cfg, call) > 0
  {
    var n := Items(cfg, call);
    var extra := call.UnitCount() % n;
    && x.fragmentData == RegionStart(cfg, call, j)
    && x.fragmentStartUnitNo == RegionUnitNo(cfg, call, j)
    && x.remainder == (if extra > j then extra - j else 0)
    && x.unitsPerFragment == FragmentSize(call.UnitCount(), n, j)
  }

  predicate ProgramOk(cfg: Config, call: Call, x: CallerState) {
    && (x.pc.Begin? ==> x.posted == 0)
    && (!IsPooled(call) ==> (x.pc.Begin? || x.pc.Done?) && x.posted == 0)
    && (IsPooled(call) ==>
          && Items(cfg, call) > 0
          && x.posted <= Items(cfg, call)
          && (if call.IsDerivation() then DerivationProgramOk(x) else WorkProgramOk(cfg, call, x)))
  }

  predicate DerivationProgramOk(x: CallerState) {
    && !x.pc.CheckingFirst? && !x.pc.WaitingFirst? && !x.pc.AwaitingCompletion?
    && !x.pc.FreeingFirst? && !x.pc.SignallingFirst?
    && (x.pc.Taking? ==> x.posted == 0 && x.left == 1)
    && (HasItem(StageOf(x.pc)) ==> x.posted == 0)
    && (x.pc.SignallingReady? || x.pc.ReleasingEnqueue? || x.pc.Done? ==> x.posted == 1)
  }

  predicate WorkProgramOk(cfg: Config, call: Call, x: CallerState)
    requires !call.IsDerivation() && Items(cfg, call) > 0
  {
    var n := Items(cfg, call);
    && !x.pc.Clearing?
    && (!x.pc.Begin? ==> x.first == x.firstTicket % QUEUE_SIZE)
    && (StageOf(x.pc).Opening? ==> x.posted == 0 && x.left == n && AtFragment(cfg, x, call, 0))
    && (StageOf(x.pc).Looping? ==> x.left + x.posted == n && AtFragment(cfg, x, call, x.posted))
    && (HasItem(StageOf(x.pc)) ==> x.left + x.posted + 1 == n)
    && (x.pc.Posting? ==> AtFragment(cfg, x, call, x.posted + 1))
    && (StageOf(x.pc).Reserving? || StageOf(x.pc).Preparing? ==> AtFragment(cfg, x, call, x.posted))
    && (x.pc.SignallingReady? ==> x.posted > 0)
    && (StageOf(x.pc).Leaving? || StageOf(x.pc).Awaiting? || Closed(StageOf(x.pc)) ==> x.posted == n)
  }

  ghost predicate ProgramInv(cfg: Config, s: State) {
    && ValidConfig(cfg)
    && Shaped(cfg, s)
    && forall c :: 0 <= c < |s.callers| ==> ProgramOk(cfg, cfg.calls[c], s.callers[c])
  }

  // ---- The ring invariant ----

  predicate BeforeCount(p: Phase) { p.Posted? || p.Held? || p.Freed? }

  /** What the state word of an item says about the ticket it carries. */
  function StateOf(t: Ticket): WorkItemState {
    match t.phase
    case Posted => WorkItemReady
    case Held(_) => WorkItemBusy
    case Freed(_) => WorkItemFree
    case Last(_) => if t.k == 0 then WorkItemBusy else WorkItemFree
    case Parked => WorkItemBusy
    case Retired => WorkItemFree
  }

  /** The item's fields are those written for fragment k of call c. */
  predicate Carries(cfg: Config, x: WorkItem, c: nat, k: nat, first: nat)
    requires c < |cfg.calls| && Items(cfg, cfg.calls[c]) > 0
  {
    var call := cfg.calls[c];
    && x.call == c
    && x.workType == call.workType
    && x.dataOffset == RegionStart(cfg, call, k)
    && x.startUnitNo == RegionUnitNo(cfg, call, k)
    && (!call.IsDerivation() ==>
          && x.firstFragment == first
          && x.unitCount == FragmentSize(call.UnitCount(), Items(cfg, call), k))
  }

  /** The holder of DequeueMutex is still to make the item of ticket t busy. */
  predicate BeingTaken(cfg: Config, s: State, t: nat)
    requires Shaped(cfg, s)
  {
    && t + 1 == s.taken
    && s.dequeueMutex.Worker? && s.dequeueMutex.w < |s.workers|
    && RoleOf(s.workers[s.dequeueMutex.w].pc).Seeking?
  }

  predicate LocksOk(cfg: Config, s: State)
    requires Shaped(cfg, s)
  {
    && (s.dequeueMutex.NoThread?
        || (s.dequeueMutex.Worker? && s.dequeueMutex.w < |s.workers| && HoldsDequeueMutex(s.workers[s.dequeueMutex.w].pc)))
    && (s.enqueueMutex.NoThread?
        || (s.enqueueMutex.Caller? && s.enqueueMutex.c < |s.callers| && HoldsEnqueueMutex(StageOf(s.callers[s.enqueueMutex.c].pc))))
    && (s.taken > |s.log| ==> BeingTaken(cfg, s, |s.log|))
    && s.dequeuePosition == s.taken % QUEUE_SIZE
    && s.enqueuePosition
       == (|s.log| + if s.enqueueMutex.Caller? && HasItem(StageOf(s.callers[s.enqueueMutex.c].pc)) then 1 else 0) % QUEUE_SIZE
  }

  predicate EnqueuerSawFree(cfg: Config, s: State)
    requires Shaped(cfg, s)
  {
    && s.enqueueMutex.Caller? && s.enqueueMutex.c < |s.callers|
    && SawFree(cfg.calls[s.enqueueMutex.c], StageOf(s.callers[s.enqueueMutex.c].pc), s.callers[s.enqueueMutex.c].posted)
  }

  predicate TicketWorkerOk(cfg: Config, s: State, t: nat)
    requires Shaped(cfg, s) && t < |s.log| && s.log[t].call < |cfg.calls|
  {
    var x := s.log[t];
    var d := cfg.calls[x.call].IsDerivation();
    match x.phase
    case Held(w) => w < |s.workers| && s.workers[w].ticket == t && RoleOf(s.workers[w].pc).Holding?
    case Freed(w) => w < |s.workers| && s.workers[w].ticket == t && RoleOf(s.workers[w].pc).Dangling? && !d && x.k > 0
    case Last(w) => w < |s.workers| && s.workers[w].ticket == t && RoleOf(s.workers[w].pc).Finishing? && !d
    case Parked => !d && x.k == 0
    case _ => true
  }

  predicate TicketOwnerOk(cfg: Config, s: State, t: nat)
    requires Shaped(cfg, s) && t < |s.log|
  {
    var x := s.log[t];
    && x.call < |cfg.calls|
    && IsPooled(cfg.calls[x.call]) && Items(cfg, cfg.calls[x.call]) > 0
    && x.k < s.callers[x.call].posted
    && s.callers[x.call].firstTicket + x.k == t
  }

  /** An item is not used again before its ticket has been retired. */
  predicate LapOk(cfg: Config, s: State, t: nat)
    requires Shaped(cfg, s) && t < |s.log|
  {
    && (t + QUEUE_SIZE < |s.log| ==> s.log[t].phase.Retired?)
    && (t + QUEUE_SIZE == |s.log| && EnqueuerSawFree(cfg, s) ==> s.log[t].phase.Retired?)
  }

  predicate TicketItemOk(cfg: Config, s: State, t: nat)
    requires Shaped(cfg, s) && t < |s.log| && TicketOwnerOk(cfg, s, t)
  {
    var x := s.log[t];
    t + QUEUE_SIZE >= |s.log| ==>
      && s.queue[t % QUEUE_SIZE].state == StateOf(x)
      && (!x.phase.Retired? ==> Carries(cfg, s.queue[t % QUEUE_SIZE], x.call, x.k, s.callers[x.call].first))
  }

  predicate TicketCountOk(call: Call, me: CallerState, x: Ticket) {
    var stage := StageOf(me.pc);
    !call.IsDerivation() ==>
      && (Live(call, stage) ==> (x.k in me.uncounted <==> BeforeCount(x.phase)))
      && (Live(call, stage) && x.phase.Last? ==> me.uncounted == {} && !me.signalled && x.phase.w == me.counter)
      && (Live(call, stage) && x.k == 0 ==> !x.phase.Retired?)
      && (Closed(stage) ==> if x.k == 0 && stage.Parting? then x.phase.Parked? else x.phase.Retired?)
  }

  predicate TicketOk(cfg: Config, s: State, t: nat)
    requires Shaped(cfg, s) && t < |s.log|
  {
    && TicketOwnerOk(cfg, s, t)
    && LapOk(cfg, s, t)
    && TicketItemOk(cfg, s, t)
    && (s.log[t].phase.Posted? <==> t >= s.taken || BeingTaken(cfg, s, t))
    && TicketWorkerOk(cfg, s, t)
    && TicketCountOk(cfg.calls[s.log[t].call], s.callers[s.log[t].call], s.log[t])
  }

  predicate Mine(s: State, c: nat, first: nat, j: nat) {
    first + j < |s.log| && s.log[first + j].call == c && s.log[first + j].k == j
  }

  /** The count and the event in the first fragment's item belong to this call. */
  predicate BatchOk(cfg: Config, s: State, c: nat)
    requires Shaped(cfg, s) && c < |s.callers|
  {
    var me := s.callers[c];
    var x := s.queue[me.first];
    && x.outstandingFragmentCount == |me.uncounted|
    && x.batch == c
    && x.itemCompletedEvent == me.signalled
    && (forall k: nat :: k in me.uncounted ==> k < Items(cfg, cfg.calls[c]))
    && (forall k: nat :: me.posted <= k < Items(cfg, cfg.calls[c]) ==> k in me.uncounted)
    && (me.signalled ==> me.uncounted == {})
    && (me.uncounted == {} && !me.signalled ==>
          && me.counter < |s.workers| && RoleOf(s.workers[me.counter].pc).Finishing?
          && s.workers[me.counter].ticket < |s.log| && s.log[s.workers[me.counter].ticket].call == c)
  }

  predicate CallerOk(cfg: Config, s: State, c: nat)
    requires Shaped(cfg, s) && c < |s.callers|
  {
    var me := s.callers[c];
    var call := cfg.calls[c];
    var stage := StageOf(me.pc);
    && (HoldsEnqueueMutex(stage) ==> s.enqueueMutex == Caller(c) && me.firstTicket + me.posted == |s.log|)
    && (HasItem(stage) ==> me.item == |s.log| % QUEUE_SIZE)
    && (forall j :: 0 <= j < me.posted ==> Mine(s, c, me.firstTicket, j))
    && (stage.Publishing? ==> Items(cfg, call) > 0 && Carries(cfg, s.queue[me.item], c, me.posted, me.first))
    && (Live(call, stage) ==> BatchOk(cfg, s, c))
  }

  /** Which kinds of call and fragment a worker can be working on at each point. */
  predicate KindOk(pc: WorkerPc, derivation: bool, k: nat) {
    && (pc.Freeing? || pc.CountingFirst? ==> !derivation)
    && (pc.CountingFirst? ==> k == 0)
    && (pc.Flagging? || pc.Announcing? || pc.Uncounting? || pc.LastKey? || pc.FreeingKey? ==> derivation)
  }

  predicate WorkerOk(cfg: Config, s: State, w: nat)
    requires Shaped(cfg, s) && w < |s.workers|
  {
    var me := s.workers[w];
    var role := RoleOf(me.pc);
    && (HoldsDequeueMutex(me.pc) ==> s.dequeueMutex == Worker(w) && me.ticket + 1 == s.taken)
    && (!role.Away? ==> me.item == me.ticket % QUEUE_SIZE)
    && (me.pc.Claiming? || role.Holding? || role.Dangling? || role.Finishing? ==>
          && me.ticket < |s.log|
          && s.log[me.ticket].call < |cfg.calls|
          && var x := s.log[me.ticket];
          && (me.pc.Claiming? ==> x.phase.Posted?)
          && (role.Holding? ==> x.phase == Held(w) && KindOk(me.pc, cfg.calls[x.call].IsDerivation(), x.k))
          && (role.Dangling? ==> x.phase == Freed(w))
          && (role.Finishing? ==> x.phase == Last(w)))
  }

  /** Items beyond the last posted one have never been used; a set event belongs to a live call. */
  predicate ItemOk(cfg: Config, s: State, i: nat)
    requires Shaped(cfg, s) && i < QUEUE_SIZE
  {
    var x := s.queue[i];
    && (i >= |s.log| ==> x.state.WorkItemFree?)
    && (x.itemCompletedEvent ==>
          && x.batch < |s.callers|
          && Live(cfg.calls[x.batch], StageOf(s.callers[x.batch].pc))
          && s.callers[x.batch].first == i)
  }

  ghost predicate Ring(cfg: Config, s: State)
    requires Shaped(cfg, s)
  {
    && LocksOk(cfg, s)
    && (forall t :: 0 <= t < |s.log| ==> TicketOk(cfg, s, t))
    && (forall c :: 0 <= c < |s.callers| ==> CallerOk(cfg, s, c))
    && (forall w :: 0 <= w < |s.workers| ==> WorkerOk(cfg, s, w))
    && (forall i :: 0 <= i < QUEUE_SIZE ==> ItemOk(cfg, s, i))
  }

  ghost predicate RingInv(cfg: Config, s: State) {
    ProgramInv(cfg, s) && Ring(cfg, s)
  }
}
