/** The parallel encryption pool of Common/EncryptionThreadPool.c as a transition system.

    A ring of QUEUE_SIZE work items is filled by callers (under EnqueueMutex) and emptied by
    workers (under DequeueMutex).  A step of a thread is one interlocked operation, one event
    set, clear or wait, one mutex operation, or one piece of plain code between those.  Events
    are auto-reset: a wait that succeeds clears the event.

    Fields below a "history" comment do not exist in the program.  No step ever tests them. */
module ThreadPoolModel {

  const MAX_THREAD_COUNT := 64
  const QUEUE_SIZE := 128
  const ENCRYPTION_DATA_UNIT_SIZE := 512
  const TWO_TO_THE_32 := 0x1_0000_0000
  const TWO_TO_THE_64 := 0x1_0000_0000_0000_0000

  type Bytes = seq<bv8>

  /** What a worker does with a piece of a buffer that starts at a given data unit number. */
  type Work = (nat, Bytes) -> Bytes

  datatype WorkType = EncryptDataUnitsWork | DecryptDataUnitsWork | DeriveKeyWork

  /** One call of EncryptionThreadPoolDoWork, or of EncryptionThreadPoolBeginKeyDerivation when
      the type is DeriveKeyWork.  `data` is the initial content of the buffer the call owns and
      `work` is what one sequential call on that buffer computes.  `effort` bounds how many times
      a worker writes unfinished bytes into its part of the buffer before the final ones. */
  datatype Call = Call(workType: WorkType, work: Work, startUnitNo: nat, data: Bytes, effort: nat)
  {
    predicate IsDerivation() { workType == DeriveKeyWork }
    function UnitCount(): nat { |data| / ENCRYPTION_DATA_UNIT_SIZE }
  }

  datatype Config = Config(threadCount: nat, calls: seq<Call>)

  /** Splitting a buffer of data units and working on both parts, the second one with its own unit
      number, is the same as working on the whole buffer. */
  ghost predicate UnitWise(work: Work) {
    && LengthPreserving(work)
    && (forall u: nat, a: Bytes, b: Bytes
          | u < TWO_TO_THE_64 && |a| % ENCRYPTION_DATA_UNIT_SIZE == 0 && |b| % ENCRYPTION_DATA_UNIT_SIZE == 0 ::
          work(u, a + b)
          == work(u, a) + work((u + |a| / ENCRYPTION_DATA_UNIT_SIZE) % TWO_TO_THE_64, b))
  }

  ghost predicate LengthPreserving(work: Work) {
    forall u: nat, b: Bytes :: |work(u, b)| == |b|
  }

  ghost predicate ValidCall(cfg: Config, call: Call)
    requires cfg.threadCount > 0
  {
    && call.startUnitNo < TWO_TO_THE_64
    && LengthPreserving(call.work)
    && (!call.IsDerivation() ==>
          && |call.data| % ENCRYPTION_DATA_UNIT_SIZE == 0
          && UnitWise(call.work)
          // A fragment is under 4 GiB: its size in bytes is computed in 32 bits.
          && call.UnitCount() / cfg.threadCount + 1 < TWO_TO_THE_32 / ENCRYPTION_DATA_UNIT_SIZE)
  }

  ghost predicate ValidConfig(cfg: Config) {
    && 2 <= cfg.threadCount <= MAX_THREAD_COUNT
    && |cfg.calls| > 0
    && forall c :: 0 <= c < |cfg.calls| ==> ValidCall(cfg, cfg.calls[c])
  }

  // ---- Fragments of one request ----

  function Min(a: nat, b: nat): nat { if a <= b then a else b }

  /** The numbers 0 to n - 1. */
  function Below(n: nat): (r: set<nat>)
    ensures |r| == n
    ensures forall k: nat :: k in r <==> k < n
  {
    if n == 0 then {} else Below(n - 1) + {n - 1}
  }

  function FragmentCount(units: nat, threadCount: nat): nat {
    if units <= threadCount then units else threadCount
  }

  function FragmentSize(units: nat, count: nat, k: nat): nat
    requires count > 0
  {
    units / count + if k < units % count then 1 else 0
  }

  /** First data unit, counted from the start of the buffer, of fragment k. */
  function FragmentStart(units: nat, count: nat, k: nat): nat
    requires count > 0
    decreases k
  {
    if k == 0 then 0 else FragmentStart(units, count, k - 1) + FragmentSize(units, count, k - 1)
  }

  /** A call is split only if it has at least two data units; a key derivation is one item. */
  predicate IsPooled(call: Call) { call.IsDerivation() || call.UnitCount() >= 2 }

  function Items(cfg: Config, call: Call): nat {
    if call.IsDerivation() then 1 else FragmentCount(call.UnitCount(), cfg.threadCount)
  }

  /** Where item k of a call begins and how long it is, in bytes of the call's buffer. */
  function RegionStart(cfg: Config, call: Call, k: nat): nat
    requires Items(cfg, call) > 0
  {
    if call.IsDerivation() then 0
    else ENCRYPTION_DATA_UNIT_SIZE * FragmentStart(call.UnitCount(), Items(cfg, call), k)
  }

  function RegionSize(cfg: Config, call: Call, k: nat): nat
    requires Items(cfg, call) > 0
  {
    if call.IsDerivation() then |call.data|
    else ENCRYPTION_DATA_UNIT_SIZE * FragmentSize(call.UnitCount(), Items(cfg, call), k)
  }

  function RegionUnitNo(cfg: Config, call: Call, k: nat): nat
    requires Items(cfg, call) > 0
  {
    if call.IsDerivation() then call.startUnitNo
    else (call.startUnitNo + FragmentStart(call.UnitCount(), Items(cfg, call), k)) % TWO_TO_THE_64
  }

  // ---- State ----

  /** A position in the queue, which also stands for a pointer to the item there. */
  type Slot = i: nat | i < QUEUE_SIZE witness 0

  datatype WorkItemState = WorkItemFree | WorkItemReady | WorkItemBusy

  datatype Thread = NoThread | Worker(w: nat) | Caller(c: nat)

  datatype WorkItem = WorkItem(
    state: WorkItemState,
    workType: WorkType,
    itemCompletedEvent: bool,
    firstFragment: Slot,
    outstandingFragmentCount: int,
    call: nat,            // whose buffer and key material Data and CryptoInfo point to
    dataOffset: nat,      // Data, as an offset into that buffer
    startUnitNo: nat,
    unitCount: nat,
    // history
    freedBy: Thread,      // who stored WorkItemFree last
    batch: nat            // the call that initialised the count and owns the completed event
  )

  datatype WorkerPc =
    | Idle            // about to acquire DequeueMutex and take the next item
    | Looking         // about to read the state of the item
    | WaitingReady    // about to wait for WorkItemReadyEvent
    | Claiming        // saw WorkItemReady, about to store WorkItemBusy
    | ReleasingDequeue
    | Starting        // about to read the item
    | Working(left: nat)
    | Freeing         // about to free the item unless it is the first fragment
    | SignallingFreed // about to set WorkItemCompletedEvent
    | CountingFirst   // about to decrement the count in its own item, which is still busy
    | Counting        // about to decrement the count in the first fragment's item
    | Completing      // counted down to zero, about to set ItemCompletedEvent
    | Flagging        // key derivation: about to set the completion flag
    | Announcing      // about to set the completion event
    | Uncounting      // about to decrement the outstanding work item count
    | LastKey         // about to set NoOutstandingWorkItemEvent
    | FreeingKey
    | SignallingKey

  datatype WorkerState = WorkerState(
    pc: WorkerPc,
    item: Slot,           // workItem, as an index into the queue
    // history
    ticket: nat,          // which taking of an item this is, counted from zero
    input: Bytes          // what Starting read
  )

  datatype CallerPc =
    | Begin
    | CheckingFirst   // about to read the state of the first fragment's item
    | WaitingFirst    // about to wait for WorkItemCompletedEvent
    | Taking          // head of the loop over fragments
    | Checking
    | WaitingFree
    | Filling         // saw WorkItemFree, about to write the fields of the item
    | Clearing        // key derivation: about to clear NoOutstandingWorkItemEvent
    | Posting         // about to store WorkItemReady
    | SignallingReady
    | ReleasingEnqueue
    | AwaitingCompletion
    | FreeingFirst
    | SignallingFirst
    | Done

  datatype CallerState = CallerState(
    pc: CallerPc,
    first: Slot,          // firstFragmentWorkItem
    item: Slot,           // workItem
    left: nat,            // fragmentCount, counted down
    unitsPerFragment: nat,
    remainder: nat,
    fragmentData: nat,
    fragmentStartUnitNo: nat,
    // history
    posted: nat,          // items of this call stored as WorkItemReady so far
    firstTicket: nat,     // ticket of the first of them
    uncounted: set<nat>,  // fragments that have not been counted down yet
    signalled: bool,      // whether ItemCompletedEvent was set for this call
    counter: nat          // the worker that counted a fragment of this call last
  )

  /** History of one posted item: which fragment of which call it carries and how far it is. */
  datatype Phase =
    | Posted            // WorkItemReady, or about to be claimed
    | Held(w: nat)      // WorkItemBusy, being worked on
    | Freed(w: nat)     // WorkItemFree, but its worker has yet to count it
    | Last(w: nat)      // counted down to zero, completion event not set yet
    | Parked            // a first fragment that was counted and waits for its caller
    | Retired

  datatype Ticket = Ticket(call: nat, k: nat, phase: Phase)

  datatype State = State(
    queue: seq<WorkItem>,
    enqueuePosition: Slot,
    dequeuePosition: Slot,
    enqueueMutex: Thread,
    dequeueMutex: Thread,
    readyEvent: bool,
    completedEvent: bool,
    workers: seq<WorkerState>,
    callers: seq<CallerState>,
    memory: seq<Bytes>,             // the buffer of each call
    completionFlags: seq<bool>,     // one per call, used by key derivations
    completionEvent: bool,
    outstandingWorkItemCount: int,
    noOutstandingWorkItemEvent: bool,
    // history
    log: seq<Ticket>,               // every item posted so far, in order
    taken: nat,                     // how many items workers have taken so far
    outstandingKeys: set<nat>       // derivations incremented and not decremented
  )

  function Advance(position: Slot): Slot {
    if position + 1 >= QUEUE_SIZE then 0 else position + 1
  }

  const freshItem := WorkItem(WorkItemFree, EncryptDataUnitsWork, false, 0, 0, 0, 0, 0, 0, NoThread, 0)
  const freshCaller := CallerState(Begin, 0, 0, 0, 0, 0, 0, 0, 0, 0, {}, false, 0)

  /** The pool right after EncryptionThreadPoolStart, before any call.  Callers that derive keys share one count, which
      starts at zero, an event for completions and one, set at first, that says that none is outstanding. */
  ghost function Start(cfg: Config): State {
    State(seq(QUEUE_SIZE, i => freshItem), 0, 0, NoThread, NoThread, false, false,
          seq(cfg.threadCount, i => WorkerState(Idle, 0, 0, [])),
          seq(|cfg.calls|, i => freshCaller),
          seq(|cfg.calls|, i requires 0 <= i < |cfg.calls| => cfg.calls[i].data),
          seq(|cfg.calls|, i => false), false, 0, true,
          [], 0, {})
  }

  predicate Shaped(cfg: Config, s: State) {
    && |s.queue| == QUEUE_SIZE
    && |s.workers| == cfg.threadCount
    && |s.callers| == |s.memory| == |s.completionFlags| == |cfg.calls|
    && (forall i :: 0 <= i < QUEUE_SIZE ==> s.queue[i].call < |cfg.calls|)
  }

  /** Overwrites part of a buffer; out-of-range requests leave it alone. */
  function Overwrite(buffer: Bytes, at: nat, bytes: Bytes): (r: Bytes)
    ensures |r| == |buffer|
  {
    if at + |bytes| <= |buffer| then buffer[..at] + bytes + buffer[at + |bytes|..] else buffer
  }

  function Slice(buffer: Bytes, at: nat, size: nat): Bytes {
    if at + size <= |buffer| then buffer[at..at + size] else []
  }

  // ---- Workers ----

  /** A worker only touches the history fields of a caller. */
  predicate SameLocals(x: CallerState, y: CallerState) {
    y == x.(uncounted := y.uncounted, signalled := y.signalled, counter := y.counter)
  }

  predicate KeepsLocals(s: State, s': State) {
    && |s'.callers| == |s.callers|
    && forall c :: 0 <= c < |s.callers| ==> SameLocals(s.callers[c], s'.callers[c])
  }

  function SetPhase(cfg: Config, s: State, t: nat, p: Phase): (s': State)
    requires Shaped(cfg, s)
    ensures Shaped(cfg, s')
    ensures s'.callers == s.callers
  {
    if t < |s.log| then s.(log := s.log[t := s.log[t].(phase := p)]) else s
  }

  predicate WorkerEnabled(cfg: Config, s: State, w: nat)
    requires Shaped(cfg, s)
  {
    && w < |s.workers|
    && match s.workers[w].pc
       case Idle => s.dequeueMutex == NoThread
       case WaitingReady => s.readyEvent
       case _ => true
  }

  /** How many bytes the worker's item covers. */
  function ItemSize(cfg: Config, x: WorkItem): nat
    requires x.call < |cfg.calls|
  {
    if x.workType == DeriveKeyWork then |cfg.calls[x.call].data| else x.unitCount * ENCRYPTION_DATA_UNIT_SIZE
  }

  /** The next step of worker w.  `scratch` is what an unfinished write leaves behind. */
  function WorkerStep(cfg: Config, s: State, w: nat, scratch: Bytes): (s': State)
    requires Shaped(cfg, s) && WorkerEnabled(cfg, s, w)
    ensures Shaped(cfg, s')
    ensures KeepsLocals(s, s')
  {
    match s.workers[w].pc
    case Idle => TakeItem(cfg, s, w)
    case Looking => LookAtItem(cfg, s, w)
    case WaitingReady => SetPc(cfg, s, w, Looking).(readyEvent := false)
    case Claiming => ClaimItem(cfg, s, w)
    case ReleasingDequeue => SetPc(cfg, s, w, Starting).(dequeueMutex := NoThread)
    case Starting => ReadItem(cfg, s, w)
    case Working(left) => if left > 0 then Scribble(cfg, s, w, left, scratch) else FinishItem(cfg, s, w)
    case Freeing => FreeOwnItem(cfg, s, w)
    case SignallingFreed => SetPc(cfg, s, w, Counting).(completedEvent := true)
    case CountingFirst => CountFragment(cfg, s, w)
    case Counting => CountFragment(cfg, s, w)
    case Completing => CompleteBatch(cfg, s, w)
    case Flagging => SetPc(cfg, s, w, Announcing).(completionFlags := s.completionFlags[MyItem(s, w).call := true])
    case Announcing => SetPc(cfg, s, w, Uncounting).(completionEvent := true)
    case Uncounting =>
      SetPc(cfg, s, w, if s.outstandingWorkItemCount - 1 == 0 then LastKey else FreeingKey)
        .(outstandingWorkItemCount := s.outstandingWorkItemCount - 1,
          outstandingKeys := s.outstandingKeys - {MyItem(s, w).call})
    case LastKey => SetPc(cfg, s, w, FreeingKey).(noOutstandingWorkItemEvent := true)
    case FreeingKey => FreeKeyItem(cfg, s, w)
    case SignallingKey => SetPc(cfg, s, w, Idle).(completedEvent := true)
  }

  function SetPc(cfg: Config, s: State, w: nat, pc: WorkerPc): (s': State)
    requires Shaped(cfg, s) && w < |s.workers|
    ensures Shaped(cfg, s')
    ensures KeepsLocals(s, s')
  {
    s.(workers := s.workers[w := s.workers[w].(pc := pc)])
  }

  function MyItem(s: State, w: nat): WorkItem
    requires w < |s.workers| && s.workers[w].item < |s.queue|
  {
    s.queue[s.workers[w].item]
  }

  /** Acquires DequeueMutex and advances DequeuePosition. */
  function TakeItem(cfg: Config, s: State, w: nat): (s': State)
    requires Shaped(cfg, s) && w < |s.workers|
    ensures Shaped(cfg, s')
    ensures KeepsLocals(s, s')
  {
    s.(workers := s.workers[w := WorkerState(Looking, s.dequeuePosition, s.taken, [])],
       dequeueMutex := Worker(w), dequeuePosition := Advance(s.dequeuePosition), taken := s.taken + 1)
  }

  function LookAtItem(cfg: Config, s: State, w: nat): (s': State)
    requires Shaped(cfg, s) && w < |s.workers|
    ensures Shaped(cfg, s')
    ensures KeepsLocals(s, s')
  {
    SetPc(cfg, s, w, if MyItem(s, w).state == WorkItemReady then Claiming else WaitingReady)
  }

  function ClaimItem(cfg: Config, s: State, w: nat): (s': State)
    requires Shaped(cfg, s) && w < |s.workers|
    ensures Shaped(cfg, s')
    ensures KeepsLocals(s, s')
  {
    SetPhase(cfg, SetPc(cfg, s, w, ReleasingDequeue), s.workers[w].ticket, Held(w))
      .(queue := s.queue[s.workers[w].item := MyItem(s, w).(state := WorkItemBusy)])
  }

  function ReadItem(cfg: Config, s: State, w: nat): (s': State)
    requires Shaped(cfg, s) && w < |s.workers|
    ensures Shaped(cfg, s')
    ensures KeepsLocals(s, s')
  {
    var x := MyItem(s, w);
    s.(workers := s.workers[w := s.workers[w].(
         pc := Working(cfg.calls[x.call].effort),
         input := Slice(s.memory[x.call], x.dataOffset, ItemSize(cfg, x)))])
  }

  /** The worker may leave anything in its own part of the buffer before it is finished. */
  function Scribble(cfg: Config, s: State, w: nat, left: nat, scratch: Bytes): (s': State)
    requires Shaped(cfg, s) && w < |s.workers| && left > 0
    ensures Shaped(cfg, s')
    ensures KeepsLocals(s, s')
  {
    var x := MyItem(s, w);
    SetPc(cfg, s, w, Working(left - 1))
      .(memory := if |scratch| == ItemSize(cfg, x)
                  then s.memory[x.call := Overwrite(s.memory[x.call], x.dataOffset, scratch)]
                  else s.memory)
  }

  function FinishItem(cfg: Config, s: State, w: nat): (s': State)
    requires Shaped(cfg, s) && w < |s.workers|
    ensures Shaped(cfg, s')
    ensures KeepsLocals(s, s')
  {
    var x := MyItem(s, w);
    SetPc(cfg, s, w, if x.workType == DeriveKeyWork then Flagging else Freeing)
      .(memory := s.memory[x.call := Overwrite(s.memory[x.call], x.dataOffset,
                                               cfg.calls[x.call].work(x.startUnitNo, s.workers[w].input))])
  }

  /** if (workItem != workItem->FirstFragment): only other fragments are freed by their worker. */
  function FreeOwnItem(cfg: Config, s: State, w: nat): (s': State)
    requires Shaped(cfg, s) && w < |s.workers|
    ensures Shaped(cfg, s')
    ensures KeepsLocals(s, s')
  {
    var x := MyItem(s, w);
    if s.workers[w].item != x.firstFragment then
      SetPhase(cfg, SetPc(cfg, s, w, SignallingFreed), s.workers[w].ticket, Freed(w))
        .(queue := s.queue[s.workers[w].item := x.(state := WorkItemFree, freedBy := Worker(w))])
    else
      SetPc(cfg, s, w, CountingFirst)
  }

  function FreeKeyItem(cfg: Config, s: State, w: nat): (s': State)
    requires Shaped(cfg, s) && w < |s.workers|
    ensures Shaped(cfg, s')
    ensures KeepsLocals(s, s')
  {
    SetPhase(cfg, SetPc(cfg, s, w, SignallingKey), s.workers[w].ticket, Retired)
      .(queue := s.queue[s.workers[w].item := MyItem(s, w).(state := WorkItemFree, freedBy := Worker(w))])
  }

  /** The phase a counted fragment is left in. */
  function CountedPhase(s: State, t: nat): Phase {
    if t < |s.log| && s.log[t].k == 0 then Parked else Retired
  }

  /** InterlockedDecrement (&workItem->FirstFragment->OutstandingFragmentCount): the first
      fragment is looked up in the worker's own item, which may already have been freed. */
  function CountFragment(cfg: Config, s: State, w: nat): (s': State)
    requires Shaped(cfg, s) && w < |s.workers|
    ensures Shaped(cfg, s')
    ensures KeepsLocals(s, s')
  {
    var t := s.workers[w].ticket;
    var first := MyItem(s, w).firstFragment;
    var count := s.queue[first].outstandingFragmentCount - 1;
    SetPhase(cfg, SetPc(cfg, s, w, if count == 0 then Completing else Idle), t,
             if count == 0 then Last(w) else CountedPhase(s, t))
      .(queue := s.queue[first := s.queue[first].(outstandingFragmentCount := count)],
        callers := Counted(s, t, w))
  }

  /** History of a decrement: the fragment of ticket t has been counted, by worker w. */
  function Counted(s: State, t: nat, w: nat): seq<CallerState> {
    if t < |s.log| && s.log[t].call < |s.callers| then
      var c := s.log[t].call;
      s.callers[c := s.callers[c].(uncounted := s.callers[c].uncounted - {s.log[t].k}, counter := w)]
    else s.callers
  }

  /** SetEvent (workItem->FirstFragment->ItemCompletedEvent): the first fragment is looked up again. */
  function CompleteBatch(cfg: Config, s: State, w: nat): (s': State)
    requires Shaped(cfg, s) && w < |s.workers|
    ensures Shaped(cfg, s')
    ensures KeepsLocals(s, s')
  {
    var t := s.workers[w].ticket;
    var first := MyItem(s, w).firstFragment;
    SetPhase(cfg, SetPc(cfg, s, w, Idle), t, CountedPhase(s, t))
      .(queue := s.queue[first := s.queue[first].(itemCompletedEvent := true)],
        callers := if t < |s.log| && s.log[t].call < |s.callers|
                   then s.callers[s.log[t].call := s.callers[s.log[t].call].(signalled := true)]
                   else s.callers)
  }

  // ---- Callers ----

  predicate CallerEnabled(cfg: Config, s: State, c: nat)
    requires Shaped(cfg, s)
  {
    && c < |s.callers|
    && match s.callers[c].pc
       case Begin => IsPooled(cfg.calls[c]) ==> s.enqueueMutex == NoThread
       case WaitingFirst => s.completedEvent
       case WaitingFree => s.completedEvent
       case AwaitingCompletion => s.queue[s.callers[c].first].itemCompletedEvent
       case Done => false
       case _ => true
  }

  /** Steps that move a caller's program counter and none of its locals. */
  predicate MovesTo(call: Call, x: CallerState, pc: CallerPc) {
    match x.pc
    case CheckingFirst => pc.WaitingFirst?
    case WaitingFirst => pc.CheckingFirst?
    case Taking => x.left == 0 && pc.ReleasingEnqueue?
    case Checking => pc.Filling? || pc.WaitingFree?
    case WaitingFree => pc.Checking?
    case Filling => call.IsDerivation() && pc.Clearing?
    case Clearing => pc.Posting?
    case SignallingReady => if call.IsDerivation() then pc.ReleasingEnqueue? else pc.Taking?
    case ReleasingEnqueue => if call.IsDerivation() then pc.Done? else pc.AwaitingCompletion?
    case AwaitingCompletion => pc.FreeingFirst?
    case FreeingFirst => pc.SignallingFirst?
    case SignallingFirst => pc.Done?
    case _ => false
  }

  /** The step changes more of the caller than its program counter. */
  predicate ComputesLocals(cfg: Config, s: State, c: nat)
    requires Shaped(cfg, s) && c < |s.callers|
  {
    var me := s.callers[c];
    || me.pc.Begin? || me.pc.Posting?
    || (me.pc.CheckingFirst? && s.queue[me.first].state == WorkItemFree)
    || (me.pc.Taking? && me.left > 0)
    || (me.pc.Filling? && !cfg.calls[c].IsDerivation())
  }

  function CallerStep(cfg: Config, s: State, c: nat): (s': State)
    requires Shaped(cfg, s) && CallerEnabled(cfg, s, c) && cfg.threadCount > 0
    ensures Shaped(cfg, s')
    ensures !ComputesLocals(cfg, s, c) ==>
              var x, y := s.callers[c], s'.callers[c];
              y == x.(pc := y.pc) && MovesTo(cfg.calls[c], x, y.pc)
    ensures s'.callers == s.callers[c := s'.callers[c]]
  {
    var me := s.callers[c];
    var call := cfg.calls[c];
    match me.pc
    case Begin => BeginCall(cfg, s, c)
    case CheckingFirst =>
      if s.queue[me.first].state == WorkItemFree then OpenBatch(cfg, s, c) else SetCallerPc(cfg, s, c, WaitingFirst)
    case WaitingFirst => SetCallerPc(cfg, s, c, CheckingFirst).(completedEvent := false)
    case Taking => if me.left > 0 then ReserveItem(cfg, s, c) else SetCallerPc(cfg, s, c, ReleasingEnqueue)
    case Checking =>
      SetCallerPc(cfg, s, c, if s.queue[me.item].state == WorkItemFree then Filling else WaitingFree)
    case WaitingFree => SetCallerPc(cfg, s, c, Checking).(completedEvent := false)
    case Filling => if call.IsDerivation() then FillKeyItem(cfg, s, c) else FillItem(cfg, s, c)
    case Clearing => SetCallerPc(cfg, s, c, Posting).(noOutstandingWorkItemEvent := false)
    case Posting => PostItem(cfg, s, c)
    case SignallingReady =>
      SetCallerPc(cfg, s, c, if call.IsDerivation() then ReleasingEnqueue else Taking).(readyEvent := true)
    case ReleasingEnqueue => ReleaseEnqueue(cfg, s, c)
    case AwaitingCompletion => ConsumeCompletion(cfg, s, c)
    case FreeingFirst => FreeFirstItem(cfg, s, c)
    case SignallingFirst => SetCallerPc(cfg, s, c, Done).(completedEvent := true)
    case Done => s
  }

  function SetCallerPc(cfg: Config, s: State, c: nat, pc: CallerPc): (s': State)
    requires Shaped(cfg, s) && c < |s.callers|
    ensures Shaped(cfg, s')
    ensures s'.callers == s.callers[c := s'.callers[c]]
  {
    s.(callers := s.callers[c := s.callers[c].(pc := pc)])
  }

  /** firstFragmentWorkItem->OutstandingFragmentCount = fragmentCount, on a free item. */
  function OpenBatch(cfg: Config, s: State, c: nat): (s': State)
    requires Shaped(cfg, s) && c < |s.callers|
    ensures Shaped(cfg, s')
    ensures s'.callers == s.callers[c := s'.callers[c]]
  {
    var me := s.callers[c];
    s.(callers := s.callers[c := me.(pc := Taking, uncounted := Below(me.left), signalled := false)],
       queue := s.queue[me.first := s.queue[me.first].(outstandingFragmentCount := me.left, batch := c)])
  }

  function ReserveItem(cfg: Config, s: State, c: nat): (s': State)
    requires Shaped(cfg, s) && c < |s.callers| && s.callers[c].left > 0
    ensures Shaped(cfg, s')
    ensures s'.callers == s.callers[c := s'.callers[c]]
  {
    var me := s.callers[c];
    s.(callers := s.callers[c := me.(pc := Checking, left := me.left - 1, item := s.enqueuePosition)],
       enqueuePosition := Advance(s.enqueuePosition))
  }

  function PostItem(cfg: Config, s: State, c: nat): (s': State)
    requires Shaped(cfg, s) && c < |s.callers|
    ensures Shaped(cfg, s')
    ensures s'.callers == s.callers[c := s'.callers[c]]
  {
    var me := s.callers[c];
    s.(callers := s.callers[c := me.(pc := SignallingReady, posted := me.posted + 1)],
       queue := s.queue[me.item := s.queue[me.item].(state := WorkItemReady)],
       log := s.log + [Ticket(c, me.posted, Posted)])
  }

  /** A key derivation is not waited for. */
  function ReleaseEnqueue(cfg: Config, s: State, c: nat): (s': State)
    requires Shaped(cfg, s) && c < |s.callers|
    ensures Shaped(cfg, s')
    ensures s'.callers == s.callers[c := s'.callers[c]]
  {
    var pc := if cfg.calls[c].IsDerivation() then Done else AwaitingCompletion;
    SetCallerPc(cfg, s, c, pc).(enqueueMutex := NoThread)
  }

  function ConsumeCompletion(cfg: Config, s: State, c: nat): (s': State)
    requires Shaped(cfg, s) && c < |s.callers|
    ensures Shaped(cfg, s')
    ensures s'.callers == s.callers[c := s'.callers[c]]
  {
    var first := s.callers[c].first;
    SetCallerPc(cfg, s, c, FreeingFirst).(queue := s.queue[first := s.queue[first].(itemCompletedEvent := false)])
  }

  function FreeFirstItem(cfg: Config, s: State, c: nat): (s': State)
    requires Shaped(cfg, s) && c < |s.callers|
    ensures Shaped(cfg, s')
    ensures s'.callers == s.callers[c := s'.callers[c]]
  {
    var first := s.callers[c].first;
    SetPhase(cfg, SetCallerPc(cfg, s, c, SignallingFirst), s.callers[c].firstTicket, Retired)
      .(queue := s.queue[first := s.queue[first].(state := WorkItemFree, freedBy := Caller(c))])
  }

  /** From the entry of the call to holding EnqueueMutex. */
  function BeginCall(cfg: Config, s: State, c: nat): (s': State)
    requires Shaped(cfg, s) && c < |s.callers| && cfg.threadCount > 0
    ensures Shaped(cfg, s')
    ensures s'.callers == s.callers[c := s'.callers[c]]
  {
    var call := cfg.calls[c];
    if call.IsDerivation() then
      s.(callers := s.callers[c := s.callers[c].(pc := Taking, left := 1, firstTicket := |s.log|)],
         enqueueMutex := Caller(c))
    else if call.UnitCount() == 0 then
      SetCallerPc(cfg, s, c, Done)
    else if call.UnitCount() == 1 then
      SetCallerPc(cfg, s, c, Done).(memory := s.memory[c := call.work(call.startUnitNo, s.memory[c])])
    else
      var units := call.UnitCount();
      var small := units <= cfg.threadCount;
      var remainder := if small then 0 else units % cfg.threadCount;
      var unitsPerFragment := if small then 1 else units / cfg.threadCount + if remainder > 0 then 1 else 0;
      s.(callers := s.callers[c := CallerState(CheckingFirst, s.enqueuePosition, 0,
                                               if small then units else cfg.threadCount,
                                               unitsPerFragment, remainder, 0, call.startUnitNo,
                                               0, |s.log|, {}, false, 0)],
         enqueueMutex := Caller(c))
  }

  /** Writes the fields of a free item and moves on to the next piece of the buffer. */
  function FillItem(cfg: Config, s: State, c: nat): (s': State)
    requires Shaped(cfg, s) && c < |s.callers|
    ensures Shaped(cfg, s')
    ensures s'.callers == s.callers[c := s'.callers[c]]
  {
    var me := s.callers[c];
    s.(callers := s.callers[c := me.(
         pc := Posting,
         fragmentData := me.fragmentData + me.unitsPerFragment * ENCRYPTION_DATA_UNIT_SIZE % TWO_TO_THE_32,
         fragmentStartUnitNo := (me.fragmentStartUnitNo + me.unitsPerFragment) % TWO_TO_THE_64,
         remainder := if me.remainder > 0 then me.remainder - 1 else 0,
         unitsPerFragment := if me.remainder == 1 && me.unitsPerFragment > 0
                             then me.unitsPerFragment - 1 else me.unitsPerFragment)],
       queue := s.queue[me.item := s.queue[me.item].(
         workType := cfg.calls[c].workType, firstFragment := me.first, call := c,
         dataOffset := me.fragmentData, unitCount := me.unitsPerFragment,
         startUnitNo := me.fragmentStartUnitNo)])
  }

  function FillKeyItem(cfg: Config, s: State, c: nat): (s': State)
    requires Shaped(cfg, s) && c < |s.callers|
    ensures Shaped(cfg, s')
    ensures s'.callers == s.callers[c := s'.callers[c]]
  {
    var me := s.callers[c];
    SetCallerPc(cfg, s, c, Clearing)
      .(queue := s.queue[me.item := s.queue[me.item].(
          workType := DeriveKeyWork, call := c, dataOffset := 0, startUnitNo := cfg.calls[c].startUnitNo)],
        outstandingWorkItemCount := s.outstandingWorkItemCount + 1,
        outstandingKeys := s.outstandingKeys + {c})
  }

  // ---- Runs ----

  /** Some thread takes its next step. */
  ghost predicate Next(cfg: Config, s: State, s': State) {
    && Shaped(cfg, s) && cfg.threadCount > 0
    && (|| (exists w, scratch :: WorkerEnabled(cfg, s, w) && s' == WorkerStep(cfg, s, w, scratch))
        || (exists c :: CallerEnabled(cfg, s, c) && s' == CallerStep(cfg, s, c)))
  }

  ghost predicate IsRun(cfg: Config, run: seq<State>) {
    && |run| > 0
    && run[0] == Start(cfg)
    && forall i :: 0 < i < |run| ==> Next(cfg, run[i - 1], run[i])
  }

  ghost predicate Reachable(cfg: Config, s: State) {
    exists run :: IsRun(cfg, run) && run[|run| - 1] == s
  }

  /** What one sequential call in the caller's own thread leaves in the buffer. */
  function SequentialResult(call: Call): Bytes {
    if !call.IsDerivation() && call.UnitCount() == 0 then call.data
    else call.work(call.startUnitNo, call.data)
  }
}
