/** Every run of the pool is finite: each step uses up some of a budget. */
module ThreadPoolTermination {
  import opened ThreadPoolModel
  import opened ThreadPoolInvariant
  import opened ThreadPoolProgram
  import opened ThreadPoolRing
  import opened ThreadPoolSafety
  import opened ThreadPoolFrame
  import opened ThreadPoolProgress
  import opened ThreadPoolData
  import opened ThreadPoolKeys

  /** More than any call's effort. */
  function Effort(calls: seq<Call>): (e: nat)
    ensures forall c :: 0 <= c < |calls| ==> calls[c].effort <= e
  {
    if calls == [] then 0
    else
      var e, last := Effort(calls[..|calls| - 1]), calls[|calls| - 1].effort;
      if last <= e then e else last
  }

  /** What a worker may still spend before it takes another item. */
  function WorkerCost(pc: WorkerPc, effort: nat): nat {
    match pc
    case Idle => 0
    case Looking => effort + 14
    case WaitingReady => effort + 13
    case Claiming => effort + 12
    case ReleasingDequeue => effort + 11
    case Starting => effort + 10
    case Working(left) => left + 9
    case Freeing => 6
    case SignallingFreed => 5
    case CountingFirst => 2
    case Counting => 2
    case Completing => 1
    case Flagging => 8
    case Announcing => 7
    case Uncounting => 6
    case LastKey => 5
    case FreeingKey => 4
    case SignallingKey => 3
  }

  /** The cost of an item for the worker that takes it. */
  function ItemCost(effort: nat): nat { effort + 15 }

  /** What posting one more item costs altogether. */
  function PostCost(effort: nat): nat { ItemCost(effort) + 9 }

  function CallerCost(pc: CallerPc, left: nat, effort: nat): nat {
    var rest := left * PostCost(effort);
    match pc
    case Begin => MAX_THREAD_COUNT * PostCost(effort) + 10
    case CheckingFirst => rest + 9
    case WaitingFirst => rest + 8
    case Taking => rest + 7
    case Checking => rest + ItemCost(effort) + 15
    case WaitingFree => rest + ItemCost(effort) + 14
    case Filling => rest + ItemCost(effort) + 13
    case Clearing => rest + ItemCost(effort) + 12
    case Posting => rest + ItemCost(effort) + 11
    case SignallingReady => rest + 10
    case ReleasingEnqueue => 6
    case AwaitingCompletion => 5
    case FreeingFirst => 4
    case SignallingFirst => 3
    case Done => 0
  }

  function WorkersCost(ws: seq<WorkerState>, effort: nat): nat {
    if ws == [] then 0 else WorkersCost(ws[..|ws| - 1], effort) + WorkerCost(ws[|ws| - 1].pc, effort)
  }

  function CallersCost(cs: seq<CallerState>, effort: nat): nat {
    if cs == [] then 0
    else CallersCost(cs[..|cs| - 1], effort) + CallerCost(cs[|cs| - 1].pc, cs[|cs| - 1].left, effort)
  }

  /** Workers are going to take no more than one item beyond the last posted one. */
  function UntakenCost(posted: nat, taken: nat, effort: nat): nat {
    if taken > posted then 0
    else
      var n: nat := posted + 1 - taken;
      n * ItemCost(effort)
  }

  function Budget(cfg: Config, s: State): nat {
    var e := Effort(cfg.calls);
    WorkersCost(s.workers, e) + CallersCost(s.callers, e)
    + UntakenCost(|s.log|, s.taken, e)
    + (if s.readyEvent then 2 else 0)
    + (if s.completedEvent then 2 else 0)
  }

  lemma {:induction false} OneWorkerCost(ws: seq<WorkerState>, ws': seq<WorkerState>, w: nat, e: nat)
    requires w < |ws| == |ws'| && ws' == ws[w := ws'[w]]
    ensures WorkersCost(ws', e) - WorkersCost(ws, e) == WorkerCost(ws'[w].pc, e) - WorkerCost(ws[w].pc, e)
  {
    hide WorkerCost;
    var n := |ws| - 1;
    if w < n {
      OneWorkerCost(ws[..n], ws'[..n], w, e);
    } else {
      assert ws'[..n] == ws[..n];
    }
  }

  lemma {:induction false} OneCallerCost(cs: seq<CallerState>, cs': seq<CallerState>, c: nat, e: nat)
    requires c < |cs| == |cs'| && cs' == cs[c := cs'[c]]
    ensures CallersCost(cs', e) - CallersCost(cs, e)
         == CallerCost(cs'[c].pc, cs'[c].left, e) - CallerCost(cs[c].pc, cs[c].left, e)
  {
    hide CallerCost;
    var n := |cs| - 1;
    if c < n {
      OneCallerCost(cs[..n], cs'[..n], c, e);
    } else {
      assert cs'[..n] == cs[..n];
    }
  }

  /** The history fields of callers cost nothing. */
  lemma {:induction false} SameLocalsSameCost(cs: seq<CallerState>, cs': seq<CallerState>, e: nat)
    requires |cs| == |cs'| && forall c :: 0 <= c < |cs| ==> SameLocals(cs[c], cs'[c])
    ensures CallersCost(cs', e) == CallersCost(cs, e)
  {
    hide CallerCost;
    var n := |cs| - 1;
    if n >= 0 {
      assert SameLocals(cs[n], cs'[n]);
      SameLocalsSameCost(cs[..n], cs'[..n], e);
    }
  }

  /** What the step of a worker costs or saves, events included. */
  lemma WorkerPays(pc: WorkerPc, pc': WorkerPc, e: nat, ready: bool, completed: bool)
    requires Goes(pc, pc') && !pc.Idle?
    requires pc'.Working? && pc.Starting? ==> pc'.left <= e
    requires pc.WaitingReady? ==> ready
    ensures WorkerCost(pc', e) + (if ready && !pc.WaitingReady? then 2 else 0)
            + (if completed || pc.SignallingFreed? || pc.SignallingKey? then 2 else 0)
          < WorkerCost(pc, e) + (if ready then 2 else 0) + (if completed then 2 else 0)
  {
  }

  lemma StartingEffort(cfg: Config, s: State, w: nat, scratch: Bytes)
    requires Shaped(cfg, s) && WorkerEnabled(cfg, s, w) && s.workers[w].pc.Starting?
    ensures WorkerStep(cfg, s, w, scratch).workers[w].pc.Working?
    ensures WorkerStep(cfg, s, w, scratch).workers[w].pc.left <= Effort(cfg.calls)
  {
    hide Slice; hide ItemSize; hide KeepsLocals;
  }

  lemma WorkerSpends(cfg: Config, s: State, w: nat, scratch: Bytes)
    requires RingInv(cfg, s) && WorkerEnabled(cfg, s, w)
    ensures Budget(cfg, WorkerStep(cfg, s, w, scratch)) < Budget(cfg, s)
  {
    hide Ring; hide ProgramOk; hide WorkerStep; hide WorkersCost; hide CallersCost; hide ValidCall; hide Effort; hide UntakenCost;
    var s' := WorkerStep(cfg, s, w, scratch);
    var e := Effort(cfg.calls);
    var pc, pc' := s.workers[w].pc, s'.workers[w].pc;
    WorkerStepFrame(cfg, s, w, scratch);
    WorkerStepSignals(cfg, s, w, scratch, 0);
    OneWorkerCost(s.workers, s'.workers, w, e);
    SameLocalsSameCost(s.callers, s'.callers, e);
    if pc.Idle? {
      IdleTakes(cfg, s, w, scratch);
      TakingPays(|s.log|, s.taken, e);
    } else {
      if pc.Starting? { StartingEffort(cfg, s, w, scratch); }
      WorkerPays(pc, pc', e, s.readyEvent, s.completedEvent);
    }
  }

  lemma IdleTakes(cfg: Config, s: State, w: nat, scratch: Bytes)
    requires RingInv(cfg, s) && WorkerEnabled(cfg, s, w) && s.workers[w].pc.Idle?
    ensures s.taken <= |s.log|
    ensures var s' := WorkerStep(cfg, s, w, scratch);
            s'.taken == s.taken + 1 && s'.log == s.log && s'.readyEvent == s.readyEvent && s'.completedEvent == s.completedEvent
  {
    hide CallerOk; hide TicketOk; hide WorkerOk; hide ItemOk; hide ProgramOk; hide KeepsLocals;
  }

  lemma TakingPays(posted: nat, taken: nat, e: nat)
    requires taken <= posted + 1
    ensures taken <= posted ==>
              UntakenCost(posted, taken + 1, e) + WorkerCost(Looking, e) < UntakenCost(posted, taken, e) + WorkerCost(Idle, e)
    ensures UntakenCost(posted + 1, taken, e) == UntakenCost(posted, taken, e) + ItemCost(e)
  {
    var n, i := posted + 1 - taken, ItemCost(e);
    assert (n + 1) * i == n * i + i;
    assert (n - 1) * i == n * i - i;
  }

  /** Where a caller can go from pc with `left` items still to be taken. */
  predicate CallerGoes(x: CallerState, y: CallerState) {
    match x.pc
    case Begin => (y.pc.CheckingFirst? && y.left <= MAX_THREAD_COUNT) || (y.pc.Taking? && y.left == 1) || y.pc.Done?
    case CheckingFirst => (y.pc.WaitingFirst? || y.pc.Taking?) && y.left == x.left
    case WaitingFirst => y.pc.CheckingFirst? && y.left == x.left
    case Taking => (y.pc.Checking? && x.left > 0 && y.left == x.left - 1) || y.pc.ReleasingEnqueue?
    case Checking => (y.pc.Filling? || y.pc.WaitingFree?) && y.left == x.left
    case WaitingFree => y.pc.Checking? && y.left == x.left
    case Filling => (y.pc.Clearing? || y.pc.Posting?) && y.left == x.left
    case Clearing => y.pc.Posting? && y.left == x.left
    case Posting => y.pc.SignallingReady? && y.left == x.left
    case SignallingReady => (y.pc.Taking? && y.left == x.left) || y.pc.ReleasingEnqueue?
    case ReleasingEnqueue => y.pc.AwaitingCompletion? || y.pc.Done?
    case AwaitingCompletion => y.pc.FreeingFirst?
    case FreeingFirst => y.pc.SignallingFirst?
    case SignallingFirst => y.pc.Done?
    case Done => false
  }

  lemma BeginCallGoes(cfg: Config, s: State, c: nat)
    requires Shaped(cfg, s) && c < |s.callers| && s.callers[c].pc.Begin? && 0 < cfg.threadCount <= MAX_THREAD_COUNT
    ensures CallerGoes(s.callers[c], BeginCall(cfg, s, c).callers[c])
  {
  }

  lemma OpenBatchGoes(cfg: Config, s: State, c: nat)
    requires Shaped(cfg, s) && c < |s.callers| && s.callers[c].pc.CheckingFirst?
    ensures CallerGoes(s.callers[c], OpenBatch(cfg, s, c).callers[c])
  {
    hide Below;
  }

  lemma ReserveItemGoes(cfg: Config, s: State, c: nat)
    requires Shaped(cfg, s) && c < |s.callers| && s.callers[c].pc.Taking? && s.callers[c].left > 0
    ensures CallerGoes(s.callers[c], ReserveItem(cfg, s, c).callers[c])
  {
  }

  lemma FillItemGoes(cfg: Config, s: State, c: nat)
    requires Shaped(cfg, s) && c < |s.callers| && s.callers[c].pc.Filling?
    ensures CallerGoes(s.callers[c], FillItem(cfg, s, c).callers[c])
  {
  }

  lemma PostItemGoes(cfg: Config, s: State, c: nat)
    requires Shaped(cfg, s) && c < |s.callers| && s.callers[c].pc.Posting?
    ensures CallerGoes(s.callers[c], PostItem(cfg, s, c).callers[c])
  {
  }

  lemma CallerStepGoes(cfg: Config, s: State, c: nat)
    requires Shaped(cfg, s) && CallerEnabled(cfg, s, c) && 0 < cfg.threadCount <= MAX_THREAD_COUNT
    ensures CallerGoes(s.callers[c], CallerStep(cfg, s, c).callers[c])
  {
    hide BeginCall; hide OpenBatch; hide ReserveItem; hide FillItem; hide FillKeyItem; hide PostItem;
    hide ConsumeCompletion; hide FreeFirstItem; hide ReleaseEnqueue;
    var me := s.callers[c];
    match me.pc
    case Begin => BeginCallGoes(cfg, s, c);
    case CheckingFirst => if s.queue[me.first].state == WorkItemFree { OpenBatchGoes(cfg, s, c); }
    case Taking => if me.left > 0 { ReserveItemGoes(cfg, s, c); }
    case Filling => if !cfg.calls[c].IsDerivation() { FillItemGoes(cfg, s, c); }
    case Posting => PostItemGoes(cfg, s, c);
    case _ =>
  }

  lemma CallerPays(x: CallerState, y: CallerState, e: nat, ready: bool, completed: bool)
    requires CallerGoes(x, y)
    requires x.pc.WaitingFirst? || x.pc.WaitingFree? ==> completed
    ensures CallerCost(y.pc, y.left, e) + (if x.pc.Posting? then ItemCost(e) else 0)
            + (if ready || x.pc.SignallingReady? then 2 else 0)
            + (if (completed && !x.pc.WaitingFirst? && !x.pc.WaitingFree?) || x.pc.SignallingFirst? then 2 else 0)
          < CallerCost(x.pc, x.left, e) + (if ready then 2 else 0) + (if completed then 2 else 0)
  {
    if x.pc.Begin? && !y.pc.Done? {
      LeftCost(y.left, MAX_THREAD_COUNT, e);
    } else if x.pc.Taking? && x.left > 0 {
      LeftCost(x.left - 1, x.left, e);
    }
  }

  lemma LeftCost(a: nat, b: nat, e: nat)
    requires a <= b
    ensures a * PostCost(e) <= b * PostCost(e)
    ensures a < b ==> a * PostCost(e) + PostCost(e) <= b * PostCost(e)
  {
    if a < b {
      assert (b - a - 1) * PostCost(e) >= 0;
      assert b * PostCost(e) == a * PostCost(e) + PostCost(e) + (b - a - 1) * PostCost(e);
    }
  }

  lemma CallerSpends(cfg: Config, s: State, c: nat)
    requires RingInv(cfg, s) && CallerEnabled(cfg, s, c)
    ensures Budget(cfg, CallerStep(cfg, s, c)) < Budget(cfg, s)
  {
    hide Ring; hide ProgramOk; hide CallerStep; hide WorkersCost; hide CallersCost; hide ValidCall; hide Effort; hide CallerCost; hide ItemCost; hide UntakenCost;
    hide CallerGoes;
    var s' := CallerStep(cfg, s, c);
    var e := Effort(cfg.calls);
    CallerStepFrame(cfg, s, c);
    CallerStepSignals(cfg, s, c, 0);
    CallerStepGoes(cfg, s, c);
    OneCallerCost(s.callers, s'.callers, c, e);
    CallerPays(s.callers[c], s'.callers[c], e, s.readyEvent, s.completedEvent);
    TakenBound(cfg, s);
    TakingPays(|s.log|, s.taken, e);
  }

  lemma TakenBound(cfg: Config, s: State)
    requires RingInv(cfg, s)
    ensures s.taken <= |s.log| + 1
  {
    hide CallerOk; hide TicketOk; hide WorkerOk; hide ItemOk; hide ProgramOk;
  }

  lemma NextSpends(cfg: Config, s: State, s': State)
    requires RingInv(cfg, s) && Next(cfg, s, s')
    ensures Budget(cfg, s') < Budget(cfg, s)
  {
    hide RingInv; hide WorkerStep; hide CallerStep; hide Budget; hide WorkerEnabled; hide CallerEnabled;
    if w, scratch :| WorkerEnabled(cfg, s, w) && s' == WorkerStep(cfg, s, w, scratch) {
      WorkerSpends(cfg, s, w, scratch);
    } else {
      var c :| CallerEnabled(cfg, s, c) && s' == CallerStep(cfg, s, c);
      CallerSpends(cfg, s, c);
    }
  }

  /** Main result: no run is longer than the budget the pool starts with. */
  lemma {:induction false} RunsAreFinite(cfg: Config, run: seq<State>)
    requires ValidConfig(cfg) && IsRun(cfg, run)
    ensures |run| + Budget(cfg, run[|run| - 1]) <= Budget(cfg, Start(cfg)) + 1
  {
    hide Budget; hide Next; hide ValidConfig;
    if |run| > 1 {
      RunsAreFinite(cfg, run[..|run| - 1]);
      RunRing(cfg, run[..|run| - 1]);
      NextSpends(cfg, run[|run| - 2], run[|run| - 1]);
    }
  }

  ghost predicate AllDone(s: State) {
    forall c :: 0 <= c < |s.callers| ==> s.callers[c].pc.Done?
  }

  /** Main result: whatever the scheduler does, every run can be extended, and only finitely often, until no thread can
      take a step. */
  lemma {:induction false} EveryRunCompletes(cfg: Config, run: seq<State>) returns (full: seq<State>)
    requires ValidConfig(cfg) && IsRun(cfg, run)
    ensures IsRun(cfg, full) && run <= full
    ensures Stopped(cfg, full[|full| - 1]) && !Unfinished(full[|full| - 1])
    decreases Budget(cfg, run[|run| - 1])
  {
    hide Budget; hide Next; hide ValidConfig; hide RingInv; hide Unfinished;
    var s := run[|run| - 1];
    RunRing(cfg, run);
    if Stopped(cfg, s) {
      full := run;
      if Unfinished(s) { NoDeadlock(cfg, s); }
    } else {
      var s' :| Next(cfg, s, s');
      NextSpends(cfg, s, s');
      full := EveryRunCompletes(cfg, run + [s']);
    }
  }

  /** A state in which nothing is left to do: all calls have returned and all items are free again. */
  lemma AllRetired(cfg: Config, s: State, t: nat)
    requires RingInv(cfg, s) && !Unfinished(s) && t < |s.log|
    ensures s.log[t].phase.Retired?
  {
    hide LocksOk; hide CallerOk; hide WorkerOk; hide ItemOk; hide ProgramOk; hide TicketItemOk; hide LapOk; hide Items;
    assert TicketOk(cfg, s, t);
  }

  /** A derivation whose ticket is retired has set its flag and is not outstanding. */
  lemma DerivationDone(cfg: Config, s: State, c: nat)
    requires RingInv(cfg, s) && Keys(cfg, s) && !Unfinished(s) && c < |s.callers| && cfg.calls[c].IsDerivation()
    ensures s.completionFlags[c] && c !in s.outstandingKeys
  {
    hide Ring; hide Unfinished; hide TicketOk; hide AtFragment; hide CountOk; hide EventsOk;
    RingIsShaped(cfg, s);
    DoneAll(s, c);
    assert ProgramOk(cfg, cfg.calls[c], s.callers[c]) && KeyOk(cfg, s, c);
    KeyTicket(cfg, s, c);
    AllRetired(cfg, s, s.callers[c].firstTicket);
  }

  lemma DoneAll(s: State, c: nat)
    requires !Unfinished(s) && c < |s.callers|
    ensures s.callers[c].pc.Done?
  {
  }

  lemma NothingOutstanding(cfg: Config, s: State)
    requires RingInv(cfg, s) && Keys(cfg, s) && !Unfinished(s)
    ensures s.outstandingKeys == {} && s.outstandingWorkItemCount == 0
  {
    hide Ring; hide Unfinished; hide EventsOk; hide ProgramOk;
    forall c: nat ensures c !in s.outstandingKeys {
      if c in s.outstandingKeys {
        assert KeyOk(cfg, s, c);
        DerivationDone(cfg, s, c);
      }
    }
  }

  lemma NoKeySteps(cfg: Config, s: State)
    requires RingInv(cfg, s) && Blocked(cfg, s) && EventsOk(s) && s.outstandingWorkItemCount == 0
    ensures s.noOutstandingWorkItemEvent
    ensures forall c :: 0 <= c < |s.completionFlags| && s.completionFlags[c] ==> s.completionEvent
  {
    BlockedWorkers(cfg, s);
    hide RingInv; hide Blocked;
  }

  /** Main result: when no thread can take a step, every request has been carried out, derivations too: every call has
      returned, all items are free, every buffer is what one sequential call leaves, and every derivation has been
      announced and uncounted. */
  lemma StoppedMeansFinished(cfg: Config, run: seq<State>)
    requires ValidConfig(cfg) && IsRun(cfg, run) && Stopped(cfg, run[|run| - 1])
    ensures var s := run[|run| - 1];
            && Shaped(cfg, s) && AllDone(s)
            && (forall t :: 0 <= t < |s.log| ==> s.log[t].phase.Retired?)
            && (forall c :: 0 <= c < |s.callers| ==> s.memory[c] == SequentialResult(cfg.calls[c]))
            && (forall c :: 0 <= c < |s.callers| && cfg.calls[c].IsDerivation() ==> s.completionFlags[c] && s.completionEvent)
            && s.outstandingWorkItemCount == 0 && s.noOutstandingWorkItemEvent
  {
    hide Next; hide RingInv; hide SequentialResult; hide Keys; hide Unfinished; hide Blocked; hide Stopped;
    var s := run[|run| - 1];
    RunKeys(cfg, run);
    RingIsShaped(cfg, s);
    StoppedIsFinished(cfg, s);
    StoppedIsBlocked(cfg, s);
    NothingOutstanding(cfg, s);
    KeysEvents(cfg, s);
    NoKeySteps(cfg, s);
    forall t: nat | t < |s.log| ensures s.log[t].phase.Retired? { AllRetired(cfg, s, t); }
    forall c: nat | c < |s.callers|
      ensures s.callers[c].pc.Done? && s.memory[c] == SequentialResult(cfg.calls[c])
      ensures cfg.calls[c].IsDerivation() ==> s.completionFlags[c]
    {
      DoneAll(s, c);
      if cfg.calls[c].IsDerivation() {
        DerivationDone(cfg, s, c);
        FlagMeansDerived(cfg, s, c);
      } else {
        ReturnedBufferIsSequential(cfg, s, c);
      }
    }
  }

  lemma StoppedIsFinished(cfg: Config, s: State)
    requires ValidConfig(cfg) && Reachable(cfg, s) && Stopped(cfg, s)
    ensures !Unfinished(s)
  {
    hide Next; hide Unfinished;
    if Unfinished(s) { NoDeadlock(cfg, s); }
  }

  lemma KeysEvents(cfg: Config, s: State)
    requires Shaped(cfg, s) && Keys(cfg, s)
    ensures EventsOk(s)
  {
  }
}
