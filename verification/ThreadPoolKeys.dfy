/** Book-keeping of key derivations: the number outstanding, completion flags, and the two events that
    EncryptionThreadPoolBeginKeyDerivation is given. */
module ThreadPoolKeys {
  import opened ThreadPoolModel
  import opened ThreadPoolInvariant
  import opened ThreadPoolProgram
  import opened ThreadPoolRing
  import opened ThreadPoolSafety
  import opened ThreadPoolFrame
  import opened ThreadPoolData

  /** A worker that holds an item is still to decrement the number of outstanding derivations. */
  predicate Uncounted(pc: WorkerPc) { !pc.LastKey? && !pc.FreeingKey? }

  predicate PhasePending(s: State, p: Phase) {
    match p
    case Posted => true
    case Held(w) => w < |s.workers| && Uncounted(s.workers[w].pc)
    case _ => false
  }

  /** Derivation c has been counted as outstanding, and not uncounted. */
  predicate KeyPending(s: State, c: nat)
    requires c < |s.callers|
  {
    var me := s.callers[c];
    || me.pc.Clearing? || me.pc.Posting?
    || (me.posted > 0 && me.firstTicket < |s.log| && PhasePending(s, s.log[me.firstTicket].phase))
  }

  /** The worker of the item has set the completion flag. */
  predicate PhaseFlagged(s: State, p: Phase) {
    match p
    case Held(w) => w < |s.workers| && (s.workers[w].pc.Announcing? || s.workers[w].pc.Uncounting? || !Uncounted(s.workers[w].pc))
    case Retired => true
    case _ => false
  }

  predicate KeyFlagged(s: State, c: nat)
    requires c < |s.callers|
  {
    var me := s.callers[c];
    me.posted > 0 && me.firstTicket < |s.log| && PhaseFlagged(s, s.log[me.firstTicket].phase)
  }

  predicate KeyOk(cfg: Config, s: State, c: nat)
    requires Shaped(cfg, s) && c < |s.callers|
  {
    && (c in s.outstandingKeys <==> cfg.calls[c].IsDerivation() && KeyPending(s, c))
    && (cfg.calls[c].IsDerivation() && KeyFlagged(s, c) ==> s.completionFlags[c])
  }

  predicate CountOk(s: State) {
    && s.outstandingWorkItemCount == |s.outstandingKeys|
    && (forall c :: c in s.outstandingKeys ==> c < |s.callers|)
  }

  /** A derivation that has been completed has been announced, or is just about to be; when none is outstanding, that
      has been said, or is just about to be. */
  predicate EventsOk(s: State) {
    && (s.outstandingWorkItemCount == 0 ==> s.noOutstandingWorkItemEvent || exists w :: 0 <= w < |s.workers| && s.workers[w].pc.LastKey?)
    && (forall c :: 0 <= c < |s.completionFlags| && s.completionFlags[c] ==>
                      s.completionEvent || exists w :: 0 <= w < |s.workers| && s.workers[w].pc.Announcing?)
  }

  ghost predicate Keys(cfg: Config, s: State)
    requires Shaped(cfg, s)
  {
    && (forall c :: 0 <= c < |s.callers| ==> KeyOk(cfg, s, c))
    && CountOk(s)
    && EventsOk(s)
  }

  // ---- Steps of a worker ----

  /** What a step of worker w does to the book-keeping. */
  predicate WorkerKeys(s: State, s': State, w: nat)
    requires w < |s.workers| && s.workers[w].item < |s.queue| && |s'.workers| == |s.workers|
  {
    var pc, pc', call := s.workers[w].pc, s'.workers[w].pc, MyItem(s, w).call;
    && s'.outstandingKeys == (if pc.Uncounting? then s.outstandingKeys - {call} else s.outstandingKeys)
    && s'.outstandingWorkItemCount == s.outstandingWorkItemCount - (if pc.Uncounting? then 1 else 0)
    && (pc.Uncounting? ==> if s'.outstandingWorkItemCount == 0 then pc'.LastKey? else pc'.FreeingKey?)
    && (s'.noOutstandingWorkItemEvent <==> s.noOutstandingWorkItemEvent || pc.LastKey?)
    && (s'.completionEvent <==> s.completionEvent || pc.Announcing?)
    && |s'.completionFlags| == |s.completionFlags|
    && (forall c :: 0 <= c < |s.completionFlags| ==> (s'.completionFlags[c] <==> s.completionFlags[c] || (pc.Flagging? && c == call)))
  }

  lemma FlaggingKeys(cfg: Config, s: State, w: nat, scratch: Bytes)
    requires Shaped(cfg, s) && WorkerEnabled(cfg, s, w) && s.workers[w].pc.Flagging?
    ensures WorkerKeys(s, WorkerStep(cfg, s, w, scratch), w)
  {
    hide KeepsLocals;
  }

  lemma KeyStepKeys(cfg: Config, s: State, w: nat, scratch: Bytes)
    requires Shaped(cfg, s) && WorkerEnabled(cfg, s, w) && KeyPc(s.workers[w].pc) && !s.workers[w].pc.Flagging?
    ensures WorkerKeys(s, WorkerStep(cfg, s, w, scratch), w)
  {
    hide KeepsLocals;
    match s.workers[w].pc
    case Announcing =>
    case Uncounting =>
    case LastKey =>
  }

  predicate SameKeys(s: State, s': State) {
    && s'.outstandingKeys == s.outstandingKeys && s'.outstandingWorkItemCount == s.outstandingWorkItemCount
    && s'.noOutstandingWorkItemEvent == s.noOutstandingWorkItemEvent && s'.completionEvent == s.completionEvent
    && s'.completionFlags == s.completionFlags
  }

  lemma ClaimItemKeys(cfg: Config, s: State, w: nat)
    requires Shaped(cfg, s) && w < |s.workers| && s.workers[w].pc.Claiming?
    ensures SameKeys(s, ClaimItem(cfg, s, w))
  {
  }

  lemma FreeOwnItemKeys(cfg: Config, s: State, w: nat)
    requires Shaped(cfg, s) && w < |s.workers| && s.workers[w].pc.Freeing?
    ensures SameKeys(s, FreeOwnItem(cfg, s, w))
  {
  }

  lemma FreeKeyItemKeys(cfg: Config, s: State, w: nat)
    requires Shaped(cfg, s) && w < |s.workers| && s.workers[w].pc.FreeingKey?
    ensures SameKeys(s, FreeKeyItem(cfg, s, w))
  {
  }

  lemma CountFragmentKeys(cfg: Config, s: State, w: nat)
    requires Shaped(cfg, s) && w < |s.workers| && (s.workers[w].pc.CountingFirst? || s.workers[w].pc.Counting?)
    ensures SameKeys(s, CountFragment(cfg, s, w))
  {
  }

  lemma CompleteBatchKeys(cfg: Config, s: State, w: nat)
    requires Shaped(cfg, s) && w < |s.workers| && s.workers[w].pc.Completing?
    ensures SameKeys(s, CompleteBatch(cfg, s, w))
  {
  }

  lemma WorkingKeys(cfg: Config, s: State, w: nat, scratch: Bytes)
    requires Shaped(cfg, s) && WorkerEnabled(cfg, s, w) && s.workers[w].pc.Working?
    ensures SameKeys(s, WorkerStep(cfg, s, w, scratch))
  {
    hide KeepsLocals; hide ItemSize; hide Overwrite;
  }

  predicate KeyPc(pc: WorkerPc) { pc.Flagging? || pc.Announcing? || pc.Uncounting? || pc.LastKey? }

  lemma OtherStepKeys(cfg: Config, s: State, w: nat, scratch: Bytes)
    requires Shaped(cfg, s) && WorkerEnabled(cfg, s, w) && !KeyPc(s.workers[w].pc)
    ensures SameKeys(s, WorkerStep(cfg, s, w, scratch))
  {
    hide KeepsLocals; hide Slice; hide ItemSize; hide Overwrite; hide ClaimItem; hide FreeOwnItem; hide FreeKeyItem;
    hide CountFragment; hide CompleteBatch; hide FinishItem; hide Scribble;
    match s.workers[w].pc
    case Claiming => ClaimItemKeys(cfg, s, w);
    case Freeing => FreeOwnItemKeys(cfg, s, w);
    case FreeingKey => FreeKeyItemKeys(cfg, s, w);
    case CountingFirst => CountFragmentKeys(cfg, s, w);
    case Counting => CountFragmentKeys(cfg, s, w);
    case Completing => CompleteBatchKeys(cfg, s, w);
    case Working(left) => WorkingKeys(cfg, s, w, scratch);
    case Idle =>
    case Looking =>
    case WaitingReady =>
    case ReleasingDequeue =>
    case Starting =>
    case SignallingFreed =>
    case SignallingKey =>
  }

  lemma WorkerStepKeys(cfg: Config, s: State, w: nat, scratch: Bytes)
    requires Shaped(cfg, s) && WorkerEnabled(cfg, s, w)
    ensures WorkerKeys(s, WorkerStep(cfg, s, w, scratch), w)
  {
    hide WorkerStep; hide KeepsLocals;
    if s.workers[w].pc.Flagging? { FlaggingKeys(cfg, s, w, scratch); }
    else if KeyPc(s.workers[w].pc) { KeyStepKeys(cfg, s, w, scratch); }
    else { OtherStepKeys(cfg, s, w, scratch); }
  }

  /** The ticket of a derivation, once it is posted. */
  lemma KeyTicket(cfg: Config, s: State, c: nat)
    requires RingInv(cfg, s) && c < |s.callers| && cfg.calls[c].IsDerivation() && s.callers[c].posted > 0
    ensures s.callers[c].posted == 1 && !s.callers[c].pc.Clearing? && !s.callers[c].pc.Posting?
    ensures var t := s.callers[c].firstTicket;
            && t < |s.log| && s.log[t].call == c
            && TicketOk(cfg, s, t)
            && forall u: nat :: u < |s.log| && s.log[u].call == c ==> u == t
  {
    hide RegionStart; hide RegionUnitNo; hide FragmentSize; hide Carries; hide BatchOk; hide ItemOk; hide LocksOk; hide WorkerOk;
    hide TicketItemOk; hide TicketCountOk; hide LapOk; hide TicketWorkerOk;
    assert CallerOk(cfg, s, c) && ProgramOk(cfg, cfg.calls[c], s.callers[c]);
    assert Mine(s, c, s.callers[c].firstTicket, 0);
    KeyIsOneItem(cfg, cfg.calls[c]);
    forall u: nat | u < |s.log| && s.log[u].call == c ensures u == s.callers[c].firstTicket {
      assert TicketOk(cfg, s, u);
    }
    assert TicketOk(cfg, s, s.callers[c].firstTicket);
  }

  lemma KeyIsOneItem(cfg: Config, call: Call)
    requires call.IsDerivation()
    ensures Items(cfg, call) == 1
  {
  }

  /** The worker of a ticket in phase Held is the one that holds it. */
  lemma HolderOf(cfg: Config, s: State, t: nat)
    requires RingInv(cfg, s) && t < |s.log| && TicketOk(cfg, s, t) && s.log[t].phase.Held?
    ensures var x := s.log[t].phase.w; x < |s.workers| && s.workers[x].ticket == t && RoleOf(s.workers[x].pc).Holding?
  {
    hide TicketItemOk; hide TicketCountOk; hide LapOk; hide LocksOk; hide CallerOk; hide WorkerOk; hide ItemOk; hide ProgramOk;
  }

  /** Only the step that decrements the count ends that a derivation is outstanding. */
  lemma TicketGoes(cfg: Config, s: State, s': State, w: nat, t: nat)
    requires RingInv(cfg, s) && RingInv(cfg, s') && w < |s.workers| && WorkerFrame(s, s', w)
    requires t < |s.log| == |s'.log| && TicketOk(cfg, s, t) && TicketOk(cfg, s', t)
    requires s.log[t].call < |cfg.calls| && s.log[t].call == s'.log[t].call && cfg.calls[s.log[t].call].IsDerivation()
    ensures var own := RoleOf(s.workers[w].pc).Holding? && s.workers[w].ticket == t;
            && (PhasePending(s', s'.log[t].phase) <==> PhasePending(s, s.log[t].phase) && !(own && s.workers[w].pc.Uncounting?))
            && (PhaseFlagged(s', s'.log[t].phase) ==> PhaseFlagged(s, s.log[t].phase) || (own && s.workers[w].pc.Flagging?))
  {
    hide TicketItemOk; hide TicketCountOk; hide LapOk; hide LocksOk; hide CallerOk; hide ItemOk; hide ProgramOk; hide Items;
    if s.log[t].phase.Held? { HolderOf(cfg, s, t); }
    if s'.log[t].phase.Held? { HolderOf(cfg, s', t); }
    assert WorkerOk(cfg, s, w) && WorkerOk(cfg, s', w);
  }

  /** A worker at one of the steps that only follow a derivation. */
  lemma HeldKey(cfg: Config, s: State, w: nat)
    requires RingInv(cfg, s) && w < |s.workers| && KeyPc(s.workers[w].pc)
    ensures var c := MyItem(s, w).call;
            && c < |s.callers| && cfg.calls[c].IsDerivation() && s.callers[c].posted > 0
            && s.callers[c].firstTicket == s.workers[w].ticket < |s.log| && s.log[s.workers[w].ticket].phase == Held(w)
            && s.log[s.workers[w].ticket].call == c
  {
    hide RegionStart; hide RegionUnitNo; hide FragmentSize; hide FragmentCount; hide Carries; hide BatchOk; hide ItemOk;
    hide LocksOk; hide TicketCountOk; hide LapOk;
    HeldRegion(cfg, s, w);
    assert WorkerOk(cfg, s, w);
    KeyTicket(cfg, s, MyItem(s, w).call);
  }

  lemma WorkerKeyOk(cfg: Config, s: State, w: nat, scratch: Bytes, c: nat)
    requires RingInv(cfg, s) && Keys(cfg, s) && WorkerEnabled(cfg, s, w) && c < |s.callers|
    requires RingInv(cfg, WorkerStep(cfg, s, w, scratch))
    ensures KeyOk(cfg, WorkerStep(cfg, s, w, scratch), c)
  {
    hide Ring; hide ProgramInv; hide WorkerStep; hide PhasePending; hide PhaseFlagged; hide CountOk; hide EventsOk; hide Goes; hide PhaseGoes; hide TicketOk;
    RingIsShaped(cfg, s);
    var s' := WorkerStep(cfg, s, w, scratch);
    WorkerStepFrame(cfg, s, w, scratch);
    WorkerStepKeys(cfg, s, w, scratch);
    assert KeyOk(cfg, s, c) && SameLocals(s.callers[c], s'.callers[c]);
    if KeyPc(s.workers[w].pc) { HeldKey(cfg, s, w); }
    if cfg.calls[c].IsDerivation() && s.callers[c].posted > 0 {
      KeyTicket(cfg, s, c);
      KeyTicket(cfg, s', c);
      TicketGoes(cfg, s, s', w, s.callers[c].firstTicket);
    }
  }

  lemma Removed(keys: set<nat>, c: nat)
    requires c in keys
    ensures |keys - {c}| == |keys| - 1
  {
  }

  lemma WorkerCount(cfg: Config, s: State, w: nat, scratch: Bytes)
    requires RingInv(cfg, s) && Keys(cfg, s) && WorkerEnabled(cfg, s, w)
    ensures CountOk(WorkerStep(cfg, s, w, scratch))
  {
    hide Ring; hide ProgramInv; hide WorkerStep; hide EventsOk;
    RingIsShaped(cfg, s);
    WorkerStepFrame(cfg, s, w, scratch);
    WorkerStepKeys(cfg, s, w, scratch);
    if s.workers[w].pc.Uncounting? {
      HeldKey(cfg, s, w);
      assert KeyOk(cfg, s, MyItem(s, w).call);
      Removed(s.outstandingKeys, MyItem(s, w).call);
    }
  }

  lemma WorkerEvents(cfg: Config, s: State, w: nat, scratch: Bytes)
    requires RingInv(cfg, s) && Keys(cfg, s) && WorkerEnabled(cfg, s, w)
    ensures EventsOk(WorkerStep(cfg, s, w, scratch))
  {
    hide Ring; hide ProgramInv; hide WorkerStep; hide KeyOk; hide CountOk; hide PhaseGoes; hide LogFrame;
    RingIsShaped(cfg, s);
    var s' := WorkerStep(cfg, s, w, scratch);
    WorkerStepFrame(cfg, s, w, scratch);
    WorkerStepKeys(cfg, s, w, scratch);
    assert s.workers[w].pc.Uncounting? || s.workers[w].pc.Flagging? ==> s'.workers[w] == s'.workers[w];
    if !s'.noOutstandingWorkItemEvent && s'.outstandingWorkItemCount == 0 && !s.workers[w].pc.Uncounting? {
      var x :| 0 <= x < |s.workers| && s.workers[x].pc.LastKey?;
      assert s'.workers[x].pc.LastKey?;
    }
    forall c | 0 <= c < |s'.completionFlags| && s'.completionFlags[c] && !s'.completionEvent
      ensures exists x :: 0 <= x < |s'.workers| && s'.workers[x].pc.Announcing?
    {
      if s.workers[w].pc.Flagging? {
        assert s'.workers[w].pc.Announcing?;
      } else {
        var x :| 0 <= x < |s.workers| && s.workers[x].pc.Announcing?;
        assert s'.workers[x].pc.Announcing?;
      }
    }
  }

  lemma WorkerKeepsKeys(cfg: Config, s: State, w: nat, scratch: Bytes)
    requires RingInv(cfg, s) && Keys(cfg, s) && WorkerEnabled(cfg, s, w)
    requires RingInv(cfg, WorkerStep(cfg, s, w, scratch))
    ensures Keys(cfg, WorkerStep(cfg, s, w, scratch))
  {
    hide Ring; hide ProgramInv; hide WorkerStep; hide KeyOk; hide CountOk; hide EventsOk;
    RingIsShaped(cfg, s);
    var s' := WorkerStep(cfg, s, w, scratch);
    forall c: nat | c < |s'.callers| ensures KeyOk(cfg, s', c) { WorkerKeyOk(cfg, s, w, scratch, c); }
    WorkerCount(cfg, s, w, scratch);
    WorkerEvents(cfg, s, w, scratch);
  }

  // ---- Steps of a caller ----

  /** What a step of caller c does to the book-keeping. */
  predicate CallerKeys(cfg: Config, s: State, s': State, c: nat)
    requires Shaped(cfg, s) && Shaped(cfg, s') && c < |s.callers|
  {
    var pc, pc' := s.callers[c].pc, s'.callers[c].pc;
    var counts := pc.Filling? && cfg.calls[c].IsDerivation();
    && s'.outstandingKeys == (if counts then s.outstandingKeys + {c} else s.outstandingKeys)
    && s'.outstandingWorkItemCount == s.outstandingWorkItemCount + (if counts then 1 else 0)
    && (s'.noOutstandingWorkItemEvent <==> s.noOutstandingWorkItemEvent && !pc.Clearing?)
    && s'.completionEvent == s.completionEvent
    && (counts ==> pc'.Clearing?)
    && (pc.Clearing? ==> pc'.Posting?)
    && (pc'.Clearing? ==> counts)
    && (cfg.calls[c].IsDerivation() && pc'.Posting? ==> pc.Clearing?)
    && (pc.Posting? ==> pc'.SignallingReady?)
  }

  lemma BeginCallKeys(cfg: Config, s: State, c: nat)
    requires Shaped(cfg, s) && c < |s.callers| && s.callers[c].pc.Begin? && cfg.threadCount > 0
    ensures CallerKeys(cfg, s, BeginCall(cfg, s, c), c)
  {
    hide Call.UnitCount;
  }

  lemma ItemKeys(cfg: Config, s: State, c: nat)
    requires Shaped(cfg, s) && c < |s.callers|
    ensures s.callers[c].pc.CheckingFirst? ==> CallerKeys(cfg, s, OpenBatch(cfg, s, c), c)
    ensures s.callers[c].pc.Taking? && s.callers[c].left > 0 ==> CallerKeys(cfg, s, ReserveItem(cfg, s, c), c)
    ensures s.callers[c].pc.Posting? ==> CallerKeys(cfg, s, PostItem(cfg, s, c), c)
  {
    hide Below; hide Advance;
  }

  lemma FillKeys(cfg: Config, s: State, c: nat)
    requires Shaped(cfg, s) && c < |s.callers| && s.callers[c].pc.Filling?
    ensures cfg.calls[c].IsDerivation() ==> CallerKeys(cfg, s, FillKeyItem(cfg, s, c), c)
    ensures !cfg.calls[c].IsDerivation() ==> CallerKeys(cfg, s, FillItem(cfg, s, c), c)
  {
  }

  lemma LeaveKeys(cfg: Config, s: State, c: nat)
    requires Shaped(cfg, s) && c < |s.callers|
    ensures s.callers[c].pc.ReleasingEnqueue? ==> CallerKeys(cfg, s, ReleaseEnqueue(cfg, s, c), c)
    ensures s.callers[c].pc.AwaitingCompletion? ==> CallerKeys(cfg, s, ConsumeCompletion(cfg, s, c), c)
    ensures s.callers[c].pc.FreeingFirst? ==> CallerKeys(cfg, s, FreeFirstItem(cfg, s, c), c)
  {
  }

  lemma CallerStepKeys(cfg: Config, s: State, c: nat)
    requires Shaped(cfg, s) && CallerEnabled(cfg, s, c) && cfg.threadCount > 0
    ensures CallerKeys(cfg, s, CallerStep(cfg, s, c), c)
  {
    hide BeginCall; hide OpenBatch; hide ReserveItem; hide FillItem; hide FillKeyItem; hide PostItem;
    hide ConsumeCompletion; hide FreeFirstItem; hide ReleaseEnqueue;
    var me := s.callers[c];
    match me.pc
    case Begin => BeginCallKeys(cfg, s, c);
    case CheckingFirst => ItemKeys(cfg, s, c);
    case Taking => ItemKeys(cfg, s, c);
    case Posting => ItemKeys(cfg, s, c);
    case Filling => FillKeys(cfg, s, c);
    case ReleasingEnqueue => LeaveKeys(cfg, s, c);
    case AwaitingCompletion => LeaveKeys(cfg, s, c);
    case FreeingFirst => LeaveKeys(cfg, s, c);
    case _ =>
  }

  /** What a derivation does at each step of its caller. */
  lemma DerivationStep(cfg: Config, s: State, c: nat)
    requires RingInv(cfg, s) && c < |s.callers| && CallerEnabled(cfg, s, c)
    ensures cfg.calls[c].IsDerivation() && HasItem(StageOf(s.callers[c].pc)) ==> s.callers[c].posted == 0
    ensures s.callers[c].pc.Posting? ==> s.callers[c].firstTicket + s.callers[c].posted == |s.log|
    ensures s.callers[c].pc.Begin? ==> s.callers[c].posted == 0
    ensures s.callers[c].pc.FreeingFirst? ==> !cfg.calls[c].IsDerivation()
  {
    hide RegionStart; hide RegionUnitNo; hide FragmentSize; hide Carries; hide BatchOk; hide ItemOk; hide LocksOk; hide TicketOk; hide WorkerOk;
    assert CallerOk(cfg, s, c) && ProgramOk(cfg, cfg.calls[c], s.callers[c]);
  }

  lemma CallerKeyOk(cfg: Config, s: State, c: nat, b: nat)
    requires RingInv(cfg, s) && Keys(cfg, s) && CallerEnabled(cfg, s, c) && c < |s.callers| && b < |s.callers|
    ensures KeyOk(cfg, CallerStep(cfg, s, c), b)
  {
    hide Ring; hide ProgramInv; hide CallerStep; hide CountOk; hide EventsOk; hide TicketOk; hide CallerEnabled;
    RingIsShaped(cfg, s);
    var s' := CallerStep(cfg, s, c);
    CallerStepFrame(cfg, s, c);
    CallerStepKeys(cfg, s, c);
    DerivationStep(cfg, s, c);
    assert KeyOk(cfg, s, b);
    if cfg.calls[b].IsDerivation() && s.callers[b].posted > 0 { KeyTicket(cfg, s, b); }
    if s.callers[c].pc.FreeingFirst? { PartingFirst(cfg, s, c); }
  }

  lemma CallerKeepsKeys(cfg: Config, s: State, c: nat)
    requires RingInv(cfg, s) && Keys(cfg, s) && CallerEnabled(cfg, s, c) && c < |s.callers|
    ensures Keys(cfg, CallerStep(cfg, s, c))
  {
    hide Ring; hide ProgramInv; hide CallerStep; hide KeyOk; hide TicketOk; hide CallerEnabled;
    RingIsShaped(cfg, s);
    var s' := CallerStep(cfg, s, c);
    CallerStepFrame(cfg, s, c);
    CallerStepKeys(cfg, s, c);
    NotYetOutstanding(cfg, s, c);
    forall b: nat | b < |s'.callers| ensures KeyOk(cfg, s', b) { CallerKeyOk(cfg, s, c, b); }
  }

  lemma NotYetOutstanding(cfg: Config, s: State, c: nat)
    requires RingInv(cfg, s) && Keys(cfg, s) && CallerEnabled(cfg, s, c) && c < |s.callers|
    ensures s.callers[c].pc.Filling? && cfg.calls[c].IsDerivation() ==> c !in s.outstandingKeys
    ensures s.callers[c].pc.Clearing? ==> c in s.outstandingKeys
  {
    hide Ring; hide CallerEnabled; hide AtFragment; hide RegionStart; hide RegionUnitNo; hide FragmentSize;
    RingIsShaped(cfg, s);
    DerivationStep(cfg, s, c);
    assert KeyOk(cfg, s, c) && ProgramOk(cfg, cfg.calls[c], s.callers[c]);
  }

  // ---- Runs ----

  lemma StartKeys(cfg: Config)
    requires ValidConfig(cfg)
    ensures Keys(cfg, Start(cfg))
  {
    hide ValidCall;
  }

  lemma KeysNext(cfg: Config, s: State, s': State)
    requires RingInv(cfg, s) && Keys(cfg, s) && Next(cfg, s, s')
    ensures RingInv(cfg, s') && Keys(cfg, s')
  {
    hide Ring; hide ProgramInv; hide WorkerStep; hide CallerStep; hide KeyOk; hide CountOk; hide EventsOk;
    RingNext(cfg, s, s');
    if w, scratch :| WorkerEnabled(cfg, s, w) && s' == WorkerStep(cfg, s, w, scratch) {
      WorkerKeepsKeys(cfg, s, w, scratch);
    } else {
      var c :| CallerEnabled(cfg, s, c) && s' == CallerStep(cfg, s, c);
      CallerKeepsKeys(cfg, s, c);
    }
  }

  lemma {:induction false} RunKeys(cfg: Config, run: seq<State>)
    requires ValidConfig(cfg) && IsRun(cfg, run)
    ensures RingInv(cfg, run[|run| - 1]) && Keys(cfg, run[|run| - 1])
  {
    hide Ring; hide ProgramInv; hide Keys; hide Next;
    if |run| == 1 {
      StartRing(cfg);
      StartKeys(cfg);
    } else {
      RunKeys(cfg, run[..|run| - 1]);
      KeysNext(cfg, run[|run| - 2], run[|run| - 1]);
    }
  }

  /** Main result: in every reachable state the shared count is the number of derivations that have been counted and
      whose worker has not uncounted them; who uncounts the last one says so. */
  lemma OutstandingIsExact(cfg: Config, s: State)
    requires ValidConfig(cfg) && Reachable(cfg, s)
    ensures Shaped(cfg, s) && s.outstandingWorkItemCount == |s.outstandingKeys|
    ensures forall c: nat :: c in s.outstandingKeys <==> c < |s.callers| && cfg.calls[c].IsDerivation() && KeyPending(s, c)
    ensures s.outstandingWorkItemCount == 0 ==>
              s.noOutstandingWorkItemEvent || exists w :: 0 <= w < |s.workers| && s.workers[w].pc.LastKey?
  {
    hide Ring; hide ProgramInv; hide KeyPending;
    var run :| IsRun(cfg, run) && run[|run| - 1] == s;
    RunKeys(cfg, run);
    RingIsShaped(cfg, s);
    forall c: nat ensures c in s.outstandingKeys <==> c < |s.callers| && cfg.calls[c].IsDerivation() && KeyPending(s, c) {
      if c < |s.callers| { assert KeyOk(cfg, s, c); }
    }
  }
}
