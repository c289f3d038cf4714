/** What one step of one thread can change at all. */
module ThreadPoolFrame {
  import opened ThreadPoolModel
  import opened ThreadPoolInvariant
  import opened ThreadPoolRing
  import opened ThreadPoolSafety

  /** At most ticket t has got another phase. */
  predicate LogFrame(s: State, s': State, t: nat) {
    || s'.log == s.log
    || (t < |s.log| == |s'.log| && s'.log == s.log[t := s.log[t].(phase := s'.log[t].phase)])
  }

  /** The phases a worker gives its ticket in a step from pc. */
  predicate PhaseGoes(pc: WorkerPc, w: nat, p: Phase) {
    match pc
    case Claiming => p == Held(w)
    case Freeing => p == Freed(w)
    case FreeingKey => p.Retired?
    case CountingFirst => p == Last(w) || p.Parked? || p.Retired?
    case Counting => p == Last(w) || p.Parked? || p.Retired?
    case Completing => p.Parked? || p.Retired?
    case _ => false
  }

  /** Where a worker can go from pc. */
  predicate Goes(pc: WorkerPc, pc': WorkerPc) {
    match pc
    case Idle => pc'.Looking?
    case Looking => pc'.Claiming? || pc'.WaitingReady?
    case WaitingReady => pc'.Looking?
    case Claiming => pc'.ReleasingDequeue?
    case ReleasingDequeue => pc'.Starting?
    case Starting => pc'.Working?
    case Working(left) => if left > 0 then pc' == Working(left - 1) else pc'.Flagging? || pc'.Freeing?
    case Freeing => pc'.SignallingFreed? || pc'.CountingFirst?
    case SignallingFreed => pc'.Counting?
    case CountingFirst => pc'.Completing? || pc'.Idle?
    case Counting => pc'.Completing? || pc'.Idle?
    case Completing => pc'.Idle?
    case Flagging => pc'.Announcing?
    case Announcing => pc'.Uncounting?
    case Uncounting => pc'.LastKey? || pc'.FreeingKey?
    case LastKey => pc'.FreeingKey?
    case FreeingKey => pc'.SignallingKey?
    case SignallingKey => pc'.Idle?
  }

  predicate WorkerFrame(s: State, s': State, w: nat)
    requires w < |s.workers|
  {
    && |s'.workers| == |s.workers|
    && s'.workers == s.workers[w := s'.workers[w]]
    && LogFrame(s, s', s.workers[w].ticket)
    && s'.enqueueMutex == s.enqueueMutex
    && Goes(s.workers[w].pc, s'.workers[w].pc)
    && (s'.log == s.log || (s.workers[w].ticket < |s.log| && PhaseGoes(s.workers[w].pc, w, s'.log[s.workers[w].ticket].phase)))
    && (s.workers[w].pc.Working? || s'.memory == s.memory)
    && (s.workers[w].pc.Flagging? || s'.completionFlags == s.completionFlags)
    && (s.workers[w].pc.Idle? || (s'.taken == s.taken && s'.workers[w].ticket == s.workers[w].ticket
                                  && s'.workers[w].item == s.workers[w].item))
  }

  lemma ClaimItemFrame(cfg: Config, s: State, w: nat)
    requires Shaped(cfg, s) && w < |s.workers| && s.workers[w].pc.Claiming?
    ensures WorkerFrame(s, ClaimItem(cfg, s, w), w)
  {
  }

  lemma FreeOwnItemFrame(cfg: Config, s: State, w: nat)
    requires Shaped(cfg, s) && w < |s.workers| && s.workers[w].pc.Freeing?
    ensures WorkerFrame(s, FreeOwnItem(cfg, s, w), w)
  {
    var s', t := FreeOwnItem(cfg, s, w), s.workers[w].ticket;
    if s.workers[w].item != MyItem(s, w).firstFragment {
      assert s'.log == if t < |s.log| then s.log[t := s.log[t].(phase := Freed(w))] else s.log;
    } else {
      assert s'.log == s.log;
    }
  }

  lemma FreeKeyItemFrame(cfg: Config, s: State, w: nat)
    requires Shaped(cfg, s) && w < |s.workers| && s.workers[w].pc.FreeingKey?
    ensures WorkerFrame(s, FreeKeyItem(cfg, s, w), w)
  {
  }

  lemma CountFragmentFrame(cfg: Config, s: State, w: nat)
    requires Shaped(cfg, s) && w < |s.workers| && (s.workers[w].pc.CountingFirst? || s.workers[w].pc.Counting?)
    ensures WorkerFrame(s, CountFragment(cfg, s, w), w)
  {
  }

  lemma CompleteBatchFrame(cfg: Config, s: State, w: nat)
    requires Shaped(cfg, s) && w < |s.workers| && s.workers[w].pc.Completing?
    ensures WorkerFrame(s, CompleteBatch(cfg, s, w), w)
  {
  }

  lemma WorkingFrame(cfg: Config, s: State, w: nat, scratch: Bytes)
    requires Shaped(cfg, s) && WorkerEnabled(cfg, s, w) && s.workers[w].pc.Working?
    ensures WorkerFrame(s, WorkerStep(cfg, s, w, scratch), w)
  {
    hide KeepsLocals; hide Slice; hide Overwrite; hide ItemSize;
  }

  lemma KeyFrame(cfg: Config, s: State, w: nat, scratch: Bytes)
    requires Shaped(cfg, s) && WorkerEnabled(cfg, s, w)
    requires s.workers[w].pc in {Flagging, Announcing, Uncounting, LastKey, SignallingKey}
    ensures WorkerFrame(s, WorkerStep(cfg, s, w, scratch), w)
  {
    hide KeepsLocals;
  }

  lemma WorkerStepFrame(cfg: Config, s: State, w: nat, scratch: Bytes)
    requires Shaped(cfg, s) && WorkerEnabled(cfg, s, w)
    ensures WorkerFrame(s, WorkerStep(cfg, s, w, scratch), w)
  {
    hide KeepsLocals; hide Slice; hide ItemSize; hide ClaimItem; hide FreeOwnItem; hide FreeKeyItem; hide CountFragment;
    hide CompleteBatch; hide FinishItem; hide Scribble;
    if s.workers[w].pc in {Flagging, Announcing, Uncounting, LastKey, SignallingKey} {
      KeyFrame(cfg, s, w, scratch);
      return;
    }
    match s.workers[w].pc
    case Claiming => ClaimItemFrame(cfg, s, w);
    case Freeing => FreeOwnItemFrame(cfg, s, w);
    case FreeingKey => FreeKeyItemFrame(cfg, s, w);
    case CountingFirst => CountFragmentFrame(cfg, s, w);
    case Counting => CountFragmentFrame(cfg, s, w);
    case Completing => CompleteBatchFrame(cfg, s, w);
    case Working(_) => WorkingFrame(cfg, s, w, scratch);
    case _ =>
  }

  predicate CallerFrame(s: State, s': State, c: nat)
    requires c < |s.callers|
  {
    && |s'.callers| == |s.callers|
    && s'.callers == s.callers[c := s'.callers[c]]
    && s'.workers == s.workers
    && s'.taken == s.taken
    && s'.dequeueMutex == s.dequeueMutex
    && s'.completionFlags == s.completionFlags
    && (s.callers[c].pc.Begin? || (s'.memory == s.memory && s'.callers[c].firstTicket == s.callers[c].firstTicket))
    && ((s.callers[c].pc.Begin? && s'.callers[c].posted == 0) ||
        s'.callers[c].posted == s.callers[c].posted + if s.callers[c].pc.Posting? then 1 else 0)
    && (if s.callers[c].pc.Posting? then s'.log == s.log + [Ticket(c, s.callers[c].posted, Posted)]
        else s'.log == s.log
             || (s.callers[c].pc.FreeingFirst? && LogFrame(s, s', s.callers[c].firstTicket)
                 && s'.log[s.callers[c].firstTicket].phase.Retired?))
  }

  lemma BeginCallFrame(cfg: Config, s: State, c: nat)
    requires Shaped(cfg, s) && c < |s.callers| && s.callers[c].pc.Begin? && cfg.threadCount > 0
    ensures CallerFrame(s, BeginCall(cfg, s, c), c)
  {
    hide Call.UnitCount; hide LogFrame;
    var call := cfg.calls[c];
    if call.IsDerivation() {
    } else if call.UnitCount() == 0 {
    } else if call.UnitCount() == 1 {
    } else {
    }
  }

  lemma OpenBatchFrame(cfg: Config, s: State, c: nat)
    requires Shaped(cfg, s) && c < |s.callers| && s.callers[c].pc.CheckingFirst?
    ensures CallerFrame(s, OpenBatch(cfg, s, c), c)
  {
    hide Below;
  }

  lemma ReserveItemFrame(cfg: Config, s: State, c: nat)
    requires Shaped(cfg, s) && c < |s.callers| && s.callers[c].pc.Taking? && s.callers[c].left > 0
    ensures CallerFrame(s, ReserveItem(cfg, s, c), c)
  {
  }

  lemma FillItemFrame(cfg: Config, s: State, c: nat)
    requires Shaped(cfg, s) && c < |s.callers| && s.callers[c].pc.Filling?
    ensures CallerFrame(s, FillItem(cfg, s, c), c)
  {
  }

  lemma FillKeyItemFrame(cfg: Config, s: State, c: nat)
    requires Shaped(cfg, s) && c < |s.callers| && s.callers[c].pc.Filling?
    ensures CallerFrame(s, FillKeyItem(cfg, s, c), c)
  {
  }

  lemma PostItemFrame(cfg: Config, s: State, c: nat)
    requires Shaped(cfg, s) && c < |s.callers| && s.callers[c].pc.Posting?
    ensures CallerFrame(s, PostItem(cfg, s, c), c)
  {
  }

  lemma ReleaseEnqueueFrame(cfg: Config, s: State, c: nat)
    requires Shaped(cfg, s) && c < |s.callers| && s.callers[c].pc.ReleasingEnqueue?
    ensures CallerFrame(s, ReleaseEnqueue(cfg, s, c), c)
  {
  }

  lemma ConsumeCompletionFrame(cfg: Config, s: State, c: nat)
    requires Shaped(cfg, s) && c < |s.callers| && s.callers[c].pc.AwaitingCompletion?
    ensures CallerFrame(s, ConsumeCompletion(cfg, s, c), c)
  {
  }

  lemma FreeFirstItemFrame(cfg: Config, s: State, c: nat)
    requires Shaped(cfg, s) && c < |s.callers| && s.callers[c].pc.FreeingFirst?
    ensures CallerFrame(s, FreeFirstItem(cfg, s, c), c)
  {
  }

  lemma CallerStepFrame(cfg: Config, s: State, c: nat)
    requires Shaped(cfg, s) && CallerEnabled(cfg, s, c) && cfg.threadCount > 0
    ensures CallerFrame(s, CallerStep(cfg, s, c), c)
  {
    hide BeginCall; hide OpenBatch; hide ReserveItem; hide FillItem; hide FillKeyItem; hide PostItem;
    hide ConsumeCompletion; hide FreeFirstItem; hide ReleaseEnqueue;
    var me := s.callers[c];
    match me.pc
    case Begin => BeginCallFrame(cfg, s, c);
    case CheckingFirst => if s.queue[me.first].state == WorkItemFree { OpenBatchFrame(cfg, s, c); }
    case Taking => if me.left > 0 { ReserveItemFrame(cfg, s, c); }
    case Filling => if cfg.calls[c].IsDerivation() { FillKeyItemFrame(cfg, s, c); } else { FillItemFrame(cfg, s, c); }
    case Posting => PostItemFrame(cfg, s, c);
    case ReleasingEnqueue => ReleaseEnqueueFrame(cfg, s, c);
    case AwaitingCompletion => ConsumeCompletionFrame(cfg, s, c);
    case FreeingFirst => FreeFirstItemFrame(cfg, s, c);
    case _ =>
  }
}
