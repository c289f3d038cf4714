/** When the event for "no key derivation is outstanding" can be relied on.  A worker that decrements the count to zero
    sets the event in a second step, and another derivation may have been counted in between. */
module ThreadPoolLateEvent {
  import opened ThreadPoolModel
  import opened ThreadPoolInvariant
  import opened ThreadPoolSafety
  import opened ThreadPoolFrame
  import opened ThreadPoolKeys

  predicate SomeoneClears(s: State) { exists c :: 0 <= c < |s.callers| && s.callers[c].pc.Clearing? }

  /** A set event says that none is outstanding, or is just about to be cleared. */
  predicate EventTrue(s: State) {
    s.noOutstandingWorkItemEvent ==> s.outstandingWorkItemCount == 0 || SomeoneClears(s)
  }

  /** A worker sets the event although another derivation has been counted, and has cleared the event, since the worker
      decremented the count. */
  predicate LateSignal(s: State, s': State) {
    && s.outstandingWorkItemCount != 0 && !SomeoneClears(s)
    && |s'.workers| == |s.workers|
    && exists w :: 0 <= w < |s.workers| && s.workers[w].pc.LastKey? && s'.workers[w].pc.FreeingKey?
  }

  lemma WorkerSignal(cfg: Config, s: State, w: nat, scratch: Bytes)
    requires RingInv(cfg, s) && Keys(cfg, s) && WorkerEnabled(cfg, s, w) && EventTrue(s)
    ensures EventTrue(WorkerStep(cfg, s, w, scratch)) <==> !LateSignal(s, WorkerStep(cfg, s, w, scratch))
  {
    hide Ring; hide ProgramInv; hide WorkerStep; hide KeyOk; hide PhaseGoes; hide LogFrame; hide SomeoneClears;
    RingIsShaped(cfg, s);
    var s' := WorkerStep(cfg, s, w, scratch);
    WorkerStepFrame(cfg, s, w, scratch);
    WorkerStepKeys(cfg, s, w, scratch);
    SameClearing(s, s');
    if s.workers[w].pc.LastKey? {
      assert s'.workers[w].pc.FreeingKey?;
    } else {
      forall x: nat | x < |s.workers| && s.workers[x].pc.LastKey? ensures !s'.workers[x].pc.FreeingKey? { }
      if s.workers[w].pc.Uncounting? { SomeOutstanding(cfg, s, w); }
    }
  }

  lemma SameClearing(s: State, s': State)
    requires KeepsLocals(s, s')
    ensures SomeoneClears(s') <==> SomeoneClears(s)
  {
    forall c: nat | c < |s.callers| ensures s'.callers[c].pc == s.callers[c].pc { assert SameLocals(s.callers[c], s'.callers[c]); }
  }

  lemma SomeOutstanding(cfg: Config, s: State, w: nat)
    requires RingInv(cfg, s) && Keys(cfg, s) && w < |s.workers| && s.workers[w].pc.Uncounting?
    ensures s.outstandingWorkItemCount > 0
  {
    hide Ring; hide ProgramInv; hide EventsOk;
    RingIsShaped(cfg, s);
    HeldKey(cfg, s, w);
    assert KeyOk(cfg, s, MyItem(s, w).call);
    assert MyItem(s, w).call in s.outstandingKeys;
  }

  lemma CallerSignal(cfg: Config, s: State, c: nat)
    requires RingInv(cfg, s) && CallerEnabled(cfg, s, c) && c < |s.callers| && EventTrue(s)
    ensures EventTrue(CallerStep(cfg, s, c)) && !LateSignal(s, CallerStep(cfg, s, c))
  {
    hide Ring; hide ProgramInv; hide CallerStep; hide CallerEnabled;
    RingIsShaped(cfg, s);
    var s' := CallerStep(cfg, s, c);
    CallerStepFrame(cfg, s, c);
    CallerStepKeys(cfg, s, c);
    if s'.noOutstandingWorkItemEvent && s'.outstandingWorkItemCount != 0 {
      if SomeoneClears(s) {
        var b :| 0 <= b < |s.callers| && s.callers[b].pc.Clearing?;
        assert s'.callers[b].pc.Clearing?;
      } else {
        assert s'.callers[c].pc.Clearing?;
      }
    }
  }

  lemma SignalNext(cfg: Config, s: State, s': State)
    requires RingInv(cfg, s) && Keys(cfg, s) && Next(cfg, s, s') && EventTrue(s)
    ensures EventTrue(s') <==> !LateSignal(s, s')
  {
    hide RingInv; hide Keys; hide WorkerStep; hide CallerStep; hide EventTrue; hide LateSignal;
    if w, scratch :| WorkerEnabled(cfg, s, w) && s' == WorkerStep(cfg, s, w, scratch) {
      WorkerSignal(cfg, s, w, scratch);
    } else {
      var c :| CallerEnabled(cfg, s, c) && s' == CallerStep(cfg, s, c);
      CallerSignal(cfg, s, c);
    }
  }

  /** Main result: the event can be relied on all through a run if and only if no worker sets it late. */
  lemma {:induction false} TrueUnlessLate(cfg: Config, run: seq<State>)
    requires ValidConfig(cfg) && IsRun(cfg, run)
    ensures (forall i :: 0 <= i < |run| ==> EventTrue(run[i])) <==> (forall i :: 0 < i < |run| ==> !LateSignal(run[i - 1], run[i]))
  {
    hide RingInv; hide Keys; hide Next; hide EventTrue; hide LateSignal;
    var n := |run| - 1;
    if n == 0 {
      assert EventTrue(Start(cfg)) by { StartIsTrue(cfg); }
    } else {
      var before := run[..n];
      TrueUnlessLate(cfg, before);
      RunKeys(cfg, before);
      assert before[n - 1] == run[n - 1];
      if EventTrue(run[n - 1]) { SignalNext(cfg, run[n - 1], run[n]); }
      assert forall i :: 0 <= i < n ==> before[i] == run[i];
    }
  }

  lemma StartIsTrue(cfg: Config)
    ensures EventTrue(Start(cfg))
  {
  }

  // ---- A late signal ----

  lemma Steps(cfg: Config, s: State, s': State)
    requires Reachable(cfg, s) && Next(cfg, s, s')
    ensures Reachable(cfg, s')
  {
    hide Next;
    var run :| IsRun(cfg, run) && run[|run| - 1] == s;
    assert IsRun(cfg, run + [s']);
  }

  lemma CallerSteps(cfg: Config, s: State, c: nat) returns (s': State)
    requires ValidConfig(cfg) && Reachable(cfg, s) && Shaped(cfg, s) && CallerEnabled(cfg, s, c)
    ensures s' == CallerStep(cfg, s, c) && Next(cfg, s, s') && Reachable(cfg, s')
  {
    hide CallerStep; hide CallerEnabled; hide Reachable;
    s' := CallerStep(cfg, s, c);
    Steps(cfg, s, s');
  }

  lemma WorkerSteps(cfg: Config, s: State, w: nat) returns (s': State)
    requires ValidConfig(cfg) && Reachable(cfg, s) && Shaped(cfg, s) && WorkerEnabled(cfg, s, w)
    ensures s' == WorkerStep(cfg, s, w, []) && Next(cfg, s, s') && Reachable(cfg, s')
  {
    hide WorkerStep; hide WorkerEnabled; hide Reachable;
    s' := WorkerStep(cfg, s, w, []);
    Steps(cfg, s, s');
  }

  /** A derivation gets as far as having been counted. */
  lemma GetsCounted(cfg: Config, s: State, c: nat) returns (s': State)
    requires ValidConfig(cfg) && Reachable(cfg, s) && Shaped(cfg, s) && c < |s.callers| && cfg.calls[c].IsDerivation()
    requires s.callers[c] == freshCaller && s.enqueueMutex == NoThread && s.queue[s.enqueuePosition].state.WorkItemFree?
    ensures Reachable(cfg, s') && Shaped(cfg, s')
    ensures var e := s.enqueuePosition;
            s' == s.(callers := s.callers[c := freshCaller.(pc := Clearing, firstTicket := |s.log|, item := e)],
            enqueueMutex := Caller(c), enqueuePosition := Advance(e),
            queue := s.queue[e := s.queue[e].(workType := DeriveKeyWork, call := c, dataOffset := 0, startUnitNo := cfg.calls[c].startUnitNo)],
            outstandingWorkItemCount := s.outstandingWorkItemCount + 1, outstandingKeys := s.outstandingKeys + {c})
  {
    hide Reachable; hide ValidCall; hide Next;
    s' := CallerSteps(cfg, s, c);
    assert s'.callers[c].pc.Taking? && s'.callers[c].left == 1;
    s' := CallerSteps(cfg, s', c);
    assert s'.callers[c].pc.Checking?;
    s' := CallerSteps(cfg, s', c);
    assert s'.callers[c].pc.Filling?;
    s' := CallerSteps(cfg, s', c);
  }

  /** The rest of EncryptionThreadPoolBeginKeyDerivation. */
  lemma GetsPosted(cfg: Config, s: State, c: nat) returns (s': State)
    requires ValidConfig(cfg) && Reachable(cfg, s) && Shaped(cfg, s) && c < |s.callers| && cfg.calls[c].IsDerivation()
    requires s.callers[c].pc.Clearing? && s.callers[c].posted == 0
    ensures Reachable(cfg, s') && Shaped(cfg, s')
    ensures s'.callers == s.callers[c := s.callers[c].(pc := Done, posted := 1)]
    ensures s'.queue == s.queue[s.callers[c].item := s.queue[s.callers[c].item].(state := WorkItemReady)]
    ensures s'.log == s.log + [Ticket(c, 0, Posted)] && s'.enqueueMutex == NoThread && s'.enqueuePosition == s.enqueuePosition
    ensures s'.workers == s.workers && s'.dequeueMutex == s.dequeueMutex && s'.dequeuePosition == s.dequeuePosition && s'.taken == s.taken
    ensures s'.outstandingWorkItemCount == s.outstandingWorkItemCount && !s'.noOutstandingWorkItemEvent
  {
    hide Reachable; hide ValidCall; hide Next;
    s' := CallerSteps(cfg, s, c);
    assert s'.callers[c].pc.Posting?;
    s' := CallerSteps(cfg, s', c);
    assert s'.callers[c].pc.SignallingReady?;
    s' := CallerSteps(cfg, s', c);
    assert s'.callers[c].pc.ReleasingEnqueue?;
    s' := CallerSteps(cfg, s', c);
  }

  /** What a worker leaves alone while it derives a key. */
  predicate SameButItem(s: State, s': State, i: Slot) {
    && s'.callers == s.callers && s'.enqueueMutex == s.enqueueMutex && s'.enqueuePosition == s.enqueuePosition
    && |s'.queue| == |s.queue| == QUEUE_SIZE && (forall j: nat :: j < QUEUE_SIZE && j != i ==> s'.queue[j] == s.queue[j])
    && s'.noOutstandingWorkItemEvent == s.noOutstandingWorkItemEvent
  }

  /** A worker takes the derivation it finds ready. */
  lemma GetsTaken(cfg: Config, s: State, w: nat) returns (s': State)
    requires ValidConfig(cfg) && Reachable(cfg, s) && Shaped(cfg, s) && w < |s.workers|
    requires s.workers[w].pc.Idle? && s.dequeueMutex == NoThread && s.queue[s.dequeuePosition].state.WorkItemReady?
    ensures Reachable(cfg, s') && Shaped(cfg, s') && w < |s'.workers|
    ensures s'.workers[w].pc.Starting? && s'.workers[w].item == s.dequeuePosition
    ensures SameButItem(s, s', s.dequeuePosition) && s'.queue[s.dequeuePosition] == s.queue[s.dequeuePosition].(state := WorkItemBusy)
    ensures s'.outstandingWorkItemCount == s.outstandingWorkItemCount
  {
    hide Reachable; hide ValidCall; hide Next; hide KeepsLocals;
    s' := WorkerSteps(cfg, s, w);
    assert s'.workers[w].pc.Looking?;
    s' := WorkerSteps(cfg, s', w);
    assert s'.workers[w].pc.Claiming?;
    s' := WorkerSteps(cfg, s', w);
    assert s'.workers[w].pc.ReleasingDequeue?;
    s' := WorkerSteps(cfg, s', w);
  }

  /** It derives the key, and decrements the count to zero. */
  lemma GetsDerived(cfg: Config, s: State, w: nat) returns (s': State)
    requires ValidConfig(cfg) && Reachable(cfg, s) && Shaped(cfg, s) && w < |s.workers|
    requires s.workers[w].pc.Starting? && MyItem(s, w).workType.DeriveKeyWork? && cfg.calls[MyItem(s, w).call].effort == 0
    requires s.outstandingWorkItemCount == 1
    ensures Reachable(cfg, s') && Shaped(cfg, s') && w < |s'.workers|
    ensures s'.workers[w].pc.LastKey? && s'.outstandingWorkItemCount == 0
    ensures SameButItem(s, s', s.workers[w].item)
  {
    hide Reachable; hide ValidCall; hide Next; hide KeepsLocals; hide Overwrite; hide Slice; hide ItemSize;
    s' := WorkerSteps(cfg, s, w);
    assert s'.workers[w].pc == Working(0);
    s' := WorkerSteps(cfg, s', w);
    assert s'.workers[w].pc.Flagging?;
    s' := WorkerSteps(cfg, s', w);
    assert s'.workers[w].pc.Announcing?;
    s' := WorkerSteps(cfg, s', w);
    assert s'.workers[w].pc.Uncounting?;
    s' := WorkerSteps(cfg, s', w);
  }

  /** Two derivations of nothing. */
  ghost function TwoDerivations(): Config {
    var call := Call(DeriveKeyWork, (u, b) => b, 0, [], 0);
    Config(2, [call, call])
  }

  lemma StartIsReachable(cfg: Config)
    requires ValidConfig(cfg)
    ensures Reachable(cfg, Start(cfg)) && Shaped(cfg, Start(cfg))
  {
    hide ValidCall;
    assert IsRun(cfg, [Start(cfg)]);
  }

  /** The event can be set although a derivation is outstanding and nobody is about to clear it. */
  lemma EventCanBeLate()
    ensures exists cfg, s, s' :: ValidConfig(cfg) && Reachable(cfg, s) && Next(cfg, s, s') && LateSignal(s, s') && !EventTrue(s')
  {
    hide Reachable; hide Next; hide Slice;
    var cfg := TwoDerivations();
    assert ValidConfig(cfg);
    hide ValidConfig;
    StartIsReachable(cfg);
    var s := GetsCounted(cfg, Start(cfg), 0);
    s := GetsPosted(cfg, s, 0);
    s := GetsTaken(cfg, s, 0);
    s := GetsDerived(cfg, s, 0);
    s := GetsCounted(cfg, s, 1);
    s := GetsPosted(cfg, s, 1);
    var s' := WorkerSteps(cfg, s, 0);
    assert s.workers[0].pc.LastKey? && s'.workers[0].pc.FreeingKey?;
    assert LateSignal(s, s') && !EventTrue(s');
  }
}
