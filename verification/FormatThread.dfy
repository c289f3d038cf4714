/** The write thread of Common/Format.c as a transition system.

    The thread that formats a volume hands full buffers to a write thread: it waits for
    WriteBufferEmptyEvent, copies its buffer into WriteThreadBuffer, and sets WriteBufferFullEvent.
    Both events reset themselves when a wait succeeds.  A step is one test, one wait, one event set,
    one assignment to a shared variable, or the copy of one byte.

    Waits and event sets succeed; whether a write succeeds, and how many bytes it reads if it does
    not, is up to the environment, and so is when the formatting thread stops.  Fields below a
    "history" comment do not exist in the program. */
module FormatThread {

  type Bytes = seq<bv8>

  /** The buffers the formatting thread wants to flush, one after another, and FormatWriteBufferSize. */
  datatype Config = Config(plan: seq<Bytes>, bufferSize: nat)

  predicate ValidConfig(cfg: Config) {
    forall k :: 0 <= k < |cfg.plan| ==> 0 < |cfg.plan[k]| <= cfg.bufferSize
  }

  datatype ProducerPc =
    | Ready
    | WaitingEmpty
    | Checking          // about to read WriteRequestResult
    | Copying(i: nat)   // about to copy byte i
    | SettingSize
    | SettingFull
    | Refusing          // the last write failed: about to set WriteBufferEmptyEvent again
    | StopWaiting
    | StopRequesting    // about to set WriteThreadExitRequested
    | StopSignalling
    | Joining
    | Stopped

  datatype WriterPc =
    | Looping           // about to test WriteThreadExitRequested
    | WaitingFull
    | CheckingExit
    | Writing(i: nat)   // WriteFile has read i bytes
    | Reporting(ok: bool)
    | SettingEmpty
    | Ending            // about to clear WriteThreadRunning
    | Ended

  /** What one call of WriteFile read from the buffer, and whether it succeeded. */
  datatype Write = Write(data: Bytes, ok: bool)

  datatype State = State(
    producer: ProducerPc,
    writer: WriterPc,
    emptyEvent: bool,
    fullEvent: bool,
    buffer: Bytes,         // WriteThreadBuffer
    requestSize: nat,      // WriteRequestSize
    resultOk: bool,        // WriteRequestResult == ERROR_SUCCESS
    exitRequested: bool,
    running: bool,
    // history
    next: nat,             // the flush that is under way or comes next
    submitted: seq<Bytes>, // buffers for which WriteBufferFullEvent was set
    writes: seq<Write>,    // finished calls of WriteFile
    reading: Bytes,        // what the current call has read
    flushes: seq<bool>     // what the flushes returned
  )

  /** After StartFormatWriteThread. */
  function Start(cfg: Config): State {
    State(Ready, Looping, true, false, seq(cfg.bufferSize, _ => 0), 0, true, false, true, 0, [], [], [], [])
  }

  predicate Flushing(pc: ProducerPc) {
    pc.WaitingEmpty? || pc.Checking? || pc.Copying? || pc.SettingSize? || pc.SettingFull? || pc.Refusing?
  }

  /** Sizes fit. */
  predicate Shaped(cfg: Config, s: State) {
    && |s.buffer| == cfg.bufferSize && s.requestSize <= cfg.bufferSize && s.next <= |cfg.plan|
    && (Flushing(s.producer) ==> s.next < |cfg.plan|)
    && (s.producer.Copying? ==> s.producer.i <= |cfg.plan[s.next]|)
    && (s.writer.Writing? ==> s.writer.i <= s.requestSize)
  }

  predicate ProducerEnabled(cfg: Config, s: State) {
    match s.producer
    case WaitingEmpty => s.emptyEvent
    case StopWaiting => s.emptyEvent
    case Joining => s.writer.Ended?
    case Stopped => false
    case _ => true
  }

  /** FlushFormatWriteBuffer and StopFormatWriteThread.  `stop` is whether the next call is to stop. */
  function ProducerStep(cfg: Config, s: State, stop: bool): State
    requires ValidConfig(cfg) && Shaped(cfg, s) && ProducerEnabled(cfg, s)
  {
    match s.producer
    case Ready => if stop || s.next == |cfg.plan| then s.(producer := StopWaiting) else s.(producer := WaitingEmpty)
    case WaitingEmpty => s.(producer := Checking, emptyEvent := false)
    case Checking => if s.resultOk then s.(producer := Copying(0)) else s.(producer := Refusing)
    case Copying(i) =>
      if i < |cfg.plan[s.next]| then s.(producer := Copying(i + 1), buffer := s.buffer[i := cfg.plan[s.next][i]])
      else s.(producer := SettingSize)
    case SettingSize => s.(producer := SettingFull, requestSize := |cfg.plan[s.next]|)
    case SettingFull =>
      s.(producer := Ready, fullEvent := true, submitted := s.submitted + [cfg.plan[s.next]], next := s.next + 1, flushes := s.flushes + [true])
    case Refusing => s.(producer := Ready, emptyEvent := true, next := s.next + 1, flushes := s.flushes + [false])
    case StopWaiting => s.(producer := StopRequesting, emptyEvent := false)
    case StopRequesting => s.(producer := StopSignalling, exitRequested := true)
    case StopSignalling => s.(producer := Joining, fullEvent := true)
    case Joining => s.(producer := Stopped)
  }

  predicate WriterEnabled(s: State) {
    match s.writer
    case WaitingFull => s.fullEvent
    case Ended => false
    case _ => true
  }

  /** FormatWriteThreadProc.  `fail` is whether the write fails here. */
  function WriterStep(cfg: Config, s: State, fail: bool): State
    requires Shaped(cfg, s) && WriterEnabled(s)
  {
    match s.writer
    case Looping => if s.exitRequested then s.(writer := Ending) else s.(writer := WaitingFull)
    case WaitingFull => s.(writer := CheckingExit, fullEvent := false)
    case CheckingExit => if s.exitRequested then s.(writer := Ending) else s.(writer := Writing(0), reading := [])
    case Writing(i) =>
      if fail then s.(writer := Reporting(false), writes := s.writes + [Write(s.reading, false)])
      else if i < s.requestSize then s.(writer := Writing(i + 1), reading := s.reading + [s.buffer[i]])
      else s.(writer := Reporting(true), writes := s.writes + [Write(s.reading, true)])
    case Reporting(ok) => s.(writer := SettingEmpty, resultOk := ok)
    case SettingEmpty => s.(writer := Looping, emptyEvent := true)
    case Ending => s.(writer := Ended, running := false)
  }

  ghost predicate Next(cfg: Config, s: State, s': State)
    requires ValidConfig(cfg)
  {
    && Shaped(cfg, s)
    && ((ProducerEnabled(cfg, s) && exists stop: bool :: s' == ProducerStep(cfg, s, stop))
        || (WriterEnabled(s) && exists fail: bool :: s' == WriterStep(cfg, s, fail)))
  }

  ghost predicate IsRun(cfg: Config, run: seq<State>)
    requires ValidConfig(cfg)
  {
    && |run| > 0 && run[0] == Start(cfg)
    && forall k :: 0 <= k < |run| - 1 ==> Next(cfg, run[k], run[k + 1])
  }

  ghost predicate Reachable(cfg: Config, s: State)
    requires ValidConfig(cfg)
  {
    exists run: seq<State> :: IsRun(cfg, run) && run[|run| - 1] == s
  }

  // ---- Who may use the shared buffer ----

  predicate ProducerOwns(pc: ProducerPc) {
    pc.Checking? || pc.Copying? || pc.SettingSize? || pc.SettingFull? || pc.Refusing? || pc.StopRequesting? || pc.StopSignalling?
  }

  predicate WriterOwns(pc: WriterPc) {
    pc.CheckingExit? || pc.Writing? || pc.Reporting? || pc.SettingEmpty?
  }

  predicate Idle(pc: WriterPc) { pc.Looping? || pc.WaitingFull? }

  /** There is one token: in one of the events, with the formatting thread or with the write thread; it is never
      lost, and after the exit request the write thread may keep it for good. */
  predicate Token(s: State) {
    && (ProducerOwns(s.producer) ==> !s.emptyEvent && !s.fullEvent && !WriterOwns(s.writer))
    && (WriterOwns(s.writer) ==> !s.emptyEvent && !s.fullEvent)
    && (s.emptyEvent ==> !s.fullEvent)
    && (s.exitRequested <==> s.producer.StopSignalling? || s.producer.Joining? || s.producer.Stopped?)
    && (s.writer.Ending? || s.writer.Ended? ==> s.exitRequested)
    && (s.exitRequested ==> !s.emptyEvent && !s.writer.Writing? && !s.writer.Reporting? && !s.writer.SettingEmpty?)
    && (!s.exitRequested ==> ProducerOwns(s.producer) || WriterOwns(s.writer) || s.emptyEvent || s.fullEvent)
    && (s.producer.Joining? ==> s.fullEvent || !s.writer.WaitingFull?)
    && (s.producer.Stopped? ==> s.writer.Ended?)
    && (s.running <==> !s.writer.Ended?)
  }

  /** Buffers on their way: set full and not yet written. */
  predicate InFlight(s: State) {
    !s.exitRequested && (s.fullEvent || s.writer.CheckingExit? || s.writer.Writing?)
  }

  predicate IsPrefix(a: Bytes, b: Bytes) { |a| <= |b| && a == b[..|a|] }

  predicate AllOk(writes: seq<Write>) { forall k :: 0 <= k < |writes| ==> writes[k].ok }

  /** The writes so far are those of the submitted buffers, in order; only the last one can have failed. */
  predicate Log(cfg: Config, s: State) {
    && |s.submitted| == |s.writes| + (if InFlight(s) then 1 else 0)
    && (forall k :: 0 <= k < |s.writes| ==>
                      IsPrefix(s.writes[k].data, s.submitted[k]) && (s.writes[k].ok ==> s.writes[k].data == s.submitted[k]))
    && (forall k :: 0 <= k < |s.writes| - 1 ==> s.writes[k].ok)
    && (InFlight(s) ==> AllOk(s.writes))
  }

  predicate LastOk(writes: seq<Write>) { writes == [] || writes[|writes| - 1].ok }

  /** WriteRequestResult is the result of the last write, unless that has just ended. */
  predicate Result(s: State) {
    && (if s.writer.Reporting? then s.writes != [] && s.writes[|s.writes| - 1].ok == s.writer.ok
        else s.resultOk == LastOk(s.writes))
    && (s.producer.Copying? || s.producer.SettingSize? || s.producer.SettingFull? ==> s.resultOk)
    && (s.producer.Refusing? ==> !s.resultOk)
  }

  /** What is in the shared buffer. */
  predicate Contents(cfg: Config, s: State)
    requires Shaped(cfg, s)
  {
    && (s.producer.Copying? ==> s.producer.i <= |s.buffer| && s.buffer[..s.producer.i] == cfg.plan[s.next][..s.producer.i])
    && (s.producer.SettingSize? || s.producer.SettingFull? ==>
          |cfg.plan[s.next]| <= |s.buffer| && s.buffer[..|cfg.plan[s.next]|] == cfg.plan[s.next])
    && (s.producer.SettingFull? ==> s.requestSize == |cfg.plan[s.next]|)
    && (InFlight(s) && s.submitted != [] ==> s.buffer[..s.requestSize] == s.submitted[|s.submitted| - 1])
    && (s.writer.Writing? ==> s.reading == s.buffer[..s.writer.i])
  }

  /** Flush k returned TRUE exactly if its buffer was submitted. */
  predicate Returned(cfg: Config, s: State) {
    && |s.submitted| <= |s.flushes| == s.next <= |cfg.plan|
    && s.submitted == cfg.plan[..|s.submitted|]
    && (forall k :: 0 <= k < |s.flushes| ==> (s.flushes[k] <==> k < |s.submitted|))
    && (|s.submitted| < |s.flushes| ==> !s.resultOk && !InFlight(s) && !s.writer.Reporting?)
  }

  predicate Inv(cfg: Config, s: State) {
    Shaped(cfg, s) && Token(s) && Log(cfg, s) && Result(s) && Contents(cfg, s) && Returned(cfg, s)
  }

  lemma StartInv(cfg: Config)
    requires ValidConfig(cfg)
    ensures Inv(cfg, Start(cfg))
  {
  }

  lemma ProducerKeepsShaped(cfg: Config, s: State, stop: bool)
    requires ValidConfig(cfg) && Inv(cfg, s) && ProducerEnabled(cfg, s)
    ensures Shaped(cfg, ProducerStep(cfg, s, stop))
  {
    hide Log; hide Result; hide Contents; hide Returned;
  }

  lemma ProducerKeepsToken(cfg: Config, s: State, stop: bool)
    requires ValidConfig(cfg) && Inv(cfg, s) && ProducerEnabled(cfg, s)
    ensures Token(ProducerStep(cfg, s, stop))
  {
    hide Log; hide Result; hide Contents; hide Returned;
  }

  lemma ProducerKeepsLog(cfg: Config, s: State, stop: bool)
    requires ValidConfig(cfg) && Inv(cfg, s) && ProducerEnabled(cfg, s)
    ensures Log(cfg, ProducerStep(cfg, s, stop))
  {
    hide Contents;
    match s.producer
    case Ready =>
    case WaitingEmpty =>
    case Checking =>
    case Copying(_) =>
    case SettingSize =>
    case SettingFull =>
    case Refusing =>
    case StopWaiting =>
    case StopRequesting =>
    case StopSignalling =>
    case Joining =>
  }

  lemma ProducerKeepsResult(cfg: Config, s: State, stop: bool)
    requires ValidConfig(cfg) && Inv(cfg, s) && ProducerEnabled(cfg, s)
    ensures Result(ProducerStep(cfg, s, stop))
  {
    hide Contents; hide Returned;
  }

  lemma ProducerKeepsContents(cfg: Config, s: State, stop: bool)
    requires ValidConfig(cfg) && Inv(cfg, s) && ProducerEnabled(cfg, s)
    ensures Shaped(cfg, ProducerStep(cfg, s, stop)) && Contents(cfg, ProducerStep(cfg, s, stop))
  {
    hide Log; hide Result; hide Returned;
    var s' := ProducerStep(cfg, s, stop);
    if s.producer.Copying? {
      var i := s.producer.i;
      if i < |cfg.plan[s.next]| {
        assert s'.buffer[..i + 1] == s.buffer[..i] + [cfg.plan[s.next][i]];
        assert cfg.plan[s.next][..i + 1] == cfg.plan[s.next][..i] + [cfg.plan[s.next][i]];
      } else {
        assert cfg.plan[s.next][..i] == cfg.plan[s.next];
      }
    }
  }

  lemma ProducerKeepsReturned(cfg: Config, s: State, stop: bool)
    requires ValidConfig(cfg) && Inv(cfg, s) && ProducerEnabled(cfg, s)
    ensures Returned(cfg, ProducerStep(cfg, s, stop))
  {
    hide Log; hide Contents;
    if s.producer.SettingFull? {
      assert cfg.plan[..|s.submitted| + 1] == cfg.plan[..|s.submitted|] + [cfg.plan[s.next]];
    }
  }

  lemma ProducerKeeps(cfg: Config, s: State, stop: bool)
    requires ValidConfig(cfg) && Inv(cfg, s) && ProducerEnabled(cfg, s)
    ensures Inv(cfg, ProducerStep(cfg, s, stop))
  {
    ProducerKeepsShaped(cfg, s, stop);
    ProducerKeepsToken(cfg, s, stop);
    ProducerKeepsLog(cfg, s, stop);
    ProducerKeepsResult(cfg, s, stop);
    ProducerKeepsContents(cfg, s, stop);
    ProducerKeepsReturned(cfg, s, stop);
    hide Token; hide Log; hide Result; hide Contents; hide Returned; hide ProducerStep;
  }

  predicate WriterGoes(s: State, pc: WriterPc) {
    match s.writer
    case Looping => pc.Ending? || pc.WaitingFull?
    case WaitingFull => pc.CheckingExit?
    case CheckingExit => pc.Ending? || pc == Writing(0)
    case Writing(i) => pc.Reporting? || (i < s.requestSize && pc == Writing(i + 1))
    case Reporting(_) => pc.SettingEmpty?
    case SettingEmpty => pc.Looping?
    case _ => pc.Ended?
  }

  lemma WriterMoves(cfg: Config, s: State, fail: bool)
    requires Shaped(cfg, s) && WriterEnabled(s)
    ensures WriterGoes(s, WriterStep(cfg, s, fail).writer)
  {
    hide Shaped;
    match s.writer
    case Looping =>
    case WaitingFull =>
    case CheckingExit =>
    case Writing(i) => if fail { } else if i < s.requestSize { } else { }
    case Reporting(_) =>
    case SettingEmpty =>
    case Ending =>
  }

  /** What the write thread leaves alone. */
  lemma WriterFrame(cfg: Config, s: State, fail: bool)
    requires Shaped(cfg, s) && WriterEnabled(s)
    ensures var s' := WriterStep(cfg, s, fail);
            && s'.producer == s.producer && s'.buffer == s.buffer && s'.requestSize == s.requestSize && s'.next == s.next
            && s'.fullEvent == (s.fullEvent && !s.writer.WaitingFull?) && (s.writer.WaitingFull? ==> s.fullEvent)
            && WriterGoes(s, s'.writer)
  {
    WriterMoves(cfg, s, fail);
    hide Shaped; hide WriterGoes;
    match s.writer
    case Looping =>
    case WaitingFull =>
    case CheckingExit =>
    case Writing(i) => if fail { } else if i < s.requestSize { } else { }
    case Reporting(_) =>
    case SettingEmpty =>
    case Ending =>
  }

  lemma WriterKeepsShaped(cfg: Config, s: State, fail: bool)
    requires ValidConfig(cfg) && Inv(cfg, s) && WriterEnabled(s)
    ensures Shaped(cfg, WriterStep(cfg, s, fail))
  {
    hide Token; hide Log; hide Result; hide Contents; hide Returned; hide WriterStep; hide WriterEnabled;
    WriterFrame(cfg, s, fail);
  }

  lemma WriterKeepsToken(cfg: Config, s: State, fail: bool)
    requires ValidConfig(cfg) && Inv(cfg, s) && WriterEnabled(s)
    ensures Token(WriterStep(cfg, s, fail))
  {
    hide Log; hide Result; hide Contents; hide Returned;
  }

  lemma WriterKeepsLog(cfg: Config, s: State, fail: bool)
    requires ValidConfig(cfg) && Inv(cfg, s) && WriterEnabled(s)
    ensures Log(cfg, WriterStep(cfg, s, fail))
  {
    hide Result; hide Returned;
    if s.writer.Writing? {
      var last := s.submitted[|s.submitted| - 1];
      assert s.buffer[..s.requestSize] == last;
      assert s.buffer[..s.writer.i] == last[..s.writer.i];
    }
  }

  lemma WriterKeepsResult(cfg: Config, s: State, fail: bool)
    requires ValidConfig(cfg) && Inv(cfg, s) && WriterEnabled(s)
    ensures Result(WriterStep(cfg, s, fail))
  {
    hide Contents; hide Returned;
  }

  lemma WriterKeepsContents(cfg: Config, s: State, fail: bool)
    requires ValidConfig(cfg) && Inv(cfg, s) && WriterEnabled(s)
    ensures Shaped(cfg, WriterStep(cfg, s, fail)) && Contents(cfg, WriterStep(cfg, s, fail))
  {
    hide Result; hide Returned;
    if s.writer.Writing? && !fail && s.writer.i < s.requestSize {
      assert s.buffer[..s.writer.i + 1] == s.buffer[..s.writer.i] + [s.buffer[s.writer.i]];
    }
  }

  lemma WriterKeepsReturned(cfg: Config, s: State, fail: bool)
    requires ValidConfig(cfg) && Inv(cfg, s) && WriterEnabled(s)
    ensures Returned(cfg, WriterStep(cfg, s, fail))
  {
    hide Contents;
  }

  lemma WriterKeeps(cfg: Config, s: State, fail: bool)
    requires ValidConfig(cfg) && Inv(cfg, s) && WriterEnabled(s)
    ensures Inv(cfg, WriterStep(cfg, s, fail))
  {
    WriterKeepsShaped(cfg, s, fail);
    WriterKeepsToken(cfg, s, fail);
    WriterKeepsLog(cfg, s, fail);
    WriterKeepsResult(cfg, s, fail);
    WriterKeepsContents(cfg, s, fail);
    WriterKeepsReturned(cfg, s, fail);
    hide Token; hide Log; hide Result; hide Contents; hide Returned; hide WriterStep;
  }

  lemma NextKeeps(cfg: Config, s: State, s': State)
    requires ValidConfig(cfg) && Inv(cfg, s) && Next(cfg, s, s')
    ensures Inv(cfg, s')
  {
    hide Inv;
    if stop: bool :| ProducerEnabled(cfg, s) && s' == ProducerStep(cfg, s, stop) {
      ProducerKeeps(cfg, s, stop);
    } else {
      var fail: bool :| s' == WriterStep(cfg, s, fail);
      WriterKeeps(cfg, s, fail);
    }
  }

  lemma {:induction false} RunKeeps(cfg: Config, run: seq<State>)
    requires ValidConfig(cfg) && IsRun(cfg, run)
    ensures Inv(cfg, run[|run| - 1])
    decreases |run|
  {
    hide Inv; hide Next;
    if |run| == 1 {
      StartInv(cfg);
    } else {
      RunKeeps(cfg, run[..|run| - 1]);
      NextKeeps(cfg, run[|run| - 2], run[|run| - 1]);
    }
  }

  lemma ReachableInv(cfg: Config, s: State)
    requires ValidConfig(cfg) && Reachable(cfg, s)
    ensures Inv(cfg, s)
  {
    hide Inv;
    var run :| IsRun(cfg, run) && run[|run| - 1] == s;
    RunKeeps(cfg, run);
  }

  // ---- Main results ----

  /** The formatting thread never changes the shared buffer while a write reads it. */
  lemma BufferNotShared(cfg: Config, s: State)
    requires ValidConfig(cfg) && Reachable(cfg, s)
    ensures !(s.producer.Copying? && s.writer.Writing?)
    ensures s.producer.Copying? || s.producer.SettingSize? ==> !s.emptyEvent && !s.fullEvent && Idle(s.writer)
  {
    ReachableInv(cfg, s);
  }

  /** Buffers reach the device in order, none twice, none left out; what a successful write wrote is the buffer. */
  lemma InOrderOnce(cfg: Config, s: State)
    requires ValidConfig(cfg) && Reachable(cfg, s)
    ensures |s.writes| <= |s.submitted| <= |s.writes| + 1 && |s.submitted| <= |cfg.plan| && s.submitted == cfg.plan[..|s.submitted|]
    ensures forall k :: 0 <= k < |s.writes| && s.writes[k].ok ==> s.writes[k].data == cfg.plan[k]
    ensures forall k :: 0 <= k < |s.writes| - 1 ==> s.writes[k].ok
  {
    ReachableInv(cfg, s);
  }

  /** If flush k returned TRUE then all writes before its own succeeded. */
  lemma TrueMeansWritten(cfg: Config, s: State, k: nat)
    requires ValidConfig(cfg) && Reachable(cfg, s) && k < |s.flushes| && s.flushes[k]
    ensures k <= |s.writes| && k < |cfg.plan|
    ensures forall j :: 0 <= j < k ==> s.flushes[j] && s.writes[j] == Write(cfg.plan[j], true)
  {
    ReachableInv(cfg, s);
    forall j | 0 <= j < k ensures s.flushes[j] && s.writes[j] == Write(cfg.plan[j], true) {
      assert j < |s.submitted|;
      assert s.writes[j].ok by { if j == |s.writes| - 1 { assert InFlight(s); } }
    }
  }

  /** A thread can go on unless both have finished: no wait is for ever, in particular stopping always finds the
      token, even after failed flushes. */
  lemma NoDeadlock(cfg: Config, s: State)
    requires ValidConfig(cfg) && Reachable(cfg, s)
    ensures ProducerEnabled(cfg, s) || WriterEnabled(s) || (s.producer.Stopped? && s.writer.Ended?)
  {
    ReachableInv(cfg, s);
  }

  function ProducerRank(cfg: Config, pc: ProducerPc, next: nat): nat {
    var n := cfg.bufferSize;
    match pc
    case Stopped => 0
    case Joining => 1
    case StopSignalling => n + 9
    case StopRequesting => n + 10
    case StopWaiting => n + 11
    case Ready => n + 12
    case Refusing => n + 13
    case SettingFull => 2 * n + 20
    case SettingSize => 2 * n + 21
    case Copying(i) => 2 * n + 22 + if next < |cfg.plan| && i <= |cfg.plan[next]| then |cfg.plan[next]| - i else 0
    case Checking => 3 * n + 23
    case WaitingEmpty => 3 * n + 24
  }

  function WriterRank(cfg: Config, pc: WriterPc): nat {
    var n := cfg.bufferSize;
    match pc
    case Ended => 0
    case Ending => 1
    case WaitingFull => 2
    case Looping => 3
    case SettingEmpty => 4
    case Reporting(_) => 5
    case Writing(i) => 6 + if i <= n then n - i else 0
    case CheckingExit => 7 + n
  }

  /** What a set WriteBufferFullEvent makes the write thread do. */
  function Signal(cfg: Config, full: bool): nat { if full then cfg.bufferSize + 6 else 0 }

  /** For the flushes that have not begun. */
  function Budget(cfg: Config, left: nat): nat { if left == 0 then 0 else Budget(cfg, left - 1) + 2 * cfg.bufferSize + 13 }

  /** What every step makes smaller. */
  function Measure(cfg: Config, s: State): nat
    requires Shaped(cfg, s)
  {
    Budget(cfg, |cfg.plan| - s.next - if Flushing(s.producer) then 1 else 0) + ProducerRank(cfg, s.producer, s.next) + WriterRank(cfg, s.writer) + Signal(cfg, s.fullEvent)
  }

  lemma ProducerDecreases(cfg: Config, s: State, stop: bool)
    requires ValidConfig(cfg) && Inv(cfg, s) && ProducerEnabled(cfg, s)
    ensures Shaped(cfg, ProducerStep(cfg, s, stop)) && Measure(cfg, ProducerStep(cfg, s, stop)) < Measure(cfg, s)
  {
    ProducerKeepsShaped(cfg, s, stop);
    ProducerFrame(cfg, s, stop);
    hide Token; hide Log; hide Result; hide Contents; hide Returned; hide ProducerStep; hide ProducerEnabled;
  }

  predicate ProducerGoes(cfg: Config, s: State, pc: ProducerPc) {
    match s.producer
    case Ready => if pc.WaitingEmpty? then s.next < |cfg.plan| else pc.StopWaiting?
    case WaitingEmpty => pc.Checking?
    case Checking => pc == Copying(0) || pc.Refusing?
    case Copying(i) => pc.SettingSize? || (s.next < |cfg.plan| && i < |cfg.plan[s.next]| && pc == Copying(i + 1))
    case SettingSize => pc.SettingFull?
    case SettingFull => pc.Ready?
    case Refusing => pc.Ready?
    case StopWaiting => pc.StopRequesting?
    case StopRequesting => pc.StopSignalling?
    case StopSignalling => pc.Joining?
    case _ => pc.Stopped?
  }

  lemma ProducerMoves(cfg: Config, s: State, stop: bool)
    requires ValidConfig(cfg) && Shaped(cfg, s) && ProducerEnabled(cfg, s)
    ensures ProducerGoes(cfg, s, ProducerStep(cfg, s, stop).producer)
  {
    match s.producer
    case Ready => if stop { } else { }
    case WaitingEmpty =>
    case Checking => if s.resultOk { } else { }
    case Copying(i) => if i < |cfg.plan[s.next]| { } else { }
    case SettingSize =>
    case SettingFull =>
    case Refusing =>
    case StopWaiting =>
    case StopRequesting =>
    case StopSignalling =>
    case Joining =>
  }

  /** What the formatting thread leaves alone. */
  lemma ProducerFrame(cfg: Config, s: State, stop: bool)
    requires ValidConfig(cfg) && Shaped(cfg, s) && ProducerEnabled(cfg, s)
    ensures var s' := ProducerStep(cfg, s, stop);
            && s'.writer == s.writer && (s'.fullEvent ==> s.fullEvent || s.producer.SettingFull? || s.producer.StopSignalling?)
            && s'.next == (if s.producer.SettingFull? || s.producer.Refusing? then s.next + 1 else s.next)
            && ProducerGoes(cfg, s, s'.producer)
  {
    ProducerMoves(cfg, s, stop);
    hide ProducerGoes;
    match s.producer
    case Ready => if stop { } else { }
    case WaitingEmpty =>
    case Checking => if s.resultOk { } else { }
    case Copying(i) => if i < |cfg.plan[s.next]| { } else { }
    case SettingSize =>
    case SettingFull =>
    case Refusing =>
    case StopWaiting =>
    case StopRequesting =>
    case StopSignalling =>
    case Joining =>
  }

  lemma WriterDecreases(cfg: Config, s: State, fail: bool)
    requires ValidConfig(cfg) && Inv(cfg, s) && WriterEnabled(s)
    ensures Shaped(cfg, WriterStep(cfg, s, fail)) && Measure(cfg, WriterStep(cfg, s, fail)) < Measure(cfg, s)
  {
    WriterKeepsShaped(cfg, s, fail);
    WriterFrame(cfg, s, fail);
    WriterRankFalls(cfg, s, WriterStep(cfg, s, fail));
    hide Inv; hide WriterStep; hide WriterEnabled; hide Budget; hide ProducerRank; hide WriterRank; hide Signal; hide WriterGoes;
  }

  lemma WriterRankFalls(cfg: Config, s: State, s': State)
    requires Shaped(cfg, s) && WriterGoes(s, s'.writer) && (s.writer.WaitingFull? ==> s.fullEvent) && !s.writer.Ended?
    requires s'.fullEvent == (s.fullEvent && !s.writer.WaitingFull?)
    ensures WriterRank(cfg, s'.writer) + Signal(cfg, s'.fullEvent) < WriterRank(cfg, s.writer) + Signal(cfg, s.fullEvent)
  {
    match s.writer
    case Looping =>
    case WaitingFull =>
    case CheckingExit =>
    case Writing(i) =>
    case Reporting(_) =>
    case SettingEmpty =>
    case Ending =>
  }

  /** Every run is finite: it has no more steps than the measure at the start. */
  lemma {:induction false} RunsAreFinite(cfg: Config, run: seq<State>)
    requires ValidConfig(cfg) && IsRun(cfg, run)
    ensures Shaped(cfg, run[|run| - 1]) && Shaped(cfg, Start(cfg))
    ensures |run| - 1 + Measure(cfg, run[|run| - 1]) <= Measure(cfg, Start(cfg))
    decreases |run|
  {
    hide Inv; hide Next; hide Measure;
    StartInv(cfg);
    InvShaped(cfg, Start(cfg));
    if |run| > 1 {
      var before := run[..|run| - 1];
      RunsAreFinite(cfg, before);
      RunKeeps(cfg, before);
      assert before[|before| - 1] == run[|run| - 2];
      StepDecreases(cfg, run[|run| - 2], run[|run| - 1]);
    }
  }

  lemma InvShaped(cfg: Config, s: State)
    requires Inv(cfg, s)
    ensures Shaped(cfg, s)
  {
  }

  lemma StepDecreases(cfg: Config, s: State, s': State)
    requires ValidConfig(cfg) && Inv(cfg, s) && Next(cfg, s, s')
    ensures Shaped(cfg, s) && Shaped(cfg, s') && Measure(cfg, s') < Measure(cfg, s)
  {
    hide Inv; hide Measure;
    if stop: bool :| ProducerEnabled(cfg, s) && s' == ProducerStep(cfg, s, stop) {
      ProducerDecreases(cfg, s, stop);
    } else {
      var fail: bool :| s' == WriterStep(cfg, s, fail);
      WriterDecreases(cfg, s, fail);
    }
  }

  /** When both threads have finished, every buffer whose flush returned TRUE has been given to the device, and the
      device holds all of them exactly if the last write succeeded, which no flush has checked. */
  lemma AtTheEnd(cfg: Config, s: State)
    requires ValidConfig(cfg) && Reachable(cfg, s) && s.producer.Stopped?
    ensures s.writer.Ended? && !s.running && |s.writes| == |s.submitted|
    ensures (forall k :: 0 <= k < |s.writes| ==> s.writes[k] == Write(s.submitted[k], true)) <==> LastOk(s.writes)
    ensures |s.flushes| == |cfg.plan| && (forall k :: 0 <= k < |s.flushes| ==> s.flushes[k]) ==> s.submitted == cfg.plan
  {
    ReachableInv(cfg, s);
    assert |s.submitted| < |s.flushes| ==> !s.flushes[|s.submitted|];
  }

  /** Flushes can all return TRUE although the last write failed. */
  lemma LastWriteIsUnchecked()
    ensures exists cfg: Config, s: State ::
              ValidConfig(cfg) && Reachable(cfg, s) && s.producer.Stopped? && s.flushes == [true] && s.writes == [Write([], false)]
  {
    var cfg := Config([[7]], 1);
    var s := HandedOver(cfg);
    s := Writes(cfg, s, false);
    s := Writes(cfg, s, false);
    s := Writes(cfg, s, false);
    s := Writes(cfg, s, true);
    s := Writes(cfg, s, false);
    s := Writes(cfg, s, false);
    s := StopsFrom(cfg, s);
  }

  lemma StopsFrom(cfg: Config, before: State) returns (s: State)
    requires ValidConfig(cfg) && Reachable(cfg, before) && before.producer.Ready? && before.writer.Looping? && before.emptyEvent && Shaped(cfg, before)
    requires !before.exitRequested
    ensures Reachable(cfg, s) && s.producer.Stopped? && s.flushes == before.flushes && s.writes == before.writes
  {
    s := before;
    s := Produces(cfg, s, true);
    s := Produces(cfg, s, true);
    s := Produces(cfg, s, true);
    s := Produces(cfg, s, true);
    s := Writes(cfg, s, false);
    s := Writes(cfg, s, false);
    s := Produces(cfg, s, true);
  }

  /** The formatting thread about to copy its only buffer. */
  lemma AboutToCopy(cfg: Config) returns (s: State)
    requires cfg == Config([[7]], 1)
    ensures ValidConfig(cfg) && Reachable(cfg, s)
    ensures s == State(Copying(0), Looping, false, false, [0], 0, true, false, true, 0, [], [], [], [])
  {
    s := Start(cfg);
    assert IsRun(cfg, [s]);
    s := Produces(cfg, s, false);
    s := Produces(cfg, s, false);
    s := Produces(cfg, s, false);
  }

  lemma HandedOver(cfg: Config) returns (s: State)
    requires cfg == Config([[7]], 1)
    ensures ValidConfig(cfg) && Reachable(cfg, s)
    ensures s == State(Ready, Looping, false, true, [7], 1, true, false, true, 1, [[7]], [], [], [true])
  {
    s := AboutToCopy(cfg);
    hide Reachable;
    s := Produces(cfg, s, false);
    s := Produces(cfg, s, false);
    s := Produces(cfg, s, false);
    s := Produces(cfg, s, false);
  }

  lemma Produces(cfg: Config, s: State, stop: bool) returns (s': State)
    requires ValidConfig(cfg) && Reachable(cfg, s) && Shaped(cfg, s) && ProducerEnabled(cfg, s)
    ensures s' == ProducerStep(cfg, s, stop) && Reachable(cfg, s')
  {
    s' := ProducerStep(cfg, s, stop);
    OneMore(cfg, s, s');
  }

  lemma Writes(cfg: Config, s: State, fail: bool) returns (s': State)
    requires ValidConfig(cfg) && Reachable(cfg, s) && Shaped(cfg, s) && WriterEnabled(s)
    ensures s' == WriterStep(cfg, s, fail) && Reachable(cfg, s')
  {
    s' := WriterStep(cfg, s, fail);
    OneMore(cfg, s, s');
  }

  lemma OneMore(cfg: Config, s: State, s': State)
    requires ValidConfig(cfg) && Reachable(cfg, s) && Next(cfg, s, s')
    ensures Reachable(cfg, s')
  {
    hide Next;
    var run :| IsRun(cfg, run) && run[|run| - 1] == s;
    assert IsRun(cfg, run + [s']);
  }
}
