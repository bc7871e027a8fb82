// One opened port of android/src/main/kotlin/com/xauron/platform_serial/SerialPort.kt: the read loop,
// any number of readers, resets and closes, interleaved arbitrarily. Readers hold the monitor
// `bufferLock` over several steps, so that `opened`, which close clears outside that monitor, can
// change between a reader's check of it and its wait.
module AndroidBuffer {
  import opened ByteLog
  import opened Optional

  type Id = nat

  datatype Outcome = Bytes(data: seq<Byte>) | PortClosed | TimedOut | Cancelled | BadLength

  /** `waitForIncomingBytes`. From AtHead to CheckingClock the reader holds the monitor. */
  datatype Stage =
    | Wanting
    | AtHead
    | CheckingOpen
    | CheckingClock
    | Waiting
    | Finished(outcome: Outcome)

  /** A read with its deadline, if it has one. */
  datatype Reader = Reader(asked: int, deadline: Option<int>, stage: Stage)

  /** The read loop, and `closeInternal(waitForReadLoop = false)` when the loop fails. */
  datatype Loop =
    | Top
    | Reading
    | Got(payload: seq<Byte>)
    | Caught
    | SelfSection
    | SelfCancel
    | SelfIo
    | SelfFinal
    | Ended

  /** `closeInternal(waitForReadLoop = true)`. */
  datatype Closer = Section | Early | JoinStart | Joining | Forget | Io | Final | Closed

  /** `pendingBytes`, with a record of all bytes the loop appended and of what became of them. */
  datatype Buffer = Buffer(pending: seq<Byte>, received: seq<Byte>, log: seq<Removal>)

  /** `opened`, `connection` not null, `readLoopJob` not null, that job cancelled; and, as a record, that
      some close which waits for the loop has finished. */
  datatype Life = Life(isOpen: bool, connected: bool, jobKnown: bool, cancelled: bool, closed: bool)

  datatype State = State(buffer: Buffer, life: Life, monitor: Option<Id>, loop: Loop,
                         readers: map<Id, Reader>, closers: map<Id, Closer>)

  /** Right after `open`. */
  const initial := State(Buffer([], [], []), Life(true, true, true, false, false), None, Top, map[], map[])

  datatype Step =
    | StartRead(r: Id, asked: int, now: int, timeout: nat)
    | Acquire(r: Id)
    | SeeBuffer(r: Id)
    | SeeOpened(r: Id)
    | SeeClock(r: Id, now: int)
    | WakeUp(r: Id)
    | Interrupt(r: Id)
    | LoopTop
    | DeviceGives(payload: seq<Byte>)
    | DeviceFails
    | Append
    | Handle
    | SelfClose
    | SelfAbort
    | Reset
    | StartClose(c: Id)
    | CloseStep(c: Id)

  predicate ReaderAt(s: State, r: Id, stage: Stage) {
    r in s.readers && s.readers[r].stage == stage
  }

  predicate Enabled(s: State, step: Step) {
    match step
    case StartRead(r, _, _, _) => r !in s.readers
    case Acquire(r) => ReaderAt(s, r, Wanting) && s.monitor == None
    case SeeBuffer(r) => ReaderAt(s, r, AtHead)
    case SeeOpened(r) => ReaderAt(s, r, CheckingOpen)
    case SeeClock(r, _) => ReaderAt(s, r, CheckingClock)
    case WakeUp(r) => ReaderAt(s, r, Waiting)
    case Interrupt(r) => ReaderAt(s, r, Waiting)
    case LoopTop => s.loop == Top
    case DeviceGives(_) => s.loop == Reading
    case DeviceFails => s.loop == Reading
    case Append => s.loop.Got? && s.monitor == None
    case Handle => s.loop == Caught
    case SelfClose =>
      s.loop == SelfSection || s.loop == SelfCancel || s.loop == SelfIo || (s.loop == SelfFinal && s.monitor == None)
    case SelfAbort => s.loop == SelfIo && s.life.cancelled
    case Reset => s.monitor == None
    case StartClose(c) => c !in s.closers
    case CloseStep(c) => c in s.closers && CloserMay(s, s.closers[c])
  }

  /** A closer waits for the loop while joining and for the monitor before its clear. */
  predicate CloserMay(s: State, stage: Closer) {
    match stage
    case Early => s.monitor == None
    case Joining => s.loop == Ended
    case Final => s.monitor == None
    case Closed => false
    case _ => true
  }

  function MoveReader(s: State, r: Id, stage: Stage): State
    requires r in s.readers
  {
    s.(readers := s.readers[r := s.readers[r].(stage := stage)])
  }

  /** `notifyAll`: every waiting reader must take the monitor again. */
  function Woken(readers: map<Id, Reader>): map<Id, Reader> {
    map r | r in readers :: if readers[r].stage == Waiting then readers[r].(stage := Wanting) else readers[r]
  }

  /** `pendingBytes.clear(); bufferLock.notifyAll()`. */
  function ClearAndNotify(s: State): State {
    s.(buffer := Buffer([], s.buffer.received, s.buffer.log + [Discarded(s.buffer.pending)]),
       readers := Woken(s.readers))
  }

  /** The bytes a reader that asked for `asked` takes. */
  function Front(pending: seq<Byte>, asked: int): seq<Byte>
    requires asked > 0
  {
    pending[..Min(asked, |pending|)]
  }

  /** `timeout` is `readTimeoutMillis`, where 0 means for ever. */
  function DeadlineOf(now: int, timeout: nat): Option<int> {
    if timeout == 0 then None else Some(now + timeout)
  }

  ghost predicate ReadersAsk(s: State) {
    forall r :: r in s.readers && s.readers[r].stage != Finished(BadLength) ==> s.readers[r].asked > 0
  }

  predicate ReaderStep(step: Step) {
    step.StartRead? || step.Acquire? || step.SeeBuffer? || step.SeeOpened? || step.SeeClock? || step.WakeUp?
    || step.Interrupt?
  }

  /** `read` and `waitForIncomingBytes`. */
  function ReadStep(s: State, step: Step): State
    requires Enabled(s, step) && ReadersAsk(s) && ReaderStep(step)
  {
    match step
    case StartRead(r, asked, now, timeout) =>
      s.(readers := s.readers[r := if asked <= 0 then Reader(asked, None, Finished(BadLength))
                                   else Reader(asked, DeadlineOf(now, timeout), Wanting)])
    case Acquire(r) => MoveReader(s, r, AtHead).(monitor := Some(r))
    case SeeBuffer(r) =>
      if s.buffer.pending == [] then MoveReader(s, r, CheckingOpen)
      else
        var data := Front(s.buffer.pending, s.readers[r].asked);
        MoveReader(s, r, Finished(Bytes(data)))
        .(monitor := None, buffer := Buffer(s.buffer.pending[|data|..], s.buffer.received,
                                            s.buffer.log + [Taken(r, data)]))
    case SeeOpened(r) =>
      if s.life.isOpen then MoveReader(s, r, CheckingClock)
      else MoveReader(s, r, Finished(PortClosed)).(monitor := None)
    case SeeClock(r, now) =>
      var deadline := s.readers[r].deadline;
      MoveReader(s, r, if deadline.Some? && deadline.value - now <= 0 then Finished(TimedOut) else Waiting)
      .(monitor := None)
    case WakeUp(r) => MoveReader(s, r, Wanting)
    case Interrupt(r) => MoveReader(s, r, Finished(Cancelled))
  }

  function Apply(s: State, step: Step): State
    requires Enabled(s, step) && ReadersAsk(s)
  {
    match step
    case LoopTop => s.(loop := if !s.life.cancelled && s.life.isOpen then Reading else Ended)
    case DeviceGives(payload) => s.(loop := if payload == [] then Top else Got(payload))
    case DeviceFails => s.(loop := Caught)
    case Append =>
      s.(buffer := Buffer(s.buffer.pending + s.loop.payload, s.buffer.received + s.loop.payload, s.buffer.log),
         readers := Woken(s.readers), loop := Top)
    case Handle => s.(loop := if s.life.isOpen then SelfSection else Ended)
    case SelfClose => SelfCloseStep(s)
    case SelfAbort => s.(loop := Ended)
    case Reset => ClearAndNotify(s)
    case StartClose(c) => s.(closers := s.closers[c := Section])
    case CloseStep(c) => CloserStep(s, c)
    case _ => ReadStep(s, step)
  }

  /** A self-close that finds the port already closed clears and returns; otherwise it goes on. */
  function NextSelf(l: Life, loop: Loop): (Life, Loop) {
    match loop
    case SelfSection => if !l.isOpen && !l.connected then (l, SelfFinal) else (l.(isOpen := false), SelfCancel)
    case SelfCancel => (l.(cancelled := l.cancelled || l.jobKnown, jobKnown := false), SelfIo)
    case SelfIo => (l.(connected := false), SelfFinal)
    case _ => (l, Ended)
  }

  function SelfCloseStep(s: State): State {
    var (life, loop) := NextSelf(s.life, s.loop);
    (if loop == Ended then ClearAndNotify(s) else s).(life := life, loop := loop)
  }

  function NextCloser(l: Life, stage: Closer): (Life, Closer) {
    match stage
    case Section => if !l.isOpen && !l.connected then (l, Early) else (l.(isOpen := false), JoinStart)
    case JoinStart => (l.(cancelled := l.cancelled || l.jobKnown), if l.jobKnown then Joining else Forget)
    case Joining => (l, Forget)
    case Forget => (l.(jobKnown := false), Io)
    case Io => (l.(connected := false), Final)
    case _ => (l.(closed := true), Closed)
  }

  /** Every close ends by clearing the buffer and notifying. */
  function CloserStep(s: State, c: Id): State
    requires c in s.closers
  {
    var (life, stage) := NextCloser(s.life, s.closers[c]);
    (if stage == Closed then ClearAndNotify(s) else s).(life := life, closers := s.closers[c := stage])
  }

  /** The loop will append nothing more. */
  predicate Quiet(loop: Loop) {
    loop == SelfSection || loop == SelfCancel || loop == SelfIo || loop == SelfFinal || loop == Ended
  }

  predicate HoldsMonitor(stage: Stage) {
    stage == AtHead || stage == CheckingOpen || stage == CheckingClock
  }

  /** The reader found the buffer empty and has not looked again. */
  predicate Starved(stage: Stage) {
    stage == CheckingOpen || stage == CheckingClock || stage == Waiting
  }

  /** Blocked, or about to block without looking at `opened` again. */
  predicate Blocking(stage: Stage) {
    stage == CheckingClock || stage == Waiting
  }

  /** Every byte the loop appended was taken, discarded, or is pending, in order; a reader that
      finished with bytes took them once, at least one and no more than it asked for. */
  ghost predicate Accounted(s: State) {
    && Flat(s.buffer.log) + s.buffer.pending == s.buffer.received
    && AnsweredOnce(s.buffer.log)
    && (forall r :: r in s.readers && s.readers[r].stage.Finished? && s.readers[r].stage.outcome.Bytes? ==>
          Taken(r, s.readers[r].stage.outcome.data) in s.buffer.log)
    && (forall e :: e in s.buffer.log && e.Taken? ==>
          e.reader in s.readers && s.readers[e.reader].stage == Finished(Bytes(e.bytes))
          && 1 <= |e.bytes| <= s.readers[e.reader].asked)
  }

  /** At most one reader is inside the monitor, and nobody waits while bytes are pending. */
  ghost predicate MonitorKept(s: State) {
    && ReadersAsk(s)
    && (forall r :: r in s.readers && HoldsMonitor(s.readers[r].stage) ==> s.monitor == Some(r))
    && (s.monitor.Some? ==> s.monitor.value in s.readers && HoldsMonitor(s.readers[s.monitor.value].stage))
    && (forall r :: r in s.readers && Starved(s.readers[r].stage) ==> s.buffer.pending == [])
  }

  /** How far each close has got, and what that says of the loop. */
  ghost predicate Closing(s: State) {
    && (!s.life.jobKnown || !s.life.connected ==> Quiet(s.loop) && !s.life.isOpen)
    && (s.loop == SelfCancel || s.loop == SelfIo || s.loop == SelfFinal ==> !s.life.isOpen)
    && (forall c :: c in s.closers && s.closers[c] != Section ==> !s.life.isOpen)
    && (forall c :: c in s.closers && s.closers[c] in {Early, Forget, Io, Final, Closed} ==> Quiet(s.loop))
    && (forall c :: c in s.closers && s.closers[c] == Closed ==> s.life.closed)
    && (s.life.closed ==>
          !s.life.isOpen && Quiet(s.loop) && s.buffer.pending == []
          && forall r :: r in s.readers ==> !Blocking(s.readers[r].stage))
  }

  ghost predicate Inv(s: State) {
    Accounted(s) && MonitorKept(s) && Closing(s)
  }

  lemma InitialHolds()
    ensures Inv(initial)
  {
  }

  /** One reader moved, taking or giving up the monitor as its stage says. */
  lemma MoveKeepsMonitor(s: State, s': State, r: Id, reader: Reader)
    requires MonitorKept(s) && s'.readers == s.readers[r := reader]
    requires reader.stage != Finished(BadLength) ==> reader.asked > 0
    requires (r in s.readers && HoldsMonitor(s.readers[r].stage)) ||
             (HoldsMonitor(reader.stage) ==> s.monitor == None)
    requires s'.monitor == if HoldsMonitor(reader.stage) then Some(r)
                           else if r in s.readers && HoldsMonitor(s.readers[r].stage) then None else s.monitor
    requires s'.buffer.pending == s.buffer.pending
             || (|s'.buffer.pending| < |s.buffer.pending| && !Starved(reader.stage))
    requires Starved(reader.stage) ==> s'.buffer.pending == []
    ensures MonitorKept(s')
  {
  }

  lemma ReaderStepKeepsMonitor(s: State, step: Step)
    requires MonitorKept(s) && Enabled(s, step) && ReaderStep(step)
    ensures MonitorKept(Apply(s, step))
  {
    var s' := Apply(s, step);
    if step.SeeBuffer? {
      SeeBufferKeepsMonitor(s, step.r);
    } else {
      MoveKeepsMonitor(s, s', step.r, s'.readers[step.r]);
    }
  }

  lemma SeeBufferKeepsMonitor(s: State, r: Id)
    requires MonitorKept(s) && Enabled(s, SeeBuffer(r))
    ensures MonitorKept(Apply(s, SeeBuffer(r)))
  {
    var s' := Apply(s, SeeBuffer(r));
    MoveKeepsMonitor(s, s', r, s'.readers[r]);
  }

  lemma ClearKeepsMonitor(s: State)
    requires MonitorKept(s) && s.monitor == None
    ensures MonitorKept(ClearAndNotify(s))
  {
  }

  lemma AppendKeepsMonitor(s: State)
    requires MonitorKept(s) && Enabled(s, Append)
    ensures MonitorKept(Apply(s, Append))
  {
  }

  lemma MonitorFramed(s: State, s': State)
    requires MonitorKept(s) && SameBuffer(s, s')
    ensures MonitorKept(s')
  {
  }

  /** Does the step clear the buffer? */
  predicate Clears(s: State, step: Step)
    requires Enabled(s, step)
  {
    || step.Reset?
    || (step.SelfClose? && s.loop == SelfFinal)
    || (step.CloseStep? && (s.closers[step.c] == Early || s.closers[step.c] == Final))
  }

  /** What readers, monitor and accounts see of a state. */
  predicate SameBuffer(s: State, s': State) {
    s'.readers == s.readers && s'.monitor == s.monitor && s'.buffer.pending == s.buffer.pending
    && s'.buffer.received == s.buffer.received && s'.buffer.log == s.buffer.log
  }

  lemma CloserOutside(s: State, c: Id)
    requires Enabled(s, CloseStep(c))
    ensures var base := if Clears(s, CloseStep(c)) then ClearAndNotify(s) else s;
      SameBuffer(base, CloserStep(s, c))
  {
  }

  lemma SelfOutside(s: State)
    requires Enabled(s, SelfClose)
    ensures var base := if Clears(s, SelfClose) then ClearAndNotify(s) else s;
      SameBuffer(base, SelfCloseStep(s))
  {
  }

  /** Steps that are neither a reader's nor the append touch the buffer only by clearing it. */
  lemma OutsideStep(s: State, step: Step)
    requires ReadersAsk(s) && Enabled(s, step) && !step.Append? && !ReaderStep(step)
    ensures SameBuffer(if Clears(s, step) then ClearAndNotify(s) else s, Apply(s, step))
    ensures Clears(s, step) ==> s.monitor == None
  {
    if step.CloseStep? {
      CloserOutside(s, step.c);
    } else if step.SelfClose? {
      SelfOutside(s);
    }
  }

  lemma MonitorIsKept(s: State, step: Step)
    requires MonitorKept(s) && Enabled(s, step)
    ensures MonitorKept(Apply(s, step))
  {
    if ReaderStep(step) {
      ReaderStepKeepsMonitor(s, step);
    } else if step.Append? {
      AppendKeepsMonitor(s);
    } else if Clears(s, step) {
      OutsideStep(s, step);
      ClearKeepsMonitor(s);
      MonitorFramed(ClearAndNotify(s), Apply(s, step));
    } else {
      OutsideStep(s, step);
      MonitorFramed(s, Apply(s, step));
    }
  }

  lemma ReaderStepKeepsClosing(s: State, step: Step)
    requires MonitorKept(s) && Closing(s) && Enabled(s, step) && ReaderStep(step)
    ensures Closing(Apply(s, step))
  {
  }

  lemma SelfKeepsClosing(s: State)
    requires MonitorKept(s) && Closing(s) && Enabled(s, SelfClose)
    ensures Closing(SelfCloseStep(s))
  {
  }

  lemma LoopStepKeepsClosing(s: State, step: Step)
    requires MonitorKept(s) && Closing(s) && Enabled(s, step) && !ReaderStep(step) && !step.CloseStep?
    ensures Closing(Apply(s, step))
  {
    if step.SelfClose? {
      SelfKeepsClosing(s);
    }
  }

  lemma CloserKeepsClosing(s: State, c: Id)
    requires MonitorKept(s) && Closing(s) && Enabled(s, CloseStep(c))
    requires s.closers[c] != Early && s.closers[c] != Final
    ensures Closing(CloserStep(s, c))
  {
  }

  /** The final notify of a close: the monitor is free, so every reader that saw `opened` still set
      is in the wait set and is woken. */
  lemma FinalNotify(s: State, c: Id)
    requires MonitorKept(s) && Closing(s) && Enabled(s, CloseStep(c))
    requires s.closers[c] == Early || s.closers[c] == Final
    ensures Closing(CloserStep(s, c))
  {
  }

  lemma ClosingKept(s: State, step: Step)
    requires MonitorKept(s) && Closing(s) && Enabled(s, step)
    ensures Closing(Apply(s, step))
  {
    if ReaderStep(step) {
      ReaderStepKeepsClosing(s, step);
    } else if !step.CloseStep? {
      LoopStepKeepsClosing(s, step);
    } else if s.closers[step.c] == Early || s.closers[step.c] == Final {
      FinalNotify(s, step.c);
    } else {
      CloserKeepsClosing(s, step.c);
    }
  }

  /** Clearing accounts for the bytes it drops; `notifyAll` changes no reader that has finished. */
  lemma ClearAccounts(s: State)
    requires Accounted(s)
    ensures Accounted(ClearAndNotify(s))
  {
    var dropped := Discarded(s.buffer.pending);
    FlatSnoc(s.buffer.log, dropped);
    assert Flat(s.buffer.log + [dropped]) + [] == s.buffer.received;
    DropAnswersNobody(s.buffer.log, dropped);
    FinishedSleepOn(s.readers);
  }

  lemma DropAnswersNobody(log: seq<Removal>, dropped: Removal)
    requires AnsweredOnce(log) && dropped.Discarded?
    ensures AnsweredOnce(log + [dropped])
    ensures forall e: Removal :: e.Taken? ==> (e in log + [dropped] <==> e in log)
  {
    forall e: Removal | e.Taken? ensures e in log + [dropped] <==> e in log {
      InSnoc(log, dropped, e);
    }
  }

  lemma FinishedSleepOn(readers: map<Id, Reader>)
    ensures Woken(readers).Keys == readers.Keys
    ensures forall r :: r in readers && readers[r].stage.Finished? ==> Woken(readers)[r] == readers[r]
    ensures forall r :: r in readers && Woken(readers)[r].stage.Finished? ==> Woken(readers)[r] == readers[r]
  {
  }

  lemma AppendAccounts(s: State)
    requires Accounted(s) && MonitorKept(s) && Enabled(s, Append)
    ensures Accounted(Apply(s, Append))
  {
  }

  lemma TakeAccounts(s: State, r: Id)
    requires Accounted(s) && MonitorKept(s) && Enabled(s, SeeBuffer(r)) && s.buffer.pending != []
    ensures Accounted(Apply(s, SeeBuffer(r)))
  {
    var data := Front(s.buffer.pending, s.readers[r].asked);
    TakeKeepsFlow(s.buffer.log, s.buffer.pending, r, |data|);
    NewAnswer(s.buffer.log, r, data);
    forall e ensures e in s.buffer.log + [Taken(r, data)] <==> e in s.buffer.log || e == Taken(r, data) {
      InSnoc(s.buffer.log, Taken(r, data), e);
    }
  }

  lemma AccountFramed(s: State, s': State)
    requires Accounted(s) && SameBuffer(s, s')
    ensures Accounted(s')
  {
  }

  /** A reader that moves without finishing with bytes changes no account. */
  lemma MoveAccounts(s: State, s': State, r: Id, reader: Reader)
    requires Accounted(s) && s'.readers == s.readers[r := reader]
    requires s'.buffer == s.buffer
    requires r in s.readers ==> !s.readers[r].stage.Finished?
    requires !(reader.stage.Finished? && reader.stage.outcome.Bytes?)
    ensures Accounted(s')
  {
  }

  lemma ReaderMoves(s: State, step: Step)
    requires ReadersAsk(s) && Enabled(s, step) && ReaderStep(step)
    requires step.SeeBuffer? ==> s.buffer.pending == []
    ensures var s' := Apply(s, step);
      && step.r in s'.readers && s'.readers == s.readers[step.r := s'.readers[step.r]]
      && s'.buffer == s.buffer
      && (step.r in s.readers ==> !s.readers[step.r].stage.Finished?)
      && !(s'.readers[step.r].stage.Finished? && s'.readers[step.r].stage.outcome.Bytes?)
  {
  }

  lemma AccountKept(s: State, step: Step)
    requires Accounted(s) && MonitorKept(s) && Enabled(s, step)
    ensures Accounted(Apply(s, step))
  {
    if step.Append? {
      AppendAccounts(s);
    } else if step.SeeBuffer? && s.buffer.pending != [] {
      TakeAccounts(s, step.r);
    } else if ReaderStep(step) {
      ReaderMoves(s, step);
      MoveAccounts(s, Apply(s, step), step.r, Apply(s, step).readers[step.r]);
    } else if Clears(s, step) {
      OutsideStep(s, step);
      ClearAccounts(s);
      AccountFramed(ClearAndNotify(s), Apply(s, step));
    } else {
      OutsideStep(s, step);
      AccountFramed(s, Apply(s, step));
    }
  }

  lemma InvKept(s: State, step: Step)
    requires Inv(s) && Enabled(s, step)
    ensures Inv(Apply(s, step))
  {
    AccountKept(s, step);
    MonitorIsKept(s, step);
    ClosingKept(s, step);
  }

  /** A run after `open`: any readers, resets and closes, any device, any schedule. */
  ghost predicate Run(states: seq<State>, steps: seq<Step>) {
    && |states| == |steps| + 1 && states[0] == initial
    && forall i :: 0 <= i < |steps| ==>
         ReadersAsk(states[i]) && Enabled(states[i], steps[i]) && states[i + 1] == Apply(states[i], steps[i])
  }

  lemma {:induction false} EveryRun(states: seq<State>, steps: seq<Step>, i: nat)
    requires Run(states, steps) && i < |states|
    ensures Inv(states[i])
  {
    if i > 0 {
      EveryRun(states, steps, i - 1);
      InvKept(states[i - 1], steps[i - 1]);
    }
  }

  /** Conservation: in the order of the lock, what readers took and what was discarded is exactly the
      prefix of all bytes received that is no longer pending; each answer has the right size. */
  lemma BytesConserved(states: seq<State>, steps: seq<Step>, i: nat)
    requires Run(states, steps) && i < |states|
    ensures var s := states[i];
      && Flat(s.buffer.log) + s.buffer.pending == s.buffer.received
      && AnsweredOnce(s.buffer.log)
      && forall r :: r in s.readers && s.readers[r].stage.Finished? && s.readers[r].stage.outcome.Bytes? ==>
           Taken(r, s.readers[r].stage.outcome.data) in s.buffer.log
           && 1 <= |s.readers[r].stage.outcome.data| <= s.readers[r].asked
  {
    EveryRun(states, steps, i);
  }

  /** Nobody sleeps on data: while a reader is blocked there is nothing to read. */
  lemma BlockedMeansEmpty(states: seq<State>, steps: seq<Step>, i: nat, r: Id)
    requires Run(states, steps) && i < |states| && ReaderAt(states[i], r, Waiting)
    ensures states[i].buffer.pending == []
  {
    EveryRun(states, steps, i);
  }

  lemma CloserKeepsClosed(s: State, c: Id)
    requires Enabled(s, CloseStep(c)) && s.life.closed
    ensures CloserStep(s, c).life.closed
  {
  }

  lemma ClosedKept(s: State, step: Step)
    requires ReadersAsk(s) && Enabled(s, step) && s.life.closed
    ensures Apply(s, step).life.closed
  {
    if step.CloseStep? {
      CloserKeepsClosed(s, step.c);
    } else if ReaderStep(step) {
    } else if step.SelfClose? {
    } else {
      assert Apply(s, step).life.closed == s.life.closed;
    }
  }

  lemma {:induction false} ClosedStays(states: seq<State>, steps: seq<Step>, i: nat, j: nat)
    requires Run(states, steps) && i <= j < |states| && states[i].life.closed
    ensures states[j].life.closed
  {
    if i < j {
      ClosedStays(states, steps, i, j - 1);
      ClosedKept(states[j - 1], steps[j - 1]);
    }
  }

  /** No lost wake-up: once a close that waits for the read loop has done its final notify, no reader
      is blocked, none ever blocks again, and the buffer stays empty. */
  lemma NoReaderBlocksAfterClose(states: seq<State>, steps: seq<Step>, i: nat, j: nat, c: Id, r: Id)
    requires Run(states, steps) && i <= j < |states|
    requires c in states[i].closers && states[i].closers[c] == Closed
    ensures !ReaderAt(states[j], r, Waiting) && states[j].buffer.pending == [] && !states[j].life.isOpen
  {
    EveryRun(states, steps, i);
    ClosedStays(states, steps, i, j);
    EveryRun(states, steps, j);
  }

  /** Steps a reader still has to take once it cannot block. */
  function Rank(stage: Stage): nat {
    match stage
    case Waiting => 4
    case Wanting => 3
    case AtHead => 2
    case CheckingOpen => 1
    case CheckingClock => 1
    case Finished(_) => 0
  }

  /** After such a close each step a reader takes brings it nearer its end, which is PORT_CLOSED. */
  lemma ReadersLeaveAfterClose(states: seq<State>, steps: seq<Step>, i: nat)
    requires Run(states, steps) && i < |steps| && states[i].life.closed
    requires ReaderStep(steps[i]) && !steps[i].StartRead?
    ensures var r := steps[i].r;
      && Rank(states[i + 1].readers[r].stage) < Rank(states[i].readers[r].stage)
      && (states[i + 1].readers[r].stage.Finished? ==> states[i + 1].readers[r].stage.outcome == PortClosed)
  {
    EveryRun(states, steps, i);
  }

  /** And a reader that has not finished can always move once the monitor is free, so it gets there. */
  lemma ReadersCanLeaveAfterClose(states: seq<State>, steps: seq<Step>, i: nat, r: Id)
    requires Run(states, steps) && i < |states| && states[i].life.closed
    requires r in states[i].readers && !states[i].readers[r].stage.Finished?
    ensures exists step :: ReaderStep(step) && !step.StartRead? && Enabled(states[i], step)
                           && (step.r == r || states[i].monitor == Some(step.r))
  {
    EveryRun(states, steps, i);
    var s := states[i];
    var holder := if s.monitor.Some? then s.monitor.value else r;
    if s.readers[holder].stage == Wanting {
      assert Enabled(s, Acquire(holder));
    } else if s.readers[holder].stage == AtHead {
      assert Enabled(s, SeeBuffer(holder));
    } else {
      assert Enabled(s, SeeOpened(holder));
    }
  }

  /** The deque `pendingBytes` itself, as its two loops use it under the monitor. */
  class PendingBytes {
    var bytes: seq<Byte>

    constructor ()
      ensures bytes == []
    {
      bytes := [];
    }

    /** `payload.forEach(pendingBytes::addLast)`. */
    method AppendLocked(payload: seq<Byte>)
      modifies this
      ensures bytes == old(bytes) + payload
    {
      for i := 0 to |payload|
        invariant bytes == old(bytes) + payload[..i]
      {
        bytes := bytes + [payload[i]];
      }
    }

    /** The tail of `waitForIncomingBytes`: one `removeFirst` per byte. */
    method TakeLocked(requested: int) returns (result: array<Byte>)
      requires requested > 0
      modifies this
      ensures fresh(result) && result[..] == Front(old(bytes), requested)
      ensures bytes == old(bytes)[result.Length..]
    {
      var bytesToRead := Min(requested, |bytes|);
      result := new Byte[bytesToRead];
      for index := 0 to bytesToRead
        invariant bytes == old(bytes)[index..]
        invariant result[..index] == old(bytes)[..index]
      {
        result[index] := bytes[0];
        bytes := bytes[1..];
      }
    }
  }
}
