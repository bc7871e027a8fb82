// Why each read of an Android port ends as it does, that no byte is lost between the device and the
// buffer, and that a close comes to its end.
module AndroidAnswers {
  import opened AndroidBuffer
  import opened ByteLog
  import opened Optional

  /** All bytes the device gave, in order. */
  function Given(steps: seq<Step>): seq<Byte> {
    if steps == [] then [] else Given(steps[..|steps| - 1]) + GivenBy(steps[|steps| - 1])
  }

  function GivenBy(step: Step): seq<Byte> { if step.DeviceGives? then step.payload else [] }

  /** What the loop has read and not yet appended. */
  function Carried(loop: Loop): seq<Byte> { if loop.Got? then loop.payload else [] }

  lemma StepCarries(s: State, step: Step)
    requires ReadersAsk(s) && Enabled(s, step)
    ensures Apply(s, step).buffer.received + Carried(Apply(s, step).loop)
            == s.buffer.received + Carried(s.loop) + GivenBy(step)
  {
  }

  /** Every byte the device gives arrives: what was received, with what the loop is still carrying, is
      everything the device ever gave. */
  lemma {:induction false} DeviceBytesArrive(states: seq<State>, steps: seq<Step>, i: nat)
    requires Run(states, steps) && i < |states|
    ensures Given(steps[..i]) == states[i].buffer.received + Carried(states[i].loop)
  {
    if i > 0 {
      DeviceBytesArrive(states, steps, i - 1);
      StepCarries(states[i - 1], steps[i - 1]);
      assert steps[..i][..i - 1] == steps[..i - 1];
    }
  }

  /** From the device to the readers: what reads took and resets dropped, followed by what is pending and
      what the loop is carrying, is everything the device gave. */
  lemma DeviceToReaders(states: seq<State>, steps: seq<Step>, i: nat)
    requires Run(states, steps) && i < |states|
    ensures Flat(states[i].buffer.log) + states[i].buffer.pending + Carried(states[i].loop) == Given(steps[..i])
  {
    DeviceBytesArrive(states, steps, i);
    EveryRun(states, steps, i);
  }

  /** The step from `s` to `s'` is a reason for a read to end with `outcome`. A read gets all it asked
      for or all there was. */
  predicate Explains(s: State, step: Step, s': State, reader: Reader, outcome: Outcome) {
    match outcome
    case Bytes(data) =>
      && step.SeeBuffer? && data != [] && s.buffer.pending == data + s'.buffer.pending
      && (|data| == reader.asked || (|data| < reader.asked && s'.buffer.pending == []))
    case PortClosed => step.SeeOpened? && !s.life.isOpen && s.buffer.pending == []
    case TimedOut =>
      step.SeeClock? && reader.deadline.Some? && step.now >= reader.deadline.value && s.buffer.pending == []
    case Cancelled => step.Interrupt?
    case BadLength => step.StartRead? && reader.asked <= 0
  }

  lemma OutcomeExplained(s: State, step: Step)
    requires Inv(s) && Enabled(s, step) && ReaderStep(step)
    ensures var reader := Apply(s, step).readers[step.r];
      reader.stage.Finished? ==> Explains(s, step, Apply(s, step), reader, reader.stage.outcome)
  {
  }

  /** A step that is not the reader's own does not end its read. */
  lemma OthersEndNothing(s: State, step: Step, r: Id)
    requires ReadersAsk(s) && Enabled(s, step) && !(ReaderStep(step) && step.r == r)
    requires r in Apply(s, step).readers
    ensures r in s.readers
    ensures var a, b := s.readers[r], Apply(s, step).readers[r];
      && a.asked == b.asked && a.deadline == b.deadline
      && (b == a || (a.stage == Waiting && b.stage == Wanting))
  {
    if !ReaderStep(step) && !step.Append? {
      OutsideStep(s, step);
    }
  }

  /** The step that ended a read. */
  lemma {:induction false} EndOfRead(states: seq<State>, steps: seq<Step>, i: nat, r: Id) returns (k: nat)
    requires Run(states, steps) && i < |states| && r in states[i].readers && states[i].readers[r].stage.Finished?
    ensures k < i && ReaderStep(steps[k]) && steps[k].r == r
    ensures r in states[k + 1].readers && states[k + 1].readers[r] == states[i].readers[r]
  {
    k := i - 1;
    if !(ReaderStep(steps[k]) && steps[k].r == r) {
      OthersEndNothing(states[k], steps[k], r);
      k := EndOfRead(states, steps, k, r);
    }
  }

  /** In every run every read has a reason to end as it does: bytes taken from the front, as many as asked
      for or all there were; the port seen closed, or the deadline passed, with nothing to read; an
      interruption; or a bad length. */
  lemma OutcomesHaveReasons(states: seq<State>, steps: seq<Step>, i: nat, r: Id) returns (k: nat)
    requires Run(states, steps) && i < |states| && r in states[i].readers && states[i].readers[r].stage.Finished?
    ensures k < i && ReaderStep(steps[k]) && steps[k].r == r
    ensures Explains(states[k], steps[k], states[k + 1], states[i].readers[r], states[i].readers[r].stage.outcome)
  {
    k := EndOfRead(states, steps, i, r);
    EveryRun(states, steps, k);
    OutcomeExplained(states[k], steps[k]);
  }

  /** A blocked reader looked at the clock and its deadline, if it has one, had not passed. */
  lemma {:induction false} BlockedInTime(states: seq<State>, steps: seq<Step>, i: nat, r: Id) returns (k: nat)
    requires Run(states, steps) && i < |states| && ReaderAt(states[i], r, Waiting)
    ensures k < i && steps[k].SeeClock? && steps[k].r == r
    ensures states[i].readers[r].deadline.Some? ==> steps[k].now < states[i].readers[r].deadline.value
  {
    k := i - 1;
    if !(ReaderStep(steps[k]) && steps[k].r == r) {
      OthersEndNothing(states[k], steps[k], r);
      k := BlockedInTime(states, steps, k, r);
    }
  }

  lemma ReaderKeepsTerms(s: State, step: Step)
    requires ReadersAsk(s) && Enabled(s, step) && ReaderStep(step) && !step.StartRead?
    ensures var a, b := s.readers[step.r], Apply(s, step).readers[step.r];
      a.asked == b.asked && a.deadline == b.deadline
  {
  }

  /** The deadline of a read is the timeout after it began, and there is none when the timeout is 0; so
      such a read never times out. */
  lemma {:induction false} DeadlineIsStartPlusTimeout(states: seq<State>, steps: seq<Step>, i: nat, r: Id)
    returns (k: nat)
    requires Run(states, steps) && i < |states| && r in states[i].readers
    ensures k < i && steps[k].StartRead? && steps[k].r == r && steps[k].asked == states[i].readers[r].asked
    ensures states[i].readers[r].deadline ==
            if steps[k].timeout == 0 || steps[k].asked <= 0 then None else Some(steps[k].now + steps[k].timeout)
  {
    k := i - 1;
    if !(steps[k].StartRead? && steps[k].r == r) {
      if ReaderStep(steps[k]) && steps[k].r == r {
        ReaderKeepsTerms(states[k], steps[k]);
      } else {
        OthersEndNothing(states[k], steps[k], r);
      }
      k := DeadlineIsStartPlusTimeout(states, steps, k, r);
    }
  }

  /** A reset empties the buffer, makes a record of all it dropped, and wakes everybody. */
  lemma ResetDropsEverything(states: seq<State>, steps: seq<Step>, i: nat, r: Id)
    requires Run(states, steps) && i < |steps| && steps[i].Reset?
    ensures states[i + 1].buffer.pending == [] && !ReaderAt(states[i + 1], r, Waiting)
    ensures states[i + 1].buffer.log == states[i].buffer.log + [Discarded(states[i].buffer.pending)]
  {
  }

  /** The loop ends, or is told to, only once the port is no longer open. */
  predicate Alive(s: State) {
    s.life.isOpen ==> s.loop != Ended && !s.life.cancelled
  }

  lemma AliveKept(s: State, step: Step)
    requires Inv(s) && Alive(s) && Enabled(s, step)
    ensures Alive(Apply(s, step))
  {
  }

  /** While the port is open the read loop runs: if the device fails, the loop closes the port. */
  lemma LoopRunsWhileOpen(states: seq<State>, steps: seq<Step>, i: nat)
    requires Run(states, steps) && i < |states| && states[i].life.isOpen
    ensures states[i].loop != Ended && !states[i].life.cancelled
  {
    AliveInEveryRun(states, steps, i);
  }

  lemma {:induction false} AliveInEveryRun(states: seq<State>, steps: seq<Step>, i: nat)
    requires Run(states, steps) && i < |states|
    ensures Alive(states[i])
  {
    if i > 0 {
      AliveInEveryRun(states, steps, i - 1);
      EveryRun(states, steps, i - 1);
      AliveKept(states[i - 1], steps[i - 1]);
    }
  }

  /** Steps a close still has to take at most. */
  function CloserRank(stage: Closer): nat {
    match stage
    case Section => 6
    case JoinStart => 5
    case Joining => 4
    case Forget => 3
    case Io => 2
    case Early => 1
    case Final => 1
    case Closed => 0
  }

  predicate LoopStep(step: Step) {
    step.LoopTop? || step.DeviceGives? || step.DeviceFails? || step.Append? || step.Handle? || step.SelfClose?
    || step.SelfAbort?
  }

  function LoopRank(loop: Loop): nat {
    match loop
    case Reading => 6
    case Got(_) => 5
    case SelfSection => 5
    case SelfCancel => 4
    case SelfIo => 3
    case Top => 2
    case Caught => 2
    case SelfFinal => 2
    case Ended => 0
  }

  /** Each step of a close brings it nearer its end, which is always to clear the buffer and notify. */
  lemma ClosesProgress(s: State, c: Id)
    requires Enabled(s, CloseStep(c))
    ensures c in CloserStep(s, c).closers && CloserRank(CloserStep(s, c).closers[c]) < CloserRank(s.closers[c])
    ensures CloserStep(s, c).closers[c] == Closed ==> CloserStep(s, c).buffer.pending == []
  {
  }

  /** Once the port is not open each step of the loop brings it nearer its end, so a close that waits for
      the loop does not wait for ever. */
  lemma LoopEndsOnceNotOpen(states: seq<State>, steps: seq<Step>, i: nat)
    requires Run(states, steps) && i < |steps| && !states[i].life.isOpen && LoopStep(steps[i])
    ensures LoopRank(states[i + 1].loop) < LoopRank(states[i].loop)
  {
  }

  /** And a close that has not finished can move, or waits for the loop, or for a reader in the monitor. */
  lemma ClosesCanMove(states: seq<State>, steps: seq<Step>, i: nat, c: Id)
    requires Run(states, steps) && i < |states| && c in states[i].closers && states[i].closers[c] != Closed
    ensures var s := states[i];
      || Enabled(s, CloseStep(c))
      || (s.closers[c] == Joining && s.loop != Ended && !s.life.isOpen)
      || exists r :: s.monitor == Some(r) && r in s.readers && HoldsMonitor(s.readers[r].stage)
  {
    EveryRun(states, steps, i);
  }

  /** What the stages of a close have behind them. */
  predicate Released(s: State) {
    && (s.life.connected ==> forall c :: c in s.closers ==> s.closers[c] !in {Early, Final, Closed})
    && (!s.life.cancelled ==> forall c :: c in s.closers ==> s.closers[c] != Joining)
  }

  lemma ReleasedKept(s: State, step: Step)
    requires ReadersAsk(s) && Released(s) && Enabled(s, step)
    ensures Released(Apply(s, step))
  {
    if ReaderStep(step) {
      ReaderLeavesLife(s, step);
    }
  }

  lemma ReaderLeavesLife(s: State, step: Step)
    requires ReadersAsk(s) && Enabled(s, step) && ReaderStep(step)
    ensures ReadStep(s, step).life == s.life && ReadStep(s, step).closers == s.closers
  {
  }

  lemma {:induction false} ReleasedInEveryRun(states: seq<State>, steps: seq<Step>, i: nat)
    requires Run(states, steps) && i < |states|
    ensures Released(states[i])
  {
    if i > 0 {
      ReleasedInEveryRun(states, steps, i - 1);
      ReleasedKept(states[i - 1], steps[i - 1]);
    }
  }

  /** A close that waits for the loop has cancelled it, and a finished close leaves a port that is not open,
      has no connection and holds no bytes. */
  lemma ClosesRelease(states: seq<State>, steps: seq<Step>, i: nat, c: Id)
    requires Run(states, steps) && i < |states| && c in states[i].closers
    ensures states[i].closers[c] == Joining ==> states[i].life.cancelled
    ensures states[i].closers[c] == Closed ==>
              !states[i].life.isOpen && !states[i].life.connected && states[i].buffer.pending == []
  {
    ReleasedInEveryRun(states, steps, i);
    EveryRun(states, steps, i);
  }
}
