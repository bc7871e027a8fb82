// Why each read of a web port answers what it answers, what its listeners are told, and what its close
// reports.
module WebAnswers {
  import opened ByteLog
  import opened Optional
  import opened WebReader

  /** All bytes the browser gave, in order. */
  function Given(steps: seq<Step>): seq<Byte> {
    if steps == [] then [] else Given(steps[..|steps| - 1]) + GivenBy(steps[|steps| - 1])
  }

  function GivenBy(step: Step): seq<Byte> {
    if step.ReadSettles? && step.settled.Chunk? then step.settled.data else []
  }

  predicate HasClose(steps: seq<Step>) {
    steps != [] && (steps[|steps| - 1].Close? || HasClose(steps[..|steps| - 1]))
  }

  /** What listeners should be told: each chunk that is not empty, and an error when the reading fails to
      start or a read is rejected while nobody has closed the port. */
  function Announced(steps: seq<Step>): seq<Event> {
    if steps == [] then [] else
    var front := steps[..|steps| - 1];
    Announced(front) + AnnouncedBy(steps[|steps| - 1], HasClose(front))
  }

  function AnnouncedBy(step: Step, closed: bool): seq<Event> {
    match step
    case ReadSettles(Chunk(data)) => if data == [] then [] else [Data(data)]
    case ReadSettles(Rejected) => if closed then [] else [ReadError]
    case StartLoop(StartThrows) => if closed then [] else [ReadError]
    case _ => []
  }

  /** Did the loop get a reader? */
  predicate HasBegun(steps: seq<Step>) {
    steps != [] && (steps[|steps| - 1] == StartLoop(Begins) || HasBegun(steps[..|steps| - 1]))
  }

  lemma StepTells(s: State, step: Step)
    requires Orderly(s.life) && ParkedAsk(s.readers) && Enabled(s, step)
    ensures Apply(s, step).buffer.received == s.buffer.received + GivenBy(step)
    ensures Apply(s, step).life.events == s.life.events + AnnouncedBy(step, s.life.closing)
    ensures Apply(s, step).life.closing == (s.life.closing || step.Close?)
    ensures Apply(s, step).life.hasReader == (s.life.hasReader || step == StartLoop(Begins))
  {
  }

  lemma OneMore(steps: seq<Step>, i: nat)
    requires 0 < i <= |steps|
    ensures var before, step := steps[..i - 1], steps[i - 1];
      && Given(steps[..i]) == Given(before) + GivenBy(step)
      && Announced(steps[..i]) == Announced(before) + AnnouncedBy(step, HasClose(before))
      && HasClose(steps[..i]) == (HasClose(before) || step.Close?)
      && HasBegun(steps[..i]) == (HasBegun(before) || step == StartLoop(Begins))
  {
    assert steps[..i][..i - 1] == steps[..i - 1];
  }

  /** Nothing the browser gives is lost on the way to the buffer, and listeners are told of every chunk and
      of every failure before the close, in order, and of nothing else. */
  lemma {:induction false} EverythingIsPassedOn(states: seq<State>, steps: seq<Step>, i: nat)
    requires Run(states, steps) && i < |states|
    ensures states[i].buffer.received == Given(steps[..i])
    ensures states[i].life.events == Announced(steps[..i])
    ensures states[i].life.closing == HasClose(steps[..i])
    ensures states[i].life.hasReader == HasBegun(steps[..i])
  {
    if i > 0 {
      EverythingIsPassedOn(states, steps, i - 1);
      EveryRun(states, steps, i - 1);
      StepTells(states[i - 1], steps[i - 1]);
      OneMore(steps, i);
    }
  }

  /** From the browser to the readers: what reads took and clears dropped, followed by what is in the
      buffer, is everything the browser gave. */
  lemma BrowserToReaders(states: seq<State>, steps: seq<Step>, i: nat)
    requires Run(states, steps) && i < |states|
    ensures Flat(states[i].buffer.log) + states[i].buffer.bytes == Given(steps[..i])
  {
    EverythingIsPassedOn(states, steps, i);
    EveryRun(states, steps, i);
  }

  predicate HoldsLock(l: Life) { l.loop == Awaiting ==> l.locked && l.hasReader }

  lemma StepHoldsLock(s: State, step: Step)
    requires HoldsLock(s.life) && ParkedAsk(s.readers) && Enabled(s, step)
    ensures HoldsLock(Apply(s, step).life)
  {
  }

  /** While the loop waits for the browser it holds the stream's reader lock. */
  lemma {:induction false} LoopHoldsLock(states: seq<State>, steps: seq<Step>, i: nat)
    requires Run(states, steps) && i < |states|
    ensures HoldsLock(states[i].life)
  {
    if i > 0 {
      LoopHoldsLock(states, steps, i - 1);
      StepHoldsLock(states[i - 1], steps[i - 1]);
    }
  }

  /** The step from `s` to `s'` is a reason for a read of `asked` bytes to answer `data`: it gets all it
      asked for or all there was, and nothing only if it asked for nothing or the port is closing. */
  predicate Explains(s: State, s': State, asked: int, data: seq<Byte>) {
    if data == [] then asked <= 0 || (s.buffer.bytes == [] && s.life.closing)
    else s.buffer.bytes == data + s'.buffer.bytes
         && (|data| == asked || (|data| < asked && s'.buffer.bytes == []))
  }

  predicate ReadsFor(step: Step, r: Id) { (step.Read? || step.Resume?) && step.r == r }

  lemma OwnStepIsReason(s: State, step: Step, r: Id)
    requires ParkedAsk(s.readers) && Enabled(s, step) && ReadsFor(step, r)
    ensures r in Apply(s, step).readers
    ensures var reader := Apply(s, step).readers[r];
      reader.stage.Finished? ==> Explains(s, Apply(s, step), reader.asked, reader.stage.data)
  {
    if step.Resume? || step.asked > 0 {
      RunIsReason(s, r, if step.Read? then step.asked else s.readers[r].asked);
    }
  }

  lemma RunIsReason(s: State, r: Id, asked: nat)
    requires asked > 0
    ensures var s' := RunReader(s, r, asked);
      && s'.readers[r].asked == asked
      && (s'.readers[r].stage.Finished? ==> Explains(s, s', asked, s'.readers[r].stage.data))
  {
    var bytes, n := s.buffer.bytes, Min(asked, |s.buffer.bytes|);
    assert bytes == bytes[..n] + bytes[n..];
  }

  lemma OthersLeaveRead(s: State, step: Step, r: Id)
    requires ParkedAsk(s.readers) && Enabled(s, step) && !ReadsFor(step, r) && r in Apply(s, step).readers
    ensures r in s.readers && Apply(s, step).readers[r] == s.readers[r]
  {
  }

  /** The step that brought a read where it stands. */
  lemma {:induction false} LastMove(states: seq<State>, steps: seq<Step>, i: nat, r: Id) returns (k: nat)
    requires Run(states, steps) && i < |states| && r in states[i].readers
    ensures k < i && ReadsFor(steps[k], r) && r in states[k + 1].readers
    ensures states[k + 1].readers[r] == states[i].readers[r]
  {
    k := i - 1;
    if !ReadsFor(steps[k], r) {
      OthersLeaveRead(states[k], steps[k], r);
      k := LastMove(states, steps, k, r);
    }
  }

  /** In every run every answer of a read has its reason. */
  lemma AnswersHaveReasons(states: seq<State>, steps: seq<Step>, i: nat, r: Id) returns (k: nat)
    requires Run(states, steps) && i < |states| && r in states[i].readers && states[i].readers[r].stage.Finished?
    ensures k < i && ReadsFor(steps[k], r)
    ensures Explains(states[k], states[k + 1], states[i].readers[r].asked, states[i].readers[r].stage.data)
  {
    k := LastMove(states, steps, i, r);
    OwnStepIsReason(states[k], steps[k], r);
  }

  /** A clear drops everything and nothing else drops anything. */
  lemma ClearDropsEverything(states: seq<State>, steps: seq<Step>, i: nat)
    requires Run(states, steps) && i < |steps| && steps[i].Clear?
    ensures states[i + 1].buffer.bytes == []
    ensures states[i + 1].buffer.log == states[i].buffer.log + [Discarded(states[i].buffer.bytes)]
  {
  }

  /** The parts of a close that can fail: cancelling the reader, closing the device, closing the stream. */
  predicate Fails(l: Life, step: Step) {
    || (step.Close? && step.cancelThrows && l.hasReader)
    || (step.CancelSettles? && step.fails)
    || (step.TaskDone? && step.closeThrows)
    || (step.DeviceSettles? && step.fails)
    || (step.EventsSettle? && step.fails)
  }

  ghost predicate SomethingFailed(states: seq<State>, steps: seq<Step>, i: nat)
    requires i <= |steps| <= |states|
  {
    exists k :: 0 <= k < i && Fails(states[k].life, steps[k])
  }

  function Reported(l: Life): bool {
    match l.closer
    case Idle => false
    case Closed(failed) => failed
    case _ => l.closeFailed
  }

  lemma StepReports(s: State, step: Step)
    requires Orderly(s.life) && ParkedAsk(s.readers) && Enabled(s, step)
    ensures Reported(Apply(s, step).life) == (Reported(s.life) || Fails(s.life, step))
  {
  }

  /** A close throws if and only if some part of it failed, and whatever fails, it goes through to the end. */
  lemma {:induction false} CloseReportsFailure(states: seq<State>, steps: seq<Step>, i: nat)
    requires Run(states, steps) && i < |states|
    ensures Reported(states[i].life) == SomethingFailed(states, steps, i)
    ensures states[i].life.closer.Closed? ==>
              (states[i].life.closer.failed <==> SomethingFailed(states, steps, i))
  {
    if i > 0 {
      CloseReportsFailure(states, steps, i - 1);
      EveryRun(states, steps, i - 1);
      StepReports(states[i - 1], steps[i - 1]);
      if k :| 0 <= k < i - 1 && Fails(states[k].life, steps[k]) {
        assert SomethingFailed(states, steps, i);
      }
    }
  }

  function CloserRank(closer: Closer): nat {
    match closer
    case Idle => 5
    case Cancelling => 4
    case AwaitTask => 3
    case DeviceClosing => 2
    case EventsClosing => 1
    case Closed(_) => 0
  }

  predicate ClosesStep(step: Step) {
    step.Close? || step.CancelSettles? || step.TaskDone? || step.DeviceSettles? || step.EventsSettle?
  }

  /** Every step of a close brings it nearer its end, whether or not something fails. */
  lemma CloseEnds(s: State, step: Step)
    requires ParkedAsk(s.readers) && Enabled(s, step)
    ensures if ClosesStep(step) then CloserRank(Apply(s, step).life.closer) < CloserRank(s.life.closer)
            else Apply(s, step).life.closer == s.life.closer
  {
    if !step.Read? && !step.Resume? {
      LifeEnds(s.life, step);
    }
  }

  lemma LifeEnds(l: Life, step: Step)
    requires step.Close? ==> l.closer == Idle
    requires step.CancelSettles? ==> l.closer == Cancelling
    requires step.TaskDone? ==> l.closer == AwaitTask
    requires step.DeviceSettles? ==> l.closer == DeviceClosing
    requires step.EventsSettle? ==> l.closer == EventsClosing
    ensures if ClosesStep(step) then CloserRank(NextLife(l, step).closer) < CloserRank(l.closer)
            else NextLife(l, step).closer == l.closer
  {
  }

  /** And it can always go on, except that it waits for the loop, which ends with its next read. */
  lemma CloseCanGoOn(states: seq<State>, steps: seq<Step>, i: nat)
    requires Run(states, steps) && i < |states| && states[i].life.closing && !states[i].life.closer.Closed?
    ensures var s := states[i];
      || (s.life.closer == AwaitTask && s.life.loop == Awaiting
          && forall how :: NextLife(s.life, ReadSettles(how)).loop == Ended)
      || exists step :: ClosesStep(step) && Enabled(s, step)
  {
    EveryRun(states, steps, i);
    var s := states[i];
    match s.life.closer
    case Cancelling => assert Enabled(s, CancelSettles(false));
    case AwaitTask => assert s.life.loop == Ended ==> Enabled(s, TaskDone(false));
    case DeviceClosing => assert Enabled(s, DeviceSettles(false));
    case EventsClosing => assert Enabled(s, EventsSettle(false));
    case _ =>
  }

  /** Was the reader told to stop? */
  predicate Cancels(step: Step) { step.CancelSettles? || (step.Close? && step.cancelThrows) }

  predicate Past(closer: Closer) { closer != Idle && closer != Cancelling }

  lemma StepCancels(s: State, step: Step)
    requires Orderly(s.life) && ParkedAsk(s.readers) && Enabled(s, step)
    ensures var l, l' := s.life, Apply(s, step).life;
      Past(l'.closer) && l'.hasReader ==> (Past(l.closer) && l.hasReader) || Cancels(step)
  {
  }

  /** A close goes on to the device only after the reader, if there is one, was cancelled. */
  lemma {:induction false} CancelsBeforeClosing(states: seq<State>, steps: seq<Step>, i: nat) returns (k: nat)
    requires Run(states, steps) && i < |states| && Past(states[i].life.closer) && states[i].life.hasReader
    ensures k < i && Cancels(steps[k])
  {
    k := i - 1;
    EveryRun(states, steps, k);
    StepCancels(states[k], steps[k]);
    if !Cancels(steps[k]) {
      k := CancelsBeforeClosing(states, steps, k);
    }
  }

  /** The ways reading ends without a close: no stream, no reader, the end of the stream, or a failure. */
  predicate EndsReading(step: Step) {
    || (step.StartLoop? && step.how != Begins)
    || (step.ReadSettles? && !step.settled.Chunk?)
  }

  lemma StepEndsLoop(s: State, step: Step)
    requires ParkedAsk(s.readers) && Enabled(s, step) && Apply(s, step).life.loop == Ended && s.life.loop != Ended
    ensures EndsReading(step) || Apply(s, step).life.closing
  {
    if !step.Read? && !step.Resume? {
      LifeEndsLoop(s.life, step);
    }
  }

  lemma LifeEndsLoop(l: Life, step: Step)
    requires NextLife(l, step).loop == Ended && l.loop != Ended
    ensures EndsReading(step) || NextLife(l, step).closing
  {
  }

  /** The loop reads on until the port is closing or one of those happens. */
  lemma {:induction false} LoopEndsForAReason(states: seq<State>, steps: seq<Step>, i: nat) returns (k: nat)
    requires Run(states, steps) && i < |states| && states[i].life.loop == Ended
    ensures states[i].life.closing || (k < i && EndsReading(steps[k]))
  {
    k := i - 1;
    if states[k].life.loop == Ended {
      k := LoopEndsForAReason(states, steps, k);
      if states[i - 1].life.closing {
        ClosingKept(states[i - 1], steps[i - 1]);
      }
    } else {
      StepEndsLoop(states[k], steps[k]);
    }
  }
}
