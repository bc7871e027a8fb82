// One port of lib/src/platform/web_impl.dart, `_WebPortContext`. Dart runs one thread: a step is the
// code between two awaits. The browser decides when and how each promise settles.
module WebReader {
  import opened ByteLog
  import opened Optional

  type Id = nat
  type CompleterId = nat

  datatype Stage = Parked(on: CompleterId) | Finished(data: seq<Byte>)
  datatype Reader = Reader(asked: int, stage: Stage)

  /** `_buffer`, with a record of all bytes that arrived and of what became of those that left. */
  datatype Buffer = Buffer(bytes: seq<Byte>, received: seq<Byte>, log: seq<Removal>)

  /** `_readNotifier`, the number of completers made so far, and how often each was completed. */
  datatype Wake = Wake(notifier: Option<CompleterId>, made: nat, completions: multiset<CompleterId>)

  datatype Loop = NotStarted | Awaiting | Ended

  datatype Closer = Idle | Cancelling | AwaitTask | DeviceClosing | EventsClosing | Closed(failed: bool)

  /** What is added to the event controller. */
  datatype Event = Data(bytes: seq<Byte>) | ReadError

  /** The rest of the context. `locked` says the loop holds the stream's reader lock, `hasReader` that
      `_reader` is set, which it stays; `events` records the events added and `lateAdds` counts those
      added to a closed controller. */
  datatype Life = Life(closing: bool, loop: Loop, hasReader: bool, locked: bool, closer: Closer, closeFailed: bool,
                       deviceClosed: bool, eventsClosed: bool, events: seq<Event>, lateAdds: nat)

  datatype State = State(buffer: Buffer, wake: Wake, life: Life, readers: map<Id, Reader>)

  const initial := State(Buffer([], [], []), Wake(None, 0, multiset{}),
                         Life(false, NotStarted, false, false, Idle, false, false, false, [], 0), map[])

  /** How the start of the loop goes: no readable stream, `getReader` throws, or reading begins. */
  datatype Start = NoStream | StartThrows | Begins

  /** How a read settles: done or null, a chunk, or a rejection. */
  datatype Settled = Done | Chunk(data: seq<Byte>) | Rejected

  datatype Step =
    | StartLoop(how: Start)
    | ReadSettles(settled: Settled)
    | Read(r: Id, asked: int)
    | Resume(r: Id)
    | Clear
    | Close(cancelThrows: bool)
    | CancelSettles(fails: bool)
    | TaskDone(closeThrows: bool)
    | DeviceSettles(fails: bool)
    | EventsSettle(fails: bool)

  predicate Enabled(s: State, step: Step) {
    match step
    case StartLoop(_) => s.life.loop == NotStarted
    case ReadSettles(_) => s.life.loop == Awaiting
    case Read(r, _) => r !in s.readers
    case Resume(r) => r in s.readers && s.readers[r].stage.Parked? && s.readers[r].stage.on in s.wake.completions
    case Clear => true
    case Close(_) => s.life.closer == Idle && s.life.loop != NotStarted
    case CancelSettles(_) => s.life.closer == Cancelling
    case TaskDone(_) => s.life.closer == AwaitTask && s.life.loop == Ended
    case DeviceSettles(_) => s.life.closer == DeviceClosing
    case EventsSettle(_) => s.life.closer == EventsClosing
  }

  /** `_readNotifier?.complete(); _readNotifier = null`. */
  function Notify(w: Wake): Wake {
    match w.notifier
    case None => w
    case Some(c) => w.(notifier := None, completions := w.completions + multiset{c})
  }

  /** `_eventController.add`. */
  function AddEvent(l: Life, e: Event): Life {
    if l.eventsClosed then l.(lateAdds := l.lateAdds + 1) else l.(events := l.events + [e])
  }

  /** The `finally` of the loop. */
  function EndLoop(l: Life): Life {
    l.(loop := Ended, locked := false)
  }

  /** Back at `while (!_closing)`. */
  function LoopHead(l: Life): Life {
    if l.closing then EndLoop(l) else l.(loop := Awaiting)
  }

  function CatchInLoop(l: Life): Life {
    EndLoop(if l.closing then l else AddEvent(l, ReadError))
  }

  predicate BringsData(step: Step) {
    step.ReadSettles? && step.settled.Chunk? && step.settled.data != []
  }

  /** The part of a step that concerns the loop, the close and the controller. */
  function NextLife(l: Life, step: Step): Life {
    match step
    case StartLoop(NoStream) => l.(loop := Ended)
    case StartLoop(StartThrows) => CatchInLoop(l)
    case StartLoop(Begins) => LoopHead(l.(hasReader := true, locked := true))
    case ReadSettles(Done) => EndLoop(l)
    case ReadSettles(Rejected) => CatchInLoop(l)
    case ReadSettles(Chunk(data)) => LoopHead(if data == [] then l else AddEvent(l, Data(data)))
    case Close(cancelThrows) =>
      l.(closing := true, closer := if l.hasReader && !cancelThrows then Cancelling else AwaitTask,
         closeFailed := l.hasReader && cancelThrows)
    case CancelSettles(fails) => l.(closer := AwaitTask, closeFailed := l.closeFailed || fails)
    case TaskDone(closeThrows) =>
      l.(deviceClosed := true, closeFailed := l.closeFailed || closeThrows,
         closer := if closeThrows then EventsClosing else DeviceClosing, eventsClosed := closeThrows)
    case DeviceSettles(fails) =>
      l.(closer := EventsClosing, eventsClosed := true, closeFailed := l.closeFailed || fails)
    case EventsSettle(fails) => l.(closer := Closed(l.closeFailed || fails))
    case _ => l
  }

  /** The chunk goes into the buffer before the notifier is completed; `close` completes it too. */
  function NextBuffer(b: Buffer, step: Step): Buffer {
    if BringsData(step)
    then b.(bytes := b.bytes + step.settled.data, received := b.received + step.settled.data)
    else if step.Clear? then Buffer([], b.received, b.log + [Discarded(b.bytes)])
    else b
  }

  function NextWake(w: Wake, step: Step): Wake {
    if BringsData(step) || step.Close? then Notify(w) else w
  }

  /** `read` from the head of its loop to its next await or its end. */
  function RunReader(s: State, r: Id, asked: nat): State
    requires asked > 0
  {
    if s.buffer.bytes == [] && !s.life.closing then
      if s.wake.notifier.Some? then s.(readers := s.readers[r := Reader(asked, Parked(s.wake.notifier.value))])
      else s.(wake := Wake(Some(s.wake.made), s.wake.made + 1, s.wake.completions),
              readers := s.readers[r := Reader(asked, Parked(s.wake.made))])
    else if s.buffer.bytes == [] then s.(readers := s.readers[r := Reader(asked, Finished([]))])
    else
      var data := s.buffer.bytes[..Min(asked, |s.buffer.bytes|)];
      s.(readers := s.readers[r := Reader(asked, Finished(data))],
         buffer := Buffer(s.buffer.bytes[|data|..], s.buffer.received, s.buffer.log + [Taken(r, data)]))
  }

  ghost predicate ParkedAsk(readers: map<Id, Reader>) {
    forall r :: r in readers && readers[r].stage.Parked? ==> readers[r].asked > 0
  }

  function Apply(s: State, step: Step): State
    requires Enabled(s, step) && ParkedAsk(s.readers)
  {
    match step
    case Read(r, asked) =>
      if asked <= 0 then s.(readers := s.readers[r := Reader(asked, Finished([]))]) else RunReader(s, r, asked)
    case Resume(r) => RunReader(s, r, s.readers[r].asked)
    case _ => State(NextBuffer(s.buffer, step), NextWake(s.wake, step), NextLife(s.life, step), s.readers)
  }

  /** A current notifier means an empty buffer and a port not closing. */
  ghost predicate NotifierMeansIdle(bytes: seq<Byte>, closing: bool, w: Wake) {
    w.notifier.Some? ==> bytes == [] && !closing
  }

  /** No completer is completed twice. */
  ghost predicate CompletedOnce(w: Wake) {
    && (w.notifier.Some? ==> w.notifier.value < w.made && w.notifier.value !in w.completions)
    && (forall c :: c in w.completions ==> c < w.made && w.completions[c] == 1)
  }

  /** Every parked reader waits on the current notifier or on one already completed. */
  ghost predicate Reachable(w: Wake, readers: map<Id, Reader>) {
    && ParkedAsk(readers)
    && forall r :: r in readers && readers[r].stage.Parked? ==>
         readers[r].stage.on in w.completions || w.notifier == Some(readers[r].stage.on)
  }

  ghost predicate Wakeful(s: State) {
    NotifierMeansIdle(s.buffer.bytes, s.life.closing, s.wake) && CompletedOnce(s.wake) && Reachable(s.wake, s.readers)
  }

  /** Every byte that arrived was taken, cleared away, or is in the buffer, in order. */
  ghost predicate Accounted(b: Buffer, readers: map<Id, Reader>) {
    && Flat(b.log) + b.bytes == b.received
    && AnsweredOnce(b.log)
    && Answers(b.log, readers)
  }

  /** The order in which things shut down. */
  ghost predicate Orderly(l: Life) {
    && l.lateAdds == 0
    && (l.closer != Idle <==> l.closing)
    && (l.locked ==> l.loop == Awaiting)
    && (l.deviceClosed || l.eventsClosed ==> l.loop == Ended)
    && (l.loop == NotStarted ==> l.closer == Idle)
    && (l.deviceClosed <==> l.closer.DeviceClosing? || l.closer.EventsClosing? || l.closer.Closed?)
    && (l.eventsClosed <==> l.closer.EventsClosing? || l.closer.Closed?)
  }

  ghost predicate Inv(s: State) {
    Wakeful(s) && Accounted(s.buffer, s.readers) && Orderly(s.life)
  }

  lemma OrderKept(s: State, step: Step)
    requires Orderly(s.life) && ParkedAsk(s.readers) && Enabled(s, step)
    ensures Orderly(Apply(s, step).life)
  {
  }

  lemma NotifyWakes(w: Wake, readers: map<Id, Reader>)
    requires CompletedOnce(w) && Reachable(w, readers)
    ensures CompletedOnce(Notify(w)) && Reachable(Notify(w), readers) && Notify(w).notifier == None
  {
  }

  lemma ParkKeepsWakeful(s: State, r: Id, asked: nat)
    requires Wakeful(s) && asked > 0
    ensures Wakeful(RunReader(s, r, asked))
  {
  }

  lemma OthersKeepWakeful(s: State, step: Step)
    requires Wakeful(s) && Enabled(s, step) && !step.Read? && !step.Resume?
    ensures Wakeful(Apply(s, step))
  {
    NotifyWakes(s.wake, s.readers);
    assert !BringsData(step) && !step.Close? ==> NextLife(s.life, step).closing == s.life.closing;
  }

  lemma WakefulKept(s: State, step: Step)
    requires Wakeful(s) && Enabled(s, step)
    ensures Wakeful(Apply(s, step))
  {
    match step
    case Read(r, asked) => if asked > 0 { ParkKeepsWakeful(s, r, asked); }
    case Resume(r) => ParkKeepsWakeful(s, r, s.readers[r].asked);
    case _ => OthersKeepWakeful(s, step);
  }

  /** The log and the finished readers say the same. */
  ghost predicate Answers(log: seq<Removal>, readers: map<Id, Reader>) {
    && (forall r :: r in readers && readers[r].stage.Finished? && readers[r].stage.data != [] ==>
          Taken(r, readers[r].stage.data) in log && |readers[r].stage.data| <= readers[r].asked)
    && (forall e :: e in log && e.Taken? ==>
          e.bytes != [] && e.reader in readers && readers[e.reader].stage == Finished(e.bytes))
  }

  lemma NewAnswerAnswers(log: seq<Removal>, readers: map<Id, Reader>, r: Id, asked: nat, data: seq<Byte>)
    requires Answers(log, readers) && (r in readers ==> readers[r].stage.Parked?)
    requires data != [] && |data| <= asked
    ensures Answers(log + [Taken(r, data)], readers[r := Reader(asked, Finished(data))])
  {
    var more := log + [Taken(r, data)];
    forall e ensures e in more <==> e in log || e == Taken(r, data) {
      InSnoc(log, Taken(r, data), e);
    }
  }

  lemma TakeAccounts(b: Buffer, readers: map<Id, Reader>, r: Id, asked: nat)
    requires Accounted(b, readers) && asked > 0 && b.bytes != [] && (r in readers ==> readers[r].stage.Parked?)
    ensures var data := b.bytes[..Min(asked, |b.bytes|)];
      Accounted(Buffer(b.bytes[|data|..], b.received, b.log + [Taken(r, data)]),
                readers[r := Reader(asked, Finished(data))])
  {
    var data := b.bytes[..Min(asked, |b.bytes|)];
    TakeKeepsFlow(b.log, b.bytes, r, |data|);
    NewAnswer(b.log, r, data);
    NewAnswerAnswers(b.log, readers, r, asked, data);
  }

  /** A reader that parks or ends empty-handed changes no account. */
  lemma MoveAccounts(b: Buffer, readers: map<Id, Reader>, r: Id, reader: Reader)
    requires Accounted(b, readers) && (r in readers ==> readers[r].stage.Parked?)
    requires reader.stage.Finished? ==> reader.stage.data == []
    ensures Accounted(b, readers[r := reader])
  {
  }

  lemma RunAccounts(s: State, r: Id, asked: nat)
    requires Accounted(s.buffer, s.readers) && asked > 0 && (r in s.readers ==> s.readers[r].stage.Parked?)
    ensures var s' := RunReader(s, r, asked); Accounted(s'.buffer, s'.readers)
  {
    if s.buffer.bytes != [] {
      TakeAccounts(s.buffer, s.readers, r, asked);
    } else {
      MoveAccounts(s.buffer, s.readers, r, RunReader(s, r, asked).readers[r]);
    }
  }

  lemma BufferAccounts(b: Buffer, readers: map<Id, Reader>, step: Step)
    requires Accounted(b, readers)
    ensures Accounted(NextBuffer(b, step), readers)
  {
    if step.Clear? {
      FlatSnoc(b.log, Discarded(b.bytes));
    }
  }

  lemma AccountKept(s: State, step: Step)
    requires Accounted(s.buffer, s.readers) && ParkedAsk(s.readers) && Enabled(s, step)
    ensures Accounted(Apply(s, step).buffer, Apply(s, step).readers)
  {
    match step
    case Read(r, asked) =>
      if asked > 0 {
        RunAccounts(s, r, asked);
      } else {
        MoveAccounts(s.buffer, s.readers, r, Reader(asked, Finished([])));
      }
    case Resume(r) => RunAccounts(s, r, s.readers[r].asked);
    case _ => BufferAccounts(s.buffer, s.readers, step);
  }

  /** A run: any readers and clears, any browser, one close. */
  ghost predicate Run(states: seq<State>, steps: seq<Step>) {
    && |states| == |steps| + 1 && states[0] == initial
    && forall i :: 0 <= i < |steps| ==>
         Enabled(states[i], steps[i]) && ParkedAsk(states[i].readers) && states[i + 1] == Apply(states[i], steps[i])
  }

  lemma {:induction false} EveryRun(states: seq<State>, steps: seq<Step>, i: nat)
    requires Run(states, steps) && i < |states|
    ensures Inv(states[i])
  {
    if i > 0 {
      EveryRun(states, steps, i - 1);
      OrderKept(states[i - 1], steps[i - 1]);
      WakefulKept(states[i - 1], steps[i - 1]);
      AccountKept(states[i - 1], steps[i - 1]);
    }
  }

  predicate IsParked(s: State, r: Id) {
    r in s.readers && s.readers[r].stage.Parked?
  }

  /** Neither a chunk nor a close is ever missed: while there is data, or once the port is closing,
      every parked reader has been woken, by a completer completed exactly once. */
  lemma NothingMissed(states: seq<State>, steps: seq<Step>, i: nat, r: Id)
    requires Run(states, steps) && i < |states|
    requires states[i].buffer.bytes != [] || states[i].life.closing
    requires IsParked(states[i], r)
    ensures Enabled(states[i], Resume(r))
    ensures states[i].wake.completions[states[i].readers[r].stage.on] == 1
  {
    EveryRun(states, steps, i);
  }

  /** A reader that came back empty-handed, having asked for something, found the port closing. */
  ghost predicate EmptyMeansClosing(s: State) {
    forall r :: r in s.readers && s.readers[r].asked > 0 && s.readers[r].stage == Finished([]) ==> s.life.closing
  }

  lemma ClosingKept(s: State, step: Step)
    requires Enabled(s, step) && ParkedAsk(s.readers) && s.life.closing
    ensures Apply(s, step).life.closing
  {
    match step
    case Read(_, _) =>
    case Resume(_) =>
    case _ => assert NextLife(s.life, step).closing;
  }

  lemma EmptyMeansClosingKept(s: State, step: Step)
    requires EmptyMeansClosing(s) && ParkedAsk(s.readers) && Enabled(s, step)
    ensures EmptyMeansClosing(Apply(s, step))
  {
    if s.life.closing {
      ClosingKept(s, step);
    }
  }

  /** Only a closing port turns a reader away empty-handed, in every run. */
  lemma {:induction false} EmptyHandedMeansClosing(states: seq<State>, steps: seq<Step>, i: nat)
    requires Run(states, steps) && i < |states|
    ensures EmptyMeansClosing(states[i])
  {
    if i > 0 {
      EmptyHandedMeansClosing(states, steps, i - 1);
      EmptyMeansClosingKept(states[i - 1], steps[i - 1]);
    }
  }

  /** FIFO: what readers took and what clears dropped is the prefix of all bytes that arrived. */
  lemma BytesConserved(states: seq<State>, steps: seq<Step>, i: nat)
    requires Run(states, steps) && i < |states|
    ensures Accounted(states[i].buffer, states[i].readers)
  {
    EveryRun(states, steps, i);
  }

  /** Nothing is ever added to a closed controller, and the device's close is called only when the
      loop has ended and given up its reader lock, even if cancelling the reader failed. */
  lemma ShutdownOrder(states: seq<State>, steps: seq<Step>, i: nat)
    requires Run(states, steps) && i < |states|
    ensures states[i].life.lateAdds == 0
    ensures states[i].life.deviceClosed || states[i].life.eventsClosed ==>
      states[i].life.loop == Ended && !states[i].life.locked
  {
    EveryRun(states, steps, i);
  }

  /** A parked reader that has not been woken yet. */
  predicate Asleep(s: State, r: Id) {
    IsParked(s, r) && s.readers[r].stage.on !in s.wake.completions
  }

  /** What wakes a sleeping reader: exactly a chunk or the close. */
  lemma OnlyDataOrCloseWakes(s: State, step: Step, r: Id)
    requires Wakeful(s) && Enabled(s, step) && Asleep(s, r)
    ensures IsParked(Apply(s, step), r)
    ensures Asleep(Apply(s, step), r) <==> !BringsData(step) && !step.Close?
  {
  }

  /** Once the loop has ended no chunk can come, so a reader asleep then sleeps until the close. */
  lemma {:induction false} AsleepUntilClose(states: seq<State>, steps: seq<Step>, i: nat, j: nat, r: Id)
    requires Run(states, steps) && i <= j < |states|
    requires states[i].life.loop == Ended && Asleep(states[i], r)
    requires forall k :: i <= k < j ==> !steps[k].Close?
    ensures states[j].life.loop == Ended && Asleep(states[j], r)
  {
    if i < j {
      AsleepUntilClose(states, steps, i, j - 1, r);
      EveryRun(states, steps, j - 1);
      OnlyDataOrCloseWakes(states[j - 1], steps[j - 1], r);
      EndedStays(states[j - 1], steps[j - 1]);
    }
  }

  lemma {:induction false} ClosingForGood(states: seq<State>, steps: seq<Step>, i: nat, j: nat)
    requires Run(states, steps) && i <= j < |states| && states[i].life.closing
    ensures states[j].life.closing
  {
    if i < j {
      ClosingForGood(states, steps, i, j - 1);
      ClosingKept(states[j - 1], steps[j - 1]);
    }
  }

  lemma NobodySleepsWhileClosing(s: State, r: Id)
    requires Wakeful(s) && s.life.closing
    ensures !Asleep(s, r)
  {
  }

  /** So it sleeps exactly as long as nobody closes the port. */
  lemma AsleepIffNotClosed(states: seq<State>, steps: seq<Step>, i: nat, j: nat, r: Id)
    requires Run(states, steps) && i <= j < |states|
    requires states[i].life.loop == Ended && Asleep(states[i], r)
    ensures Asleep(states[j], r) <==> forall k :: i <= k < j ==> !steps[k].Close?
  {
    if k :| i <= k < j && steps[k].Close? {
      CloseCloses(states[k], steps[k]);
      ClosingForGood(states, steps, k + 1, j);
      EveryRun(states, steps, j);
      NobodySleepsWhileClosing(states[j], r);
    } else {
      AsleepUntilClose(states, steps, i, j, r);
    }
  }

  lemma CloseCloses(s: State, step: Step)
    requires Enabled(s, step) && ParkedAsk(s.readers) && step.Close?
    ensures Apply(s, step).life.closing
  {
  }

  lemma EndedStays(s: State, step: Step)
    requires Enabled(s, step) && ParkedAsk(s.readers) && s.life.loop == Ended
    ensures Apply(s, step).life.loop == Ended && !step.ReadSettles?
  {
  }

  /** A read that starts once the loop has ended sleeps exactly when there is nothing to read and the
      port is not closing. */
  lemma LateReadSleeps(states: seq<State>, steps: seq<Step>, i: nat)
    requires Run(states, steps) && i < |steps| && states[i].life.loop == Ended
    requires steps[i].Read? && steps[i].asked > 0
    ensures Asleep(states[i + 1], steps[i].r) <==> states[i].buffer.bytes == [] && !states[i].life.closing
  {
    EveryRun(states, steps, i);
  }

  /** The end of the stream wakes nobody: a run that ends with its reader asleep for good. */
  lemma StreamEndStrands() returns (states: seq<State>, steps: seq<Step>)
    ensures Run(states, steps) && |states| == 4
    ensures states[3].life.loop == Ended && Asleep(states[3], 0) && !states[3].life.closing
  {
    steps := [StartLoop(Begins), Read(0, 1), ReadSettles(Done)];
    var s1 := Apply(initial, steps[0]);
    var s2 := Apply(s1, steps[1]);
    states := [initial, s1, s2, Apply(s2, steps[2])];
  }
}
