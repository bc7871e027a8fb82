// What each step of the Linux port manager makes visible, told from the atomic map alone, and that
// every call comes to its end.
module LinuxAnswers {
  import opened Errno
  import opened LinuxLinearizability
  import opened LinuxRegistry
  import opened Optional
  import opened PortTable

  /** The effect a step has on behalf of operation `op` when the atomic map is `m`. A name is tested
      twice, a code from the device is passed on, and opening and configuring show nothing. */
  function Visible(m: Atomic, op: nat, call: Call, step: Step): seq<Event> {
    match step
    case CheckName(_) => if call.Open? && call.name in m.ports then [Effect(op, call, Error(-EALREADY))] else []
    case CreateFails(_, code) => [Effect(op, call, Device(code))]
    case ConfigFails(_, code) => [Effect(op, call, Device(code))]
    case AllocFails(_) => [Effect(op, call, Device(-ENOMEM))]
    case Publish(_) =>
      [Effect(op, call, if call.Open? && call.name in m.ports then Error(-EALREADY) else Handle(m.next))]
    case Lookup(_) => Answer(m, op, call)
    case EndUse(_, code) => [Effect(op, call, Device(code))]
    case _ => []
  }

  /** The answer of the one critical section of a call that is no open. */
  function Answer(m: Atomic, op: nat, call: Call): seq<Event> {
    match call
    case Open(_) => []
    case Close(h) => [Effect(op, call, if h in m.ports.Values then Done else Error(-ENOENT))]
    case CloseName(n) => [Effect(op, call, if n in m.ports then Done else Error(-ENOENT))]
    case Find(n) => [Effect(op, call, if n in m.ports then Handle(m.ports[n]) else Error(-ENOENT))]
    case Use(h) => if h in m.ports.Values then [] else [Effect(op, call, Error(-ENOENT))]
  }

  /** The history gains what the step makes visible and nothing else. */
  ghost predicate Shows(s: State, step: Step)
    requires OpsExist(s) && Enabled(s, step) && step.t in s.threads
  {
    var th := s.threads[step.t];
    Apply(s, step).history == s.history + Visible(After(s.history), th.op, th.call, step)
  }

  lemma NamesShow(s: State, step: Step)
    requires Inv(s) && Refines(s) && Enabled(s, step) && (step.CheckName? || step.Publish?)
    ensures Shows(s, step)
  {
    MapByName(s.table, s.threads[step.t].call.name);
  }

  lemma LookupShows(s: State, t: Tid)
    requires Inv(s) && Refines(s) && Enabled(s, Lookup(t))
    ensures Shows(s, Lookup(t))
  {
    var call := s.threads[t].call;
    if call.Close? || call.Use? {
      MapByHandle(s.table, s.next, call.handle);
    } else {
      MapByName(s.table, call.name);
    }
  }

  lemma OthersShow(s: State, step: Step)
    requires Inv(s) && Enabled(s, step) && !step.Invoke? && !step.Return?
    requires !step.CheckName? && !step.Publish? && !step.Lookup?
    ensures Shows(s, step)
  {
  }

  /** In every run every step inside a call makes visible exactly what the atomic map says: an open that
      gets to publish a free name gets the next handle, one that meets its name gets EALREADY at the
      test that met it, and the code of a device failure is the one the failing step carried. */
  lemma StepsShowTheMap(states: seq<State>, steps: seq<Step>, i: nat)
    requires Run(states, steps) && i < |steps| && !steps[i].Invoke? && !steps[i].Return?
    ensures var th := states[i].threads[steps[i].t];
      states[i + 1].history == states[i].history + Visible(After(states[i].history), th.op, th.call, steps[i])
  {
    EveryRun(states, steps, i);
    if steps[i].CheckName? || steps[i].Publish? {
      NamesShow(states[i], steps[i]);
    } else if steps[i].Lookup? {
      LookupShows(states[i], steps[i].t);
    } else {
      OthersShow(states[i], steps[i]);
    }
  }

  /** Steps a call still has to take at most, the return included. */
  function Rank(stage: Stage): nat {
    match stage
    case Entered => 6
    case Creating => 5
    case Configuring(_) => 4
    case Publishing(_) => 3
    case Using(_) => 2
    case Closing(_, _) => 2
    case Returning(_) => 1
  }

  function Left(s: State, t: Tid): nat { if t in s.threads then Rank(s.threads[t].stage) else 0 }

  /** Every call ends: each step of its own brings it nearer, and no other step takes it back. */
  lemma CallsEnd(states: seq<State>, steps: seq<Step>, i: nat, t: Tid)
    requires Run(states, steps) && i < |steps| && t in states[i].threads
    ensures if steps[i].t == t then Left(states[i + 1], t) < Left(states[i], t)
            else t in states[i + 1].threads && states[i + 1].threads[t] == states[i].threads[t]
  {
    EveryRun(states, steps, i);
    StepLeft(states[i], steps[i], t);
  }

  lemma StepLeft(s: State, step: Step, t: Tid)
    requires Recorded(s) && Enabled(s, step) && t in s.threads
    ensures if step.t == t then Left(Apply(s, step), t) < Left(s, t)
            else t in Apply(s, step).threads && Apply(s, step).threads[t] == s.threads[t]
  {
    if !step.Invoke? && !step.Return? {
      StepMoves(s, step);
      NextIsNearer(s, step);
    }
  }

  lemma NextIsNearer(s: State, step: Step)
    requires OpsExist(s) && Enabled(s, step) && !step.Invoke? && !step.Return?
    ensures Rank(NextStage(s, step)) < Rank(s.threads[step.t].stage)
  {
    if step.Lookup? {
      LookupIsNearer(s, step.t);
    }
  }

  lemma LookupIsNearer(s: State, t: Tid)
    requires OpsExist(s) && Enabled(s, Lookup(t)) && t in LookupStep(s, t).threads
    ensures Rank(LookupStep(s, t).threads[t].stage) < Rank(s.threads[t].stage)
  {
  }

  ghost predicate CanMove(s: State, t: Tid) {
    exists step: Step :: step.t == t && !step.Invoke? && Enabled(s, step)
  }

  /** No deadlock: every thread in a call can move, or waits for the mutex, whose holder can. */
  lemma NoDeadlock(states: seq<State>, steps: seq<Step>, i: nat, t: Tid)
    requires Run(states, steps) && i < |states| && t in states[i].threads
    ensures var s := states[i]; CanMove(s, t) || (s.lock.Some? && CanMove(s, s.lock.value))
  {
    EveryRun(states, steps, i);
    var s := states[i];
    if s.lock.Some? {
      assert Enabled(s, EndUse(s.lock.value, 0));
    } else {
      FreeCanMove(s, t);
    }
  }

  /** With the mutex free every thread can take the step the code takes next. */
  lemma FreeCanMove(s: State, t: Tid)
    requires Inv(s) && s.lock == None && t in s.threads
    ensures CanMove(s, t)
  {
    FreeMeansNoUse(s);
    match s.threads[t].stage
    case Entered =>
      if s.threads[t].call.Open? {
        assert Enabled(s, CheckName(t));
      } else {
        assert Enabled(s, Lookup(t));
      }
    case Creating => assert Enabled(s, CreateFails(t, -EIO));
    case Configuring(_) => assert Enabled(s, Configured(t));
    case Publishing(_) => assert Enabled(s, Publish(t));
    case Closing(_, _) => assert Enabled(s, KernelCloses(t));
    case Returning(_) => assert Enabled(s, Return(t));
    case Using(_) =>
  }
}
