// The port manager of linux/serial_port_manager.c under any number of threads and any schedule.
// One step is one critical section or one system call. `open` looks the name up under the mutex,
// opens and configures the device with the mutex free, then looks again before it publishes;
// `close` detaches under the mutex and closes the descriptor outside it; an operation on an open
// port holds the mutex from its lookup to its end.
module LinuxRegistry {
  import opened Errno
  import opened Optional
  import opened PortTable

  type Tid = nat
  type Fd = nat

  datatype Call =
    | Open(name: string)
    | Close(handle: int)
    | CloseName(name: string)
    | Find(name: string)
    | Use(handle: int)

  /** What a call returns. `Device` carries a code that came from the port, not from the table. */
  datatype Result = Error(code: int) | Handle(handle: int) | Done | Device(code: int)

  /** Where a thread stands inside its call. A stage that carries a descriptor owns it. */
  datatype Stage =
    | Entered
    | Creating
    | Configuring(fd: Fd)
    | Publishing(fd: Fd)
    | Closing(fd: Fd, result: Result)
    | Using(row: Row<Fd>)
    | Returning(result: Result)

  datatype Thread = Thread(op: nat, call: Call, stage: Stage)

  /** Every call is one numbered operation: invoked, taking effect at one moment, returning. */
  datatype Event =
    | Invoked(op: nat, call: Call)
    | Effect(op: nat, call: Call, result: Result)
    | Returned(op: nat, result: Result)

  datatype Status =
    | Pending(call: Call)
    | Effected(call: Call, result: Result)
    | Finished(call: Call, result: Result)

  /** `kernel` is the set of descriptors open now; `opens` and `closes` count successful open(2) and
      close(2) calls per descriptor number. `ops` and `history` only record. */
  datatype State = State(
    table: seq<Row<Fd>>, next: int, lock: Option<Tid>, threads: map<Tid, Thread>,
    kernel: set<Fd>, opens: multiset<Fd>, closes: multiset<Fd>,
    ops: seq<Status>, history: seq<Event>)

  const initial := State([], 1, None, map[], {}, multiset{}, multiset{}, [], [])

  datatype Step =
    | Invoke(t: Tid, call: Call)
    | CheckName(t: Tid)
    | CreateFails(t: Tid, code: int)
    | KernelOpens(t: Tid, fd: Fd)
    | ConfigFails(t: Tid, code: int)
    | Configured(t: Tid)
    | AllocFails(t: Tid)
    | Publish(t: Tid)
    | Lookup(t: Tid)
    | EndUse(t: Tid, code: int)
    | KernelCloses(t: Tid)
    | Return(t: Tid)

  predicate At(s: State, t: Tid, stage: Stage) {
    t in s.threads && s.threads[t].stage == stage
  }

  /** Can the step happen? Critical sections need the mutex free; open(2) picks an unused number. */
  predicate Enabled(s: State, step: Step) {
    match step
    case Invoke(t, _) => t !in s.threads
    case CheckName(t) => At(s, t, Entered) && s.threads[t].call.Open? && s.lock == None
    case CreateFails(t, _) => At(s, t, Creating)
    case KernelOpens(t, fd) => At(s, t, Creating) && fd !in s.kernel
    case ConfigFails(t, _) => t in s.threads && s.threads[t].stage.Configuring?
    case Configured(t) => t in s.threads && s.threads[t].stage.Configuring?
    case AllocFails(t) => t in s.threads && s.threads[t].stage.Publishing?
    case Publish(t) =>
      t in s.threads && s.threads[t].stage.Publishing? && s.threads[t].call.Open? && s.lock == None
    case Lookup(t) => At(s, t, Entered) && !s.threads[t].call.Open? && s.lock == None
    case EndUse(t, _) => t in s.threads && s.threads[t].stage.Using?
    case KernelCloses(t) => t in s.threads && s.threads[t].stage.Closing?
    case Return(t) => t in s.threads && s.threads[t].stage.Returning?
  }

  /** The thread goes on to `stage` with nothing visible happening. */
  function Move(s: State, t: Tid, stage: Stage): State
    requires t in s.threads
  {
    s.(threads := s.threads[t := s.threads[t].(stage := stage)])
  }

  /** The operation of `t` takes effect with `result`, and the thread goes on to `stage`. */
  function TakeEffect(s: State, t: Tid, result: Result, stage: Stage): State
    requires t in s.threads && s.threads[t].op < |s.ops|
  {
    var th := s.threads[t];
    Move(s, t, stage).(ops := s.ops[th.op := Effected(th.call, result)],
                       history := s.history + [Effect(th.op, th.call, result)])
  }

  function KeyOf(call: Call): Key
    requires !call.Open?
  {
    match call
    case Close(h) => ByHandle(h)
    case CloseName(n) => ByName(n)
    case Find(n) => ByName(n)
    case Use(h) => ByHandle(h)
  }

  /** The critical section of every call but `open`. */
  function LookupStep(s: State, t: Tid): State
    requires t in s.threads && s.threads[t].op < |s.ops| && !s.threads[t].call.Open?
  {
    var call := s.threads[t].call;
    var i := IndexOf(s.table, KeyOf(call));
    if i == |s.table| then TakeEffect(s, t, Error(-ENOENT), Returning(Error(-ENOENT)))
    else
      var row := s.table[i];
      match call
      case Find(_) => TakeEffect(s, t, Handle(row.handle), Returning(Handle(row.handle)))
      case Use(_) => Move(s, t, Using(row)).(lock := Some(t))
      case _ => TakeEffect(s, t, Done, Closing(row.port, Done)).(table := Detach(s.table, KeyOf(call)))
  }

  ghost predicate OpsExist(s: State) {
    forall t :: t in s.threads ==> s.threads[t].op < |s.ops|
  }

  function Apply(s: State, step: Step): State
    requires Enabled(s, step) && OpsExist(s)
  {
    match step
    case Invoke(t, call) =>
      s.(threads := s.threads[t := Thread(|s.ops|, call, Entered)],
         ops := s.ops + [Pending(call)], history := s.history + [Invoked(|s.ops|, call)])
    case CheckName(t) =>
      if IndexOf(s.table, ByName(s.threads[t].call.name)) < |s.table|
      then TakeEffect(s, t, Error(-EALREADY), Returning(Error(-EALREADY)))
      else Move(s, t, Creating)
    case CreateFails(t, code) => TakeEffect(s, t, Device(code), Returning(Device(code)))
    case KernelOpens(t, fd) =>
      Move(s, t, Configuring(fd)).(kernel := s.kernel + {fd}, opens := s.opens + multiset{fd})
    case ConfigFails(t, code) =>
      TakeEffect(s, t, Device(code), Closing(s.threads[t].stage.fd, Device(code)))
    case Configured(t) => Move(s, t, Publishing(s.threads[t].stage.fd))
    case AllocFails(t) =>
      TakeEffect(s, t, Device(-ENOMEM), Closing(s.threads[t].stage.fd, Device(-ENOMEM)))
    case Publish(t) =>
      var fd := s.threads[t].stage.fd;
      if IndexOf(s.table, ByName(s.threads[t].call.name)) < |s.table|
      then TakeEffect(s, t, Error(-EALREADY), Closing(fd, Error(-EALREADY)))
      else TakeEffect(s, t, Handle(s.next), Returning(Handle(s.next)))
           .(table := [Row(s.next, s.threads[t].call.name, fd)] + s.table, next := s.next + 1)
    case Lookup(t) => LookupStep(s, t)
    case EndUse(t, code) => TakeEffect(s, t, Device(code), Returning(Device(code))).(lock := None)
    case KernelCloses(t) =>
      var Closing(fd, result) := s.threads[t].stage;
      Move(s, t, Returning(result)).(kernel := s.kernel - {fd}, closes := s.closes + multiset{fd})
    case Return(t) =>
      var th := s.threads[t];
      s.(threads := s.threads - {t}, ops := s.ops[th.op := Finished(th.call, th.stage.result)],
         history := s.history + [Returned(th.op, th.stage.result)])
  }

  /** The descriptor a stage owns. */
  function Held(stage: Stage): Option<Fd> {
    match stage
    case Configuring(fd) => Some(fd)
    case Publishing(fd) => Some(fd)
    case Closing(fd, _) => Some(fd)
    case _ => None
  }

  predicate Holds(s: State, t: Tid, fd: Fd) {
    t in s.threads && Held(s.threads[t].stage) == Some(fd)
  }

  predicate HasPort(rows: seq<Row<Fd>>, fd: Fd) {
    exists i :: 0 <= i < |rows| && rows[i].port == fd
  }

  predicate PortsDiffer(rows: seq<Row<Fd>>) {
    forall i, j :: 0 <= i < j < |rows| ==> rows[i].port != rows[j].port
  }

  predicate InTable(s: State, fd: Fd) { HasPort(s.table, fd) }

  /** The open descriptors are the disjoint union of those in the table and those owned by threads,
      each owned once, and every open(2) has been matched by one close(2) or is still open. */
  ghost predicate Conserved(s: State) {
    && (forall fd :: fd in s.kernel <==> InTable(s, fd) || exists t :: Holds(s, t, fd))
    && PortsDiffer(s.table)
    && (forall t, fd :: Holds(s, t, fd) ==> !InTable(s, fd))
    && (forall t, u, fd :: Holds(s, t, fd) && Holds(s, u, fd) ==> t == u)
    && s.opens == s.closes + multiset(s.kernel)
  }

  /** Only the thread inside a port operation holds the mutex, and its port stays in the table. */
  ghost predicate Locked(s: State) {
    && (forall t :: t in s.threads && s.threads[t].stage.Using? ==>
          s.lock == Some(t) && s.threads[t].stage.row in s.table && s.threads[t].call.Use?
          && s.threads[t].stage.row.handle == s.threads[t].call.handle)
    && (s.lock.Some? ==> s.lock.value in s.threads && s.threads[s.lock.value].stage.Using?)
  }

  function StatusOf(call: Call, stage: Stage): Status {
    match stage
    case Closing(_, r) => Effected(call, r)
    case Returning(r) => Effected(call, r)
    case _ => Pending(call)
  }

  predicate Opening(stage: Stage) {
    stage.Creating? || stage.Configuring? || stage.Publishing?
  }

  /** Threads run distinct operations, only `open` creates ports, and a thread's stage says whether
      its operation has taken effect. */
  ghost predicate Recorded(s: State) {
    && OpsExist(s)
    && (forall t :: t in s.threads ==>
          s.ops[s.threads[t].op] == StatusOf(s.threads[t].call, s.threads[t].stage))
    && (forall t, u :: t in s.threads && u in s.threads && s.threads[t].op == s.threads[u].op ==> t == u)
    && (forall t :: t in s.threads && Opening(s.threads[t].stage) ==> s.threads[t].call.Open?)
  }

  ghost predicate Inv(s: State) {
    WellFormed(s.table, s.next) && Conserved(s) && Locked(s) && Recorded(s)
  }

  lemma InitialHolds()
    ensures Inv(initial)
  {
  }

  lemma TableKept(s: State, step: Step)
    requires Inv(s) && Enabled(s, step)
    ensures WellFormed(Apply(s, step).table, Apply(s, step).next)
    ensures Apply(s, step).next >= s.next
  {
    if step.Publish? {
      var th := s.threads[step.t];
      PublishKeepsTable(s.table, s.next, th.call.name, th.stage.fd);
    } else if step.Lookup? {
      DetachRemovesExactlyTheMatch(s.table, s.next, KeyOf(s.threads[step.t].call));
    }
  }

  /** `t` moved to `stage`, its operation's status follows, and nothing else was recorded. */
  ghost predicate Moved(s: State, s': State, t: Tid, stage: Stage) {
    && t in s.threads && s.threads[t].op < |s.ops|
    && s'.threads == s.threads[t := s.threads[t].(stage := stage)]
    && s'.ops == s.ops[s.threads[t].op := StatusOf(s.threads[t].call, stage)]
  }

  lemma MoveKeepsRecord(s: State, s': State, t: Tid, stage: Stage)
    requires Recorded(s) && Moved(s, s', t, stage)
    requires Opening(stage) ==> s.threads[t].call.Open?
    ensures Recorded(s')
  {
  }

  /** Where a step other than Invoke and Return leaves its thread. */
  function NextStage(s: State, step: Step): Stage
    requires Enabled(s, step) && OpsExist(s) && !step.Invoke? && !step.Return?
  {
    Apply(s, step).threads[step.t].stage
  }

  lemma StepMoves(s: State, step: Step)
    requires Recorded(s) && Enabled(s, step) && !step.Invoke? && !step.Return?
    ensures Moved(s, Apply(s, step), step.t, NextStage(s, step))
    ensures Opening(NextStage(s, step)) ==> s.threads[step.t].call.Open?
  {
    if step.Lookup? {
      LookupMoves(s, step.t);
    } else if step.CheckName? || step.Publish? {
      SectionMoves(s, step);
    } else {
      OutsideMoves(s, step);
    }
  }

  lemma SectionMoves(s: State, step: Step)
    requires Recorded(s) && Enabled(s, step) && (step.CheckName? || step.Publish?)
    ensures Moved(s, Apply(s, step), step.t, NextStage(s, step))
    ensures s.threads[step.t].call.Open?
  {
    var th := s.threads[step.t];
    assert s.ops == s.ops[th.op := s.ops[th.op]];
  }

  lemma OutsideMoves(s: State, step: Step)
    requires Recorded(s) && Enabled(s, step) && !step.Invoke? && !step.Return?
    requires !step.Lookup? && !step.CheckName? && !step.Publish?
    ensures Moved(s, Apply(s, step), step.t, NextStage(s, step))
    ensures Opening(NextStage(s, step)) ==> s.threads[step.t].call.Open?
  {
    var th := s.threads[step.t];
    assert s.ops == s.ops[th.op := s.ops[th.op]];
  }

  lemma LookupMoves(s: State, t: Tid)
    requires Recorded(s) && Enabled(s, Lookup(t))
    ensures Moved(s, LookupStep(s, t), t, LookupStep(s, t).threads[t].stage)
    ensures !Opening(LookupStep(s, t).threads[t].stage)
  {
    var th := s.threads[t];
    assert s.ops == s.ops[th.op := s.ops[th.op]];
  }

  lemma InvokeKeepsRecord(s: State, step: Step)
    requires Recorded(s) && Enabled(s, step) && step.Invoke?
    ensures Recorded(Apply(s, step))
  {
  }

  lemma ReturnKeepsRecord(s: State, step: Step)
    requires Recorded(s) && Enabled(s, step) && step.Return?
    ensures Recorded(Apply(s, step))
  {
  }

  lemma RecordKept(s: State, step: Step)
    requires Recorded(s) && Enabled(s, step)
    ensures Recorded(Apply(s, step))
  {
    match step
    case Invoke(_, _) => InvokeKeepsRecord(s, step);
    case Return(_) => ReturnKeepsRecord(s, step);
    case _ =>
      StepMoves(s, step);
      MoveKeepsRecord(s, Apply(s, step), step.t, NextStage(s, step));
  }

  /** A thread that neither gains nor loses a descriptor, over the same table and kernel. */
  lemma SameHoldings(s: State, s': State)
    requires Conserved(s)
    requires s'.table == s.table && s'.kernel == s.kernel && s'.opens == s.opens && s'.closes == s.closes
    requires forall t, fd :: Holds(s', t, fd) <==> Holds(s, t, fd)
    ensures Conserved(s')
  {
    assert forall fd :: InTable(s', fd) <==> InTable(s, fd);
    forall fd ensures fd in s'.kernel <==> InTable(s', fd) || exists t :: Holds(s', t, fd) {
      if t :| Holds(s, t, fd) {
        assert Holds(s', t, fd);
      }
    }
  }

  lemma OpenConserves(s: State, t: Tid, fd: Fd)
    requires Conserved(s) && OpsExist(s) && Enabled(s, KernelOpens(t, fd))
    ensures Conserved(Apply(s, KernelOpens(t, fd)))
  {
    var s' := Apply(s, KernelOpens(t, fd));
    assert forall u, g :: Holds(s', u, g) <==> if u == t then g == fd else Holds(s, u, g);
    assert forall g :: InTable(s', g) <==> InTable(s, g);
    forall g ensures g in s'.kernel <==> InTable(s', g) || exists u :: Holds(s', u, g) {
      if g == fd {
        assert Holds(s', t, fd);
      } else if u :| Holds(s, u, g) {
        assert Holds(s', u, g);
      }
    }
    assert multiset(s'.kernel) == multiset(s.kernel) + multiset{fd};
  }

  lemma CloseConserves(s: State, t: Tid)
    requires Conserved(s) && OpsExist(s) && Enabled(s, KernelCloses(t))
    ensures Conserved(Apply(s, KernelCloses(t)))
    ensures s.threads[t].stage.fd in s.kernel
  {
    var s' := Apply(s, KernelCloses(t));
    var fd := s.threads[t].stage.fd;
    assert Holds(s, t, fd);
    assert forall u, g :: Holds(s', u, g) <==> u != t && Holds(s, u, g);
    assert forall g :: InTable(s', g) <==> InTable(s, g);
    forall g ensures g in s'.kernel <==> InTable(s', g) || exists u :: Holds(s', u, g) {
      if u :| Holds(s, u, g) && g != fd {
        assert Holds(s', u, g);
      }
    }
    assert multiset(s.kernel) == multiset(s'.kernel) + multiset{fd};
  }

  /** A descriptor passes from its thread into the table. */
  lemma PublishConserves(s: State, t: Tid)
    requires Conserved(s) && OpsExist(s) && Enabled(s, Publish(t))
    ensures Conserved(Apply(s, Publish(t)))
  {
    var s' := Apply(s, Publish(t));
    var fd := s.threads[t].stage.fd;
    assert Holds(s, t, fd);
    if s'.table == s.table {
      SameHoldings(s, s');
    } else {
      assert forall u, g :: Holds(s', u, g) <==> u != t && Holds(s, u, g);
      assert s'.table[1..] == s.table && s'.table[0].port == fd;
      forall g ensures InTable(s', g) <==> g == fd || InTable(s, g) {
        if i :| 0 <= i < |s.table| && s.table[i].port == g {
          assert s'.table[i + 1].port == g;
        }
      }
      forall g ensures g in s'.kernel <==> InTable(s', g) || exists u :: Holds(s', u, g) {
        if u :| Holds(s, u, g) && u != t {
          assert Holds(s', u, g);
        }
      }
    }
  }

  lemma WithoutPort(rows: seq<Row<Fd>>, i: nat)
    requires PortsDiffer(rows) && i < |rows|
    ensures PortsDiffer(Without(rows, i))
    ensures forall g :: HasPort(Without(rows, i), g) <==> g != rows[i].port && HasPort(rows, g)
  {
    var left := Without(rows, i);
    assert forall k :: 0 <= k < |left| ==> left[k] == rows[if k < i then k else k + 1];
    forall g ensures HasPort(left, g) <==> g != rows[i].port && HasPort(rows, g) {
      if k :| 0 <= k < |rows| && rows[k].port == g && g != rows[i].port {
        assert left[if k < i then k else k - 1].port == g;
      }
    }
  }

  /** A descriptor passes out of the table to the thread that detached it. */
  lemma LookupConserves(s: State, t: Tid)
    requires Conserved(s) && OpsExist(s) && Enabled(s, Lookup(t))
    ensures Conserved(Apply(s, Lookup(t)))
  {
    var s' := Apply(s, Lookup(t));
    var call := s.threads[t].call;
    var i := IndexOf(s.table, KeyOf(call));
    if i == |s.table| || call.Find? || call.Use? {
      SameHoldings(s, s');
    } else {
      WithoutPort(s.table, i);
      DetachConserves(s, s', t, s.table[i].port);
    }
  }

  lemma DetachConserves(s: State, s': State, t: Tid, fd: Fd)
    requires Conserved(s) && InTable(s, fd) && PortsDiffer(s'.table)
    requires forall g :: InTable(s', g) <==> g != fd && InTable(s, g)
    requires forall u, g :: Holds(s', u, g) <==> if u == t then g == fd else Holds(s, u, g)
    requires forall g :: !Holds(s, t, g)
    requires s'.kernel == s.kernel && s'.opens == s.opens && s'.closes == s.closes
    ensures Conserved(s')
  {
    forall g ensures g in s'.kernel <==> InTable(s', g) || exists u :: Holds(s', u, g) {
      if g == fd {
        assert Holds(s', t, fd);
      } else if u :| Holds(s, u, g) {
        assert Holds(s', u, g);
      }
    }
  }

  lemma QuietConserves(s: State, step: Step)
    requires Conserved(s) && OpsExist(s) && Enabled(s, step)
    requires !step.KernelOpens? && !step.KernelCloses? && !step.Publish? && !step.Lookup?
    ensures Conserved(Apply(s, step))
  {
    SameHoldings(s, Apply(s, step));
  }

  lemma ConservationKept(s: State, step: Step)
    requires Conserved(s) && OpsExist(s) && Enabled(s, step)
    ensures Conserved(Apply(s, step))
  {
    match step
    case KernelOpens(t, fd) => OpenConserves(s, t, fd);
    case KernelCloses(t) => CloseConserves(s, t);
    case Publish(t) => PublishConserves(s, t);
    case Lookup(t) => LookupConserves(s, t);
    case _ => QuietConserves(s, step);
  }

  /** A critical section runs with the mutex free, so no thread is inside a port operation. */
  lemma FreeMeansNoUse(s: State)
    requires Locked(s) && s.lock == None
    ensures forall t :: t in s.threads ==> !s.threads[t].stage.Using?
  {
  }

  /** Steps outside `Lookup` and `EndUse` leave the mutex alone and never shrink the table. */
  lemma LockFramed(s: State, s': State, t: Tid)
    requires Locked(s) && s'.lock == s.lock && s.lock != Some(t)
    requires forall u :: u != t ==> (u in s'.threads <==> u in s.threads)
    requires forall u :: u != t && u in s.threads ==> s'.threads[u] == s.threads[u]
    requires t in s'.threads ==> !s'.threads[t].stage.Using?
    requires forall r :: r in s.table ==> r in s'.table
    ensures Locked(s')
  {
  }

  lemma SectionLocks(s: State, step: Step)
    requires Locked(s) && OpsExist(s) && Enabled(s, step) && (step.Lookup? || step.Publish?)
    ensures Locked(Apply(s, step))
  {
    FreeMeansNoUse(s);
  }

  lemma LockKept(s: State, step: Step)
    requires Locked(s) && OpsExist(s) && Enabled(s, step)
    ensures Locked(Apply(s, step))
  {
    match step
    case Lookup(_) => SectionLocks(s, step);
    case Publish(_) => SectionLocks(s, step);
    case EndUse(t, _) =>
    case _ => LockFramed(s, Apply(s, step), step.t);
  }

  lemma InvKept(s: State, step: Step)
    requires Inv(s) && Enabled(s, step)
    ensures Inv(Apply(s, step))
  {
    TableKept(s, step);
    RecordKept(s, step);
    ConservationKept(s, step);
    LockKept(s, step);
  }
}
