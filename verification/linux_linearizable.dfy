// Every run of the Linux port manager is equivalent to one in which each call happens at a single
// moment between its invocation and its return, on an atomic map from port names to handles.
module LinuxLinearizability {
  import opened Errno
  import opened LinuxRegistry
  import opened Optional
  import opened PortTable

  /** The atomic map, and the counter its handles come from. */
  datatype Atomic = Atomic(ports: map<string, int>, next: int)

  /** The results the atomic map allows for a call made when it holds `m`. A device may fail an open
      at any time; it may answer an operation on a live handle as it likes. */
  predicate Allows(m: Atomic, call: Call, result: Result) {
    match call
    case Open(n) =>
      (match result
       case Handle(h) => n !in m.ports && h == m.next
       case Error(c) => n in m.ports && c == -EALREADY
       case Device(_) => true
       case Done => false)
    case Close(h) => result == if h in m.ports.Values then Done else Error(-ENOENT)
    case CloseName(n) => result == if n in m.ports then Done else Error(-ENOENT)
    case Find(n) => result == if n in m.ports then Handle(m.ports[n]) else Error(-ENOENT)
    case Use(h) => if h in m.ports.Values then result.Device? else result == Error(-ENOENT)
  }

  /** What the call leaves behind. */
  function Next(m: Atomic, call: Call, result: Result): Atomic {
    match (call, result)
    case (Open(n), Handle(h)) => Atomic(m.ports[n := h], m.next + 1)
    case (Close(h), Done) => m.(ports := map n | n in m.ports && m.ports[n] != h :: m.ports[n])
    case (CloseName(n), Done) => m.(ports := m.ports - {n})
    case _ => m
  }

  /** The atomic map after the effects in `h`, in the order they happened. */
  function After(h: seq<Event>): Atomic {
    if h == [] then Atomic(map[], 1) else
    var m, last := After(h[..|h| - 1]), h[|h| - 1];
    if last.Effect? then Next(m, last.call, last.result) else m
  }

  /** Each effect in `h` is one the atomic map allows at that moment. */
  predicate Legal(h: seq<Event>) {
    h == [] ||
    (var front, last := h[..|h| - 1], h[|h| - 1];
     Legal(front) && (last.Effect? ==> Allows(After(front), last.call, last.result)))
  }

  /** The events of one operation. */
  function Of(h: seq<Event>, op: nat): seq<Event> {
    if h == [] then [] else
    var front, last := h[..|h| - 1], h[|h| - 1];
    Of(front, op) + if last.op == op then [last] else []
  }

  /** The events an operation has had, given how far it is: invoked, effected once, returned with
      the result of its effect. */
  function TraceOf(ops: seq<Status>, op: nat): seq<Event> {
    if op >= |ops| then [] else
    match ops[op]
    case Pending(c) => [Invoked(op, c)]
    case Effected(c, r) => [Invoked(op, c), Effect(op, c, r)]
    case Finished(c, r) => [Invoked(op, c), Effect(op, c, r), Returned(op, r)]
  }

  function MapOf(rows: seq<Row<Fd>>): map<string, int> {
    if rows == [] then map[] else MapOf(rows[1..])[rows[0].name := rows[0].handle]
  }

  /** The refinement: the table is the atomic map the history leads to. */
  ghost predicate Refines(s: State) {
    Legal(s.history) && After(s.history) == Atomic(MapOf(s.table), s.next)
  }

  ghost predicate Traced(s: State) {
    forall op: nat :: Of(s.history, op) == TraceOf(s.ops, op)
  }

  lemma Snoc(h: seq<Event>, e: Event)
    ensures After(h + [e]) == if e.Effect? then Next(After(h), e.call, e.result) else After(h)
    ensures Legal(h + [e]) <==> Legal(h) && (e.Effect? ==> Allows(After(h), e.call, e.result))
    ensures forall op :: Of(h + [e], op) == Of(h, op) + if e.op == op then [e] else []
  {
    assert (h + [e])[..|h|] == h;
  }

  lemma {:induction false} MapByName(rows: seq<Row<Fd>>, name: string)
    ensures var i := IndexOf(rows, ByName(name));
      (name in MapOf(rows) <==> i < |rows|) && (i < |rows| ==> MapOf(rows)[name] == rows[i].handle)
  {
    if rows != [] && rows[0].name != name {
      MapByName(rows[1..], name);
    }
  }

  /** In a well-formed table the map holds exactly the pairs of the rows. */
  lemma MapHolds(rows: seq<Row<Fd>>, next: int, r: Row<Fd>)
    requires WellFormed(rows, next) && r in rows
    ensures r.name in MapOf(rows) && MapOf(rows)[r.name] == r.handle
  {
    MapByName(rows, r.name);
    var i := IndexOf(rows, ByName(r.name));
    var k :| 0 <= k < |rows| && rows[k] == r;
    assert Matches(rows[k], ByName(r.name));
    assert i == k;
  }

  lemma MapByHandle(rows: seq<Row<Fd>>, next: int, handle: int)
    requires WellFormed(rows, next)
    ensures handle in MapOf(rows).Values <==> IndexOf(rows, ByHandle(handle)) < |rows|
  {
    var i := IndexOf(rows, ByHandle(handle));
    if i < |rows| {
      MapHolds(rows, next, rows[i]);
    }
    if n :| n in MapOf(rows) && MapOf(rows)[n] == handle {
      MapByName(rows, n);
      assert Matches(rows[IndexOf(rows, ByName(n))], ByHandle(handle));
    }
  }

  lemma {:induction false} MapOfWithout(rows: seq<Row<Fd>>, next: int, i: nat)
    requires WellFormed(rows, next) && i < |rows|
    ensures MapOf(Without(rows, i)) == MapOf(rows) - {rows[i].name}
  {
    var head, tail := rows[0], rows[1..];
    if i == 0 {
      assert Without(rows, 0) == tail;
      MapByName(tail, head.name);
      assert head.name !in MapOf(tail);
    } else {
      MapOfWithout(tail, next, i - 1);
      var left := Without(rows, i);
      assert left[0] == head && left[1..] == Without(tail, i - 1);
      AddThenRemove(MapOf(tail), head.name, head.handle, rows[i].name);
    }
  }

  lemma AddThenRemove(m: map<string, int>, a: string, v: int, b: string)
    requires a != b
    ensures (m - {b})[a := v] == m[a := v] - {b}
  {
  }

  /** Detaching by handle leaves the map without that handle. */
  lemma MapOfDetach(rows: seq<Row<Fd>>, next: int, i: nat)
    requires WellFormed(rows, next) && i < |rows|
    ensures var m := MapOf(rows);
      MapOf(Without(rows, i)) == map n | n in m && m[n] != rows[i].handle :: m[n]
  {
    MapOfWithout(rows, next, i);
    MapHolds(rows, next, rows[i]);
    forall n | n in MapOf(rows) && MapOf(rows)[n] == rows[i].handle ensures n == rows[i].name {
      MapByName(rows, n);
    }
  }

  /** A step adds nothing to the history and leaves the map alone, or takes effect as the map allows. */
  lemma StepRefines(s: State, step: Step)
    requires Inv(s) && Refines(s) && Enabled(s, step)
    ensures Refines(Apply(s, step))
  {
    match step
    case CheckName(t) => CheckRefines(s, t);
    case Publish(t) => PublishRefines(s, t);
    case Lookup(t) => LookupRefines(s, t);
    case EndUse(t, code) => EndUseRefines(s, t, code);
    case CreateFails(t, _) => FailureRefines(s, step);
    case ConfigFails(t, _) => FailureRefines(s, step);
    case AllocFails(t) => FailureRefines(s, step);
    case Invoke(t, call) => Snoc(s.history, Invoked(|s.ops|, call));
    case Return(t) => Snoc(s.history, Returned(s.threads[t].op, s.threads[t].stage.result));
    case _ =>
  }

  lemma CheckRefines(s: State, t: Tid)
    requires Inv(s) && Refines(s) && Enabled(s, CheckName(t))
    ensures Refines(Apply(s, CheckName(t)))
  {
    MapByName(s.table, s.threads[t].call.name);
    SnocEffect(s, t, Error(-EALREADY));
  }

  /** A device may fail an open at any time. */
  lemma FailureRefines(s: State, step: Step)
    requires Inv(s) && Refines(s) && Enabled(s, step)
    requires step.CreateFails? || step.ConfigFails? || step.AllocFails?
    ensures Refines(Apply(s, step))
  {
    SnocEffect(s, step.t, Device(if step.AllocFails? then -ENOMEM else step.code));
  }

  lemma SnocEffect(s: State, t: Tid, result: Result)
    requires t in s.threads
    ensures var e := Effect(s.threads[t].op, s.threads[t].call, result);
      && After(s.history + [e]) == Next(After(s.history), e.call, result)
      && (Legal(s.history + [e]) <==> Legal(s.history) && Allows(After(s.history), e.call, result))
  {
    Snoc(s.history, Effect(s.threads[t].op, s.threads[t].call, result));
  }

  lemma MapOfPublish(rows: seq<Row<Fd>>, row: Row<Fd>)
    ensures MapOf([row] + rows) == MapOf(rows)[row.name := row.handle]
  {
    assert ([row] + rows)[1..] == rows;
  }

  lemma PublishRefines(s: State, t: Tid)
    requires Inv(s) && Refines(s) && Enabled(s, Publish(t))
    ensures Refines(Apply(s, Publish(t)))
    ensures var th, m := s.threads[t], After(s.history);
      Apply(s, Publish(t)).history ==
        s.history + [Effect(th.op, th.call, if th.call.name in m.ports then Error(-EALREADY) else Handle(m.next))]
  {
    var th := s.threads[t];
    MapByName(s.table, th.call.name);
    if IndexOf(s.table, ByName(th.call.name)) == |s.table| {
      MapOfPublish(s.table, Row(s.next, th.call.name, th.stage.fd));
      EffectRefines(s, Apply(s, Publish(t)), t, Handle(s.next));
    } else {
      EffectRefines(s, Apply(s, Publish(t)), t, Error(-EALREADY));
    }
  }

  /** One effect the atomic map allows, after which the table is the map it leaves. */
  lemma EffectRefines(s: State, s': State, t: Tid, result: Result)
    requires Refines(s) && t in s.threads
    requires s'.history == s.history + [Effect(s.threads[t].op, s.threads[t].call, result)]
    requires var m := Atomic(MapOf(s.table), s.next);
      Allows(m, s.threads[t].call, result) && Atomic(MapOf(s'.table), s'.next) == Next(m, s.threads[t].call, result)
    ensures Refines(s')
  {
    SnocEffect(s, t, result);
  }

  lemma EndUseRefines(s: State, t: Tid, code: int)
    requires Inv(s) && Refines(s) && Enabled(s, EndUse(t, code))
    ensures Refines(Apply(s, EndUse(t, code)))
  {
    MapHolds(s.table, s.next, s.threads[t].stage.row);
    SnocEffect(s, t, Device(code));
  }

  lemma LookupRefines(s: State, t: Tid)
    requires Inv(s) && Refines(s) && Enabled(s, Lookup(t))
    ensures Refines(Apply(s, Lookup(t)))
  {
    var call := s.threads[t].call;
    var i := IndexOf(s.table, KeyOf(call));
    if call.Close? || call.Use? {
      MapByHandle(s.table, s.next, call.handle);
    } else {
      MapByName(s.table, call.name);
    }
    if i < |s.table| {
      MapOfWithout(s.table, s.next, i);
      MapOfDetach(s.table, s.next, i);
      SnocEffect(s, t, Done);
      SnocEffect(s, t, Handle(s.table[i].handle));
    } else {
      SnocEffect(s, t, Error(-ENOENT));
    }
  }

  /** What the history gains when `t` moves to `stage`: its effect, if it takes effect by moving. */
  ghost predicate Logs(s: State, s': State, t: Tid, stage: Stage)
    requires t in s.threads && s.threads[t].op < |s.ops|
  {
    var th := s.threads[t];
    match StatusOf(th.call, stage)
    case Effected(c, r) =>
      if s.ops[th.op].Pending? then s'.history == s.history + [Effect(th.op, c, r)]
      else s'.history == s.history && s.ops[th.op] == Effected(c, r)
    case _ => s'.history == s.history && s.ops[th.op].Pending?
  }

  lemma StepHistory(s: State, step: Step)
    requires Recorded(s) && Enabled(s, step) && !step.Invoke? && !step.Return?
    ensures Logs(s, Apply(s, step), step.t, NextStage(s, step))
  {
    if step.Lookup? {
      LookupHistory(s, step.t);
    }
  }

  lemma LookupHistory(s: State, t: Tid)
    requires Recorded(s) && Enabled(s, Lookup(t))
    ensures Logs(s, LookupStep(s, t), t, LookupStep(s, t).threads[t].stage)
  {
  }

  /** Each step extends the trace of its own operation by the next event and no other trace. */
  lemma StepTraces(s: State, step: Step)
    requires Recorded(s) && Traced(s) && Enabled(s, step)
    ensures Traced(Apply(s, step))
  {
    match step
    case Invoke(t, call) => InvokeTraces(s, t, call);
    case Return(t) => ReturnTraces(s, t);
    case _ =>
      StepMoves(s, step);
      StepHistory(s, step);
      MoveTraces(s, Apply(s, step), step.t, NextStage(s, step));
  }

  lemma InvokeTraces(s: State, t: Tid, call: Call)
    requires Recorded(s) && Traced(s) && Enabled(s, Invoke(t, call))
    ensures Traced(Apply(s, Invoke(t, call)))
  {
    Snoc(s.history, Invoked(|s.ops|, call));
  }

  lemma ReturnTraces(s: State, t: Tid)
    requires Recorded(s) && Traced(s) && Enabled(s, Return(t))
    ensures Traced(Apply(s, Return(t)))
  {
    Snoc(s.history, Returned(s.threads[t].op, s.threads[t].stage.result));
  }

  /** A thread that moves adds its effect exactly when its stage turns from pending to effected. */
  lemma MoveTraces(s: State, s': State, t: Tid, stage: Stage)
    requires Recorded(s) && Traced(s) && Moved(s, s', t, stage) && Logs(s, s', t, stage)
    ensures Traced(s')
  {
    var th := s.threads[t];
    if StatusOf(th.call, stage).Effected? {
      Snoc(s.history, Effect(th.op, th.call, StatusOf(th.call, stage).result));
    }
  }

  /** A run: any number of threads, any calls, any schedule, any answers of the kernel. */
  ghost predicate Run(states: seq<State>, steps: seq<Step>) {
    && |states| == |steps| + 1 && states[0] == initial
    && forall i :: 0 <= i < |steps| ==>
         OpsExist(states[i]) && Enabled(states[i], steps[i]) && states[i + 1] == Apply(states[i], steps[i])
  }

  /** In every state of every run: the table is well formed, descriptors are conserved, the mutex
      is respected, and the effects so far are a legal history of the atomic map leading to the table. */
  lemma {:induction false} EveryRun(states: seq<State>, steps: seq<Step>, i: nat)
    requires Run(states, steps) && i < |states|
    ensures Inv(states[i]) && Refines(states[i]) && Traced(states[i])
  {
    if i > 0 {
      EveryRun(states, steps, i - 1);
      InvKept(states[i - 1], steps[i - 1]);
      StepRefines(states[i - 1], steps[i - 1]);
      StepTraces(states[i - 1], steps[i - 1]);
    }
  }

  /** The place of event `i` among the events of its operation. */
  lemma {:induction false} PlaceOf(h: seq<Event>, i: nat)
    requires i < |h|
    ensures var own := Of(h, h[i].op);
      |Of(h[..i], h[i].op)| < |own| && own[|Of(h[..i], h[i].op)|] == h[i]
  {
    var front := h[..|h| - 1];
    if i == |front| {
      assert h[..i] == front;
    } else {
      PlaceOf(front, i);
      assert front[..i] == h[..i];
    }
  }

  lemma {:induction false} OfGrows(h: seq<Event>, op: nat, i: nat, j: nat)
    requires i < j <= |h|
    ensures |Of(h[..i], op)| + (if h[i].op == op then 1 else 0) <= |Of(h[..j], op)|
  {
    assert h[..j][..j - 1] == h[..j - 1];
    if i < j - 1 {
      OfGrows(h, op, i, j - 1);
    }
  }

  /** The moment of effect is unique, lies after the invocation and before the return, and the call
      returns the result it had there: with `Legal`, this is linearizability. */
  lemma EffectIsTheMoment(states: seq<State>, steps: seq<Step>, i: nat, p: nat, q: nat)
    requires Run(states, steps) && i < |states|
    requires p < |states[i].history| && q < |states[i].history|
    requires states[i].history[p].Effect? && states[i].history[q].op == states[i].history[p].op
    ensures var h := states[i].history;
      match h[q]
      case Invoked(_, call) => q < p && call == h[p].call
      case Effect(_, _, _) => q == p
      case Returned(_, result) => p < q && result == h[p].result
  {
    EveryRun(states, steps, i);
    var h := states[i].history;
    var op := h[p].op;
    PlaceOf(h, p);
    PlaceOf(h, q);
    assert Of(h, op) == TraceOf(states[i].ops, op);
    if p < q {
      OfGrows(h, op, p, q);
    } else if q < p {
      OfGrows(h, op, q, p);
    }
  }

  /** A call that has returned has had its effect. */
  lemma ReturnedHadEffect(states: seq<State>, steps: seq<Step>, i: nat, r: nat)
    requires Run(states, steps) && i < |states|
    requires r < |states[i].history| && states[i].history[r].Returned?
    ensures exists p :: 0 <= p < r && states[i].history[p].Effect? && states[i].history[p].op == states[i].history[r].op
  {
    EveryRun(states, steps, i);
    var h := states[i].history;
    var op := h[r].op;
    PlaceOf(h, r);
    assert Of(h, op) == TraceOf(states[i].ops, op);
    var p := WhereIs(h, op, 1);
    if r < p {
      OfGrows(h, op, r, p);
    }
  }

  /** The event at place `k` among those of an operation, found in the whole history. */
  lemma {:induction false} WhereIs(h: seq<Event>, op: nat, k: nat) returns (p: nat)
    requires k < |Of(h, op)|
    ensures p < |h| && h[p] == Of(h, op)[k] && h[p].op == op && |Of(h[..p], op)| == k
  {
    var front := h[..|h| - 1];
    if k < |Of(front, op)| {
      p := WhereIs(front, op, k);
      assert front[..p] == h[..p];
    } else {
      p := |h| - 1;
    }
  }

  /** So effects respect real time: a call that returned before another was invoked took effect first. */
  lemma RealTimeOrder(states: seq<State>, steps: seq<Step>, i: nat, r: nat, v: nat, p: nat, q: nat)
    requires Run(states, steps) && i < |states|
    requires r < v < |states[i].history| && p < |states[i].history| && q < |states[i].history|
    requires states[i].history[r].Returned? && states[i].history[v].Invoked?
    requires states[i].history[p].Effect? && states[i].history[p].op == states[i].history[r].op
    requires states[i].history[q].Effect? && states[i].history[q].op == states[i].history[v].op
    ensures p < q
  {
    EffectIsTheMoment(states, steps, i, p, r);
    EffectIsTheMoment(states, steps, i, q, v);
  }

  /** When no call is in flight the open descriptors are exactly those in the table, each opened
      once more than it was closed; every other descriptor has been closed as often as opened. */
  lemma QuietMeansNoLeak(states: seq<State>, steps: seq<Step>, i: nat, fd: Fd)
    requires Run(states, steps) && i < |states| && states[i].threads == map[]
    ensures fd in states[i].kernel <==> InTable(states[i], fd)
    ensures states[i].opens[fd] == states[i].closes[fd] + if InTable(states[i], fd) then 1 else 0
  {
    EveryRun(states, steps, i);
  }

  /** close(2) is only ever called on an open descriptor that the closing thread alone owns and that
      is out of the table; so no descriptor is closed twice and no live one is closed. */
  lemma ClosesOwnOpenDescriptor(states: seq<State>, steps: seq<Step>, i: nat)
    requires Run(states, steps) && i < |steps| && steps[i].KernelCloses?
    ensures var s, t := states[i], steps[i].t;
      var fd := s.threads[t].stage.fd;
      fd in s.kernel && !InTable(s, fd) && forall u :: Holds(s, u, fd) ==> u == t
  {
    EveryRun(states, steps, i);
    CloseConserves(states[i], steps[i].t);
    assert Holds(states[i], steps[i].t, states[i].threads[steps[i].t].stage.fd);
  }

  /** While an operation runs on a port, the port is in the table, its descriptor is open and no
      thread is closing it: nothing runs on a detached descriptor. */
  lemma NoUseAfterDetach(states: seq<State>, steps: seq<Step>, i: nat, t: Tid)
    requires Run(states, steps) && i < |states|
    requires t in states[i].threads && states[i].threads[t].stage.Using?
    ensures var s, row := states[i], states[i].threads[t].stage.row;
      row in s.table && row.port in s.kernel && forall u :: !Holds(s, u, row.port)
  {
    EveryRun(states, steps, i);
    var s, row := states[i], states[i].threads[t].stage.row;
    var k :| 0 <= k < |s.table| && s.table[k] == row;
    assert InTable(s, row.port);
  }

  /** Handles in the map were issued, each to one name. */
  lemma {:induction false} HandlesIssuedOnce(h: seq<Event>)
    requires Legal(h)
    ensures var m := After(h);
      && 1 <= m.next
      && (forall n :: n in m.ports ==> 1 <= m.ports[n] < m.next)
      && (forall a, b :: a in m.ports && b in m.ports && m.ports[a] == m.ports[b] ==> a == b)
  {
    if h != [] {
      HandlesIssuedOnce(h[..|h| - 1]);
    }
  }

  function Issued(h: seq<Event>): nat {
    if h == [] then 0 else
    var last := h[|h| - 1];
    Issued(h[..|h| - 1]) + if last.Effect? && last.call.Open? && last.result.Handle? then 1 else 0
  }

  /** The counter counts successful opens, so with fewer than 2^31 - 1 of them it never overflows. */
  lemma {:induction false} CounterCountsOpens(h: seq<Event>)
    requires Legal(h)
    ensures After(h).next == Issued(h) + 1
    ensures Issued(h) < 0x7fff_ffff ==> After(h).next <= 0x7fff_ffff
  {
    if h != [] {
      CounterCountsOpens(h[..|h| - 1]);
    }
  }

  /** A handle that was issued and is no longer in the map. */
  predicate Dead(m: Atomic, handle: int) {
    handle < m.next && handle !in m.ports.Values
  }

  lemma {:induction false} DeadStaysDead(h: seq<Event>, i: nat, handle: int)
    requires Legal(h) && i <= |h| && Dead(After(h[..i]), handle)
    ensures Dead(After(h), handle)
  {
    if i == |h| {
      assert h[..i] == h;
    } else {
      var front, last := h[..|h| - 1], h[|h| - 1];
      assert front[..i] == h[..i];
      DeadStaysDead(front, i, handle);
      var m := After(front);
      if last.Effect? && handle in Next(m, last.call, last.result).ports.Values {
        var n :| n in Next(m, last.call, last.result).ports && Next(m, last.call, last.result).ports[n] == handle;
        assert n in m.ports ==> m.ports[n] in m.ports.Values;
      }
    }
  }

  lemma LegalPrefix(h: seq<Event>, i: nat)
    requires Legal(h) && i <= |h|
    ensures Legal(h[..i])
  {
    if i < |h| {
      LegalPrefix(h[..|h| - 1], i);
      assert h[..|h| - 1][..i] == h[..i];
    } else {
      assert h[..i] == h;
    }
  }

  /** The handle an effect takes out of the map, if any. */
  function ClosedBy(m: Atomic, e: Event): Option<int> {
    if !e.Effect? || e.result != Done then None
    else if e.call.Close? then Some(e.call.handle)
    else if e.call.CloseName? && e.call.name in m.ports then Some(m.ports[e.call.name])
    else None
  }

  /** Once a handle has been closed, every later call on it fails with ENOENT and no open or find
      ever yields it again, even if the same port is reopened. */
  lemma ClosedForGood(states: seq<State>, steps: seq<Step>, i: nat, p: nat, q: nat, handle: int)
    requires Run(states, steps) && i < |states|
    requires p < q < |states[i].history| && states[i].history[q].Effect?
    requires ClosedBy(After(states[i].history[..p]), states[i].history[p]) == Some(handle)
    ensures var e := states[i].history[q];
      && (e.call == Close(handle) || e.call == Use(handle) ==> e.result == Error(-ENOENT))
      && e.result != Handle(handle)
  {
    EveryRun(states, steps, i);
    var h := states[i].history;
    LegalPrefix(h, p + 1);
    LegalPrefix(h, q + 1);
    assert h[..p + 1][..p] == h[..p];
    CloseKills(h[..p + 1], handle);
    var before := h[..q];
    assert h[..q + 1][..q] == before;
    assert before[..p + 1] == h[..p + 1];
    DeadStaysDead(before, p + 1, handle);
    assert forall n :: n in After(before).ports ==> After(before).ports[n] in After(before).ports.Values;
  }

  lemma CloseKills(h: seq<Event>, handle: int)
    requires Legal(h) && h != []
    requires ClosedBy(After(h[..|h| - 1]), h[|h| - 1]) == Some(handle)
    ensures Dead(After(h), handle)
  {
    HandlesIssuedOnce(h[..|h| - 1]);
  }
}
