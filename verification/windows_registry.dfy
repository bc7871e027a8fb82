// The port manager of windows/serial_port_manager.cpp over the ports of windows/serial_port.cpp,
// under any number of threads and any schedule. The manager has one mutex and every port another; a
// port is shared, so a call may still hold one that has left the map. `open` publishes under the
// manager's mutex after asking every published port of the same name whether it is open, which
// takes that port's mutex too. One step is a stretch of code that waits for no mutex inside it.
module WindowsRegistry {
  import opened Optional

  type Tid = nat
  type Id = int
  type Obj = nat
  type Win = nat

  const ERROR_FILE_NOT_FOUND := 2
  const ERROR_INVALID_HANDLE := 6
  const ERROR_INVALID_PARAMETER := 87
  const ERROR_ALREADY_EXISTS := 183

  /** `Io` is any of the delegating operations, `List` the is-open flags of one enumeration. */
  datatype Call =
    | Open(name: string)
    | Close(id: Id)
    | Io(id: Id)
    | List(names: seq<string>)

  /** `Ran` carries whatever the operation on the open port answered. */
  datatype Result =
    | Failed(code: int)
    | Opened(id: Id)
    | Closed
    | Ran(code: int)
    | Listed(openNames: set<string>)

  /** The scan of the map for each name in turn: the new port it is made for, how many names are done
      with, those found open, and the entries not yet compared with the next name. */
  datatype Scan = Scan(mine: Option<Obj>, at: nat, found: set<string>, left: set<Id>)

  datatype Stage =
    | Entered
    | Configuring(obj: Obj)
    | Waiting(obj: Obj)
    | Scanning(scan: Scan)
    | Conflicting(obj: Obj)
    | Closing(obj: Obj)
    | Reaching(obj: Obj)
    | Running(obj: Obj)
    | Returning(result: Result)

  datatype Thread = Thread(call: Call, stage: Stage)

  /** A `SerialPort`: its name, its device handle, and who holds its mutex. */
  datatype Port = Port(name: string, handle: Option<Win>, owner: Option<Tid>)

  /** `kernel` is the set of device handles open now. `objects` keeps every port ever made. */
  datatype State = State(
    ports: map<Id, Obj>, next: Id, manager: Option<Tid>,
    objects: seq<Port>, kernel: set<Win>, threads: map<Tid, Thread>)

  const initial := State(map[], 1, None, [], {}, map[])

  datatype Step =
    | Invoke(t: Tid, call: Call)
    | Refuse(t: Tid)
    | CreateFails(t: Tid, code: int)
    | Creates(t: Tid, win: Win)
    | ConfigFails(t: Tid, code: int)
    | Configured(t: Tid)
    | Acquire(t: Tid)
    | Inspect(t: Tid, id: Id)
    | NextName(t: Tid)
    | EndScan(t: Tid)
    | CloseOwn(t: Tid)
    | Erase(t: Tid)
    | Fetch(t: Tid)
    | CloseDetached(t: Tid)
    | Reach(t: Tid)
    | EndIo(t: Tid, code: int)
    | Return(t: Tid)

  /** The port a thread alone must still publish or close. */
  function Mine(stage: Stage): Option<Obj> {
    match stage
    case Configuring(o) => Some(o)
    case Waiting(o) => Some(o)
    case Scanning(scan) => scan.mine
    case Conflicting(o) => Some(o)
    case Closing(o) => Some(o)
    case _ => None
  }

  /** The port a thread found in the map and only uses. */
  function Shared(stage: Stage): Option<Obj> {
    match stage
    case Reaching(o) => Some(o)
    case Running(o) => Some(o)
    case _ => None
  }

  predicate In(o: Option<Obj>, objects: seq<Port>) { o.Some? ==> o.value < |objects| }

  /** Every reference is to a port that was made. */
  ghost predicate Refs(s: State) {
    && (forall id :: id in s.ports ==> s.ports[id] < |s.objects|)
    && (forall t :: t in s.threads ==>
          In(Mine(s.threads[t].stage), s.objects) && In(Shared(s.threads[t].stage), s.objects))
  }

  function NamesOf(call: Call): seq<string> {
    match call
    case Open(name) => [name]
    case List(names) => names
    case _ => []
  }

  predicate Unfinished(call: Call, scan: Scan) { scan.at < |NamesOf(call)| }

  /** The name the scan is at. */
  function Sought(call: Call, scan: Scan): string
    requires Unfinished(call, scan)
  {
    NamesOf(call)[scan.at]
  }

  /** Can the step happen? A step that locks needs the mutex free. Comparing an entry locks its port
      only if the name is the one looked for. `CreateFileW` answers a handle not in use. */
  ghost predicate Enabled(s: State, step: Step)
    requires Refs(s)
  {
    if step.Invoke? then step.t !in s.threads else
    step.t in s.threads &&
    var th := s.threads[step.t];
    match step
    case Refuse(_) => th.stage.Entered? && th.call.Open? && th.call.name == ""
    case CreateFails(_, _) => th.stage.Entered? && th.call.Open? && th.call.name != ""
    case Creates(_, win) => th.stage.Entered? && th.call.Open? && th.call.name != "" && win !in s.kernel
    case ConfigFails(_, _) => th.stage.Configuring?
    case Configured(_) => th.stage.Configuring?
    case Acquire(_) => (th.stage.Waiting? || (th.stage.Entered? && th.call.List?)) && s.manager == None
    case Inspect(_, id) =>
      && th.stage.Scanning? && Unfinished(th.call, th.stage.scan) && id in th.stage.scan.left && id in s.ports
      && (s.objects[s.ports[id]].name == Sought(th.call, th.stage.scan) ==> s.objects[s.ports[id]].owner == None)
    case NextName(_) =>
      && th.stage.Scanning? && Unfinished(th.call, th.stage.scan)
      && forall id :: id in s.ports ==> id !in th.stage.scan.left
    case EndScan(_) => th.stage.Scanning? && !Unfinished(th.call, th.stage.scan)
    case CloseOwn(_) => th.stage.Conflicting? && s.objects[th.stage.obj].owner == None
    case Erase(_) => th.stage.Entered? && th.call.Close? && s.manager == None
    case Fetch(_) => th.stage.Entered? && th.call.Io? && s.manager == None
    case CloseDetached(_) => th.stage.Closing? && s.objects[th.stage.obj].owner == None
    case Reach(_) => th.stage.Reaching? && s.objects[th.stage.obj].owner == None
    case EndIo(_, _) => th.stage.Running?
    case Return(_) => th.stage.Returning?
  }

  function Go(s: State, t: Tid, stage: Stage): State
    requires t in s.threads
  {
    s.(threads := s.threads[t := s.threads[t].(stage := stage)])
  }

  function Own(s: State, o: Obj, owner: Option<Tid>): State
    requires o < |s.objects|
  {
    s.(objects := s.objects[o := s.objects[o].(owner := owner)])
  }

  /** `CloseUnlocked`, and the port's mutex is free afterwards. */
  function Shut(s: State, o: Obj): State
    requires o < |s.objects|
  {
    var p := s.objects[o];
    s.(objects := s.objects[o := Port(p.name, None, None)],
       kernel := if p.handle.Some? then s.kernel - {p.handle.value} else s.kernel)
  }

  /** On to the next name. */
  function Advanced(s: State, scan: Scan, found: set<string>): Scan {
    Scan(scan.mine, scan.at + 1, found, s.ports.Keys)
  }

  /** One round of `any_of`: the first entry of that name that is open ends it. */
  function Inspected(s: State, call: Call, scan: Scan, id: Id): Scan
    requires Unfinished(call, scan) && id in s.ports && s.ports[id] < |s.objects|
  {
    var p := s.objects[s.ports[id]];
    if p.name == Sought(call, scan) && p.handle.Some?
    then Advanced(s, scan, scan.found + {p.name})
    else scan.(left := scan.left - {id})
  }

  function EndScanStep(s: State, t: Tid): State
    requires t in s.threads && s.threads[t].stage.Scanning?
  {
    var scan := s.threads[t].stage.scan;
    if scan.mine == None then Go(s, t, Returning(Listed(scan.found))).(manager := None)
    else if scan.found != {} then Go(s, t, Conflicting(scan.mine.value))
    else Go(s, t, Returning(Opened(s.next)))
         .(manager := None, ports := s.ports[s.next := scan.mine.value], next := s.next + 1)
  }

  /** The critical sections of `ClosePort` and `GetPort`. */
  function EraseStep(s: State, t: Tid): State
    requires t in s.threads && s.threads[t].call.Close?
  {
    var id := s.threads[t].call.id;
    if id !in s.ports then Go(s, t, Returning(Failed(ERROR_FILE_NOT_FOUND)))
    else Go(s, t, Closing(s.ports[id])).(ports := s.ports - {id})
  }

  function FetchStep(s: State, t: Tid): State
    requires t in s.threads && s.threads[t].call.Io?
  {
    var id := s.threads[t].call.id;
    if id !in s.ports then Go(s, t, Returning(Failed(ERROR_FILE_NOT_FOUND)))
    else Go(s, t, Reaching(s.ports[id]))
  }

  function Apply(s: State, step: Step): State
    requires Refs(s) && Enabled(s, step)
  {
    match step
    case Invoke(t, call) => s.(threads := s.threads[t := Thread(call, Entered)])
    case Refuse(t) => Go(s, t, Returning(Failed(ERROR_INVALID_PARAMETER)))
    case CreateFails(t, code) => Go(s, t, Returning(Failed(code)))
    case Creates(t, win) =>
      Go(s, t, Configuring(|s.objects|))
      .(objects := s.objects + [Port(s.threads[t].call.name, Some(win), Some(t))], kernel := s.kernel + {win})
    case ConfigFails(t, code) => Go(Shut(s, s.threads[t].stage.obj), t, Returning(Failed(code)))
    case Configured(t) => Go(Own(s, s.threads[t].stage.obj, None), t, Waiting(s.threads[t].stage.obj))
    case Acquire(t) =>
      Go(s, t, Scanning(Scan(Mine(s.threads[t].stage), 0, {}, s.ports.Keys)))
      .(manager := Some(t))
    case Inspect(t, id) => Go(s, t, Scanning(Inspected(s, s.threads[t].call, s.threads[t].stage.scan, id)))
    case NextName(t) =>
      var scan := s.threads[t].stage.scan;
      Go(s, t, Scanning(Advanced(s, scan, scan.found)))
    case EndScan(t) => EndScanStep(s, t)
    case CloseOwn(t) =>
      Go(Shut(s, s.threads[t].stage.obj), t, Returning(Failed(ERROR_ALREADY_EXISTS))).(manager := None)
    case Erase(t) => EraseStep(s, t)
    case Fetch(t) => FetchStep(s, t)
    case CloseDetached(t) =>
      var o := s.threads[t].stage.obj;
      if s.objects[o].handle == None then Go(s, t, Returning(Failed(ERROR_INVALID_HANDLE)))
      else Go(Shut(s, o), t, Returning(Closed))
    case Reach(t) =>
      var o := s.threads[t].stage.obj;
      if s.objects[o].handle == None then Go(s, t, Returning(Failed(ERROR_INVALID_HANDLE)))
      else Go(Own(s, o, Some(t)), t, Running(o))
    case EndIo(t, code) => Go(Own(s, s.threads[t].stage.obj, None), t, Returning(Ran(code)))
    case Return(t) => s.(threads := s.threads - {t})
  }

  /** Published ports were issued their ids, are open, and have different names. */
  ghost predicate PortsOk(ports: map<Id, Obj>, next: Id, objects: seq<Port>) {
    && 1 <= next
    && (forall id :: id in ports ==>
          1 <= id < next && ports[id] < |objects| && objects[ports[id]].handle.Some?)
    && (forall a, b :: a in ports && b in ports && a != b ==> objects[ports[a]].name != objects[ports[b]].name)
  }

  predicate HasHandle(objects: seq<Port>, o: Obj, win: Win) {
    o < |objects| && objects[o].handle == Some(win)
  }

  /** The open device handles are exactly those of the ports, each in one port. */
  ghost predicate HandlesOk(kernel: set<Win>, objects: seq<Port>) {
    && (forall win :: win in kernel <==> exists o: Obj :: HasHandle(objects, o, win))
    && (forall o: Obj, p: Obj, win :: HasHandle(objects, o, win) && HasHandle(objects, p, win) ==> o == p)
  }

  predicate At(s: State, t: Tid, stage: Stage) { t in s.threads && s.threads[t].stage == stage }

  predicate Owns(s: State, t: Tid, o: Obj) { t in s.threads && Mine(s.threads[t].stage) == Some(o) }

  predicate Uses(s: State, t: Tid, o: Obj) { t in s.threads && Shared(s.threads[t].stage) == Some(o) }

  ghost predicate Published(s: State, o: Obj) { exists id :: id in s.ports && s.ports[id] == o }

  /** An open port is published or has one thread that will publish or close it, never both; and
      until it is published no other thread knows it. */
  ghost predicate OwnersOk(s: State) {
    && (forall t, o: Obj :: Owns(s, t, o) ==> o < |s.objects| && s.objects[o].handle.Some? && !Published(s, o))
    && (forall t, u, o: Obj :: Owns(s, t, o) && Owns(s, u, o) ==> t == u)
    && (forall t, u, o: Obj :: Owns(s, t, o) && Uses(s, u, o) ==> s.threads[t].stage.Closing?)
    && (forall t, o: Obj :: Uses(s, t, o) ==> o < |s.objects|)
    && (forall o: Obj :: o < |s.objects| && s.objects[o].handle.Some? ==>
          Published(s, o) || exists t :: Owns(s, t, o))
  }

  /** `t` is in code that runs under the port's mutex. */
  predicate Inside(s: State, t: Tid, o: Obj) {
    t in s.threads && (s.threads[t].stage == Configuring(o) || s.threads[t].stage == Running(o))
  }

  /** Who holds which mutex follows from where threads stand. */
  ghost predicate LocksOk(s: State) {
    && (forall t :: t in s.threads ==>
          (s.manager == Some(t) <==> s.threads[t].stage.Scanning? || s.threads[t].stage.Conflicting?))
    && (s.manager.Some? ==> s.manager.value in s.threads)
    && (forall t: Tid, o: Obj :: Inside(s, t, o) ==>
          o < |s.objects| && s.objects[o].owner == Some(t) && s.objects[o].handle.Some?)
    && (forall o: Obj :: o < |s.objects| && s.objects[o].owner.Some? ==>
          Inside(s, s.objects[o].owner.value, o))
  }

  ghost predicate NameTaken(s: State, name: string)
    requires Refs(s)
  {
    exists id :: id in s.ports && s.objects[s.ports[id]].name == name
  }

  /** What a scan knows: the names it is done with are found exactly when a published port has them,
      and no entry it has passed has the name it is at. */
  ghost predicate ScanOk(s: State, call: Call, scan: Scan)
    requires Refs(s)
  {
    var names := NamesOf(call);
    && scan.at <= |names|
    && (forall n :: n in scan.found ==> n in names && NameTaken(s, n))
    && (forall j :: 0 <= j < scan.at && NameTaken(s, names[j]) ==> names[j] in scan.found)
    && (Unfinished(call, scan) ==> forall id :: id in s.ports && id !in scan.left ==>
          s.objects[s.ports[id]].name != Sought(call, scan))
    && scan.left <= s.ports.Keys
  }

  ghost predicate CallsOk(s: State)
    requires Refs(s)
  {
    && (forall t, o: Obj :: Owns(s, t, o) && !s.threads[t].stage.Closing? ==>
          s.threads[t].call.Open? && s.objects[o].name == s.threads[t].call.name)
    && (forall t :: t in s.threads && s.threads[t].stage.Scanning? ==>
          && ScanOk(s, s.threads[t].call, s.threads[t].stage.scan)
          && (s.threads[t].stage.scan.mine == None ==> s.threads[t].call.List?))
  }

  ghost predicate Inv(s: State) {
    && Refs(s) && PortsOk(s.ports, s.next, s.objects) && HandlesOk(s.kernel, s.objects)
    && OwnersOk(s) && LocksOk(s) && CallsOk(s)
  }

  lemma InitialHolds()
    ensures Inv(initial)
  {
  }

  /** A step changes only its own thread, and these parts of the rest. */
  lemma WhatChanges(s: State, step: Step)
    requires Refs(s) && Enabled(s, step)
    ensures var s' := Apply(s, step);
      && (step.EndScan? || step.Erase? || (s'.ports == s.ports && s'.next == s.next))
      && (step.Acquire? || step.EndScan? || step.CloseOwn? || s'.manager == s.manager)
      && (MovesPort(step) || (s'.objects == s.objects && s'.kernel == s.kernel))
      && forall u :: u != step.t ==>
           (u in s'.threads <==> u in s.threads) && (u in s.threads ==> s'.threads[u] == s.threads[u])
  {
  }

  /** Steps that lock, unlock, open or close a port. */
  predicate MovesPort(step: Step) {
    step.Creates? || step.ConfigFails? || step.Configured? || step.CloseOwn? || step.CloseDetached?
    || step.Reach? || step.EndIo?
  }

  /** Nothing about any port changes hands. */
  lemma SameLocks(s: State, s': State, t: Tid)
    requires LocksOk(s) && s'.manager == s.manager && |s'.objects| == |s.objects|
    requires forall o :: 0 <= o < |s.objects| ==>
               s'.objects[o].owner == s.objects[o].owner
               && (s.objects[o].owner.Some? ==> s'.objects[o].handle == s.objects[o].handle)
    requires forall u: Tid, o: Obj :: Inside(s', u, o) <==> Inside(s, u, o)
    requires forall u: Tid :: u in s'.threads ==>
               ((s'.threads[u].stage.Scanning? || s'.threads[u].stage.Conflicting?) <==> s.manager == Some(u))
    requires s.manager.Some? ==> s.manager.value in s'.threads
    ensures LocksOk(s')
  {
  }

  lemma CreateLocks(s: State, t: Tid, win: Win)
    requires Refs(s) && LocksOk(s) && Enabled(s, Creates(t, win))
    ensures LocksOk(Apply(s, Creates(t, win)))
  {
    var s' := Apply(s, Creates(t, win));
    assert forall u: Tid, o: Obj :: Inside(s', u, o) <==> if u == t then o == |s.objects| else Inside(s, u, o);
  }

  lemma ReleaseLocks(s: State, step: Step)
    requires Refs(s) && LocksOk(s) && Enabled(s, step)
    requires step.Configured? || step.EndIo?
    ensures LocksOk(Apply(s, step))
  {
    var s', t := Apply(s, step), step.t;
    assert forall u: Tid, o: Obj :: Inside(s', u, o) <==> u != t && Inside(s, u, o);
  }

  lemma ConfigFailsLocks(s: State, t: Tid, code: int)
    requires Refs(s) && LocksOk(s) && Enabled(s, ConfigFails(t, code))
    ensures LocksOk(Apply(s, ConfigFails(t, code)))
  {
    assert forall u: Tid, o: Obj :: Inside(Apply(s, ConfigFails(t, code)), u, o) <==> u != t && Inside(s, u, o);
  }

  lemma CloseLocks(s: State, step: Step)
    requires Refs(s) && LocksOk(s) && Enabled(s, step) && (step.CloseOwn? || step.CloseDetached?)
    ensures LocksOk(Apply(s, step))
  {
    assert forall u: Tid, o: Obj :: Inside(Apply(s, step), u, o) <==> Inside(s, u, o);
  }

  lemma QuietLocks(s: State, step: Step)
    requires Refs(s) && LocksOk(s) && Enabled(s, step)
    requires !MovesPort(step) && !step.Acquire? && !step.EndScan?
    ensures LocksOk(Apply(s, step))
  {
    WhatChanges(s, step);
    SameLocks(s, Apply(s, step), step.t);
  }

  lemma ReachLocks(s: State, t: Tid)
    requires Refs(s) && LocksOk(s) && Enabled(s, Reach(t))
    ensures LocksOk(Apply(s, Reach(t)))
  {
    var s', p := Apply(s, Reach(t)), s.threads[t].stage.obj;
    if s.objects[p].handle.Some? {
      assert forall u: Tid, o: Obj :: Inside(s', u, o) <==> if u == t then o == p else Inside(s, u, o);
    } else {
      SameLocks(s, s', t);
    }
  }

  /** The manager's mutex passes while no port's does. */
  lemma ManagerLocks(s: State, step: Step)
    requires Refs(s) && LocksOk(s) && Enabled(s, step) && (step.Acquire? || step.EndScan?)
    ensures LocksOk(Apply(s, step))
  {
    var s' := Apply(s, step);
    assert forall u: Tid, o: Obj :: Inside(s', u, o) <==> Inside(s, u, o);
  }

  lemma LocksKept(s: State, step: Step)
    requires Refs(s) && LocksOk(s) && Enabled(s, step)
    ensures LocksOk(Apply(s, step))
  {
    match step
    case Creates(t, win) => CreateLocks(s, t, win);
    case ConfigFails(t, code) => ConfigFailsLocks(s, t, code);
    case Configured(_) => ReleaseLocks(s, step);
    case EndIo(_, _) => ReleaseLocks(s, step);
    case CloseOwn(_) => CloseLocks(s, step);
    case CloseDetached(_) => CloseLocks(s, step);
    case Reach(t) => ReachLocks(s, t);
    case Acquire(_) => ManagerLocks(s, step);
    case EndScan(_) => ManagerLocks(s, step);
    case _ => QuietLocks(s, step);
  }

  /** Which port has which handle is unchanged. */
  predicate SameHandles(objects: seq<Port>, objects': seq<Port>) {
    |objects'| == |objects| && forall o :: 0 <= o < |objects| ==> objects'[o].handle == objects[o].handle
  }

  lemma SameHandlesOk(kernel: set<Win>, objects: seq<Port>, objects': seq<Port>)
    requires HandlesOk(kernel, objects) && SameHandles(objects, objects')
    ensures HandlesOk(kernel, objects')
  {
    assert forall o: Obj, win :: HasHandle(objects', o, win) <==> HasHandle(objects, o, win);
  }

  lemma ShutHandles(s: State, p: Obj)
    requires HandlesOk(s.kernel, s.objects) && p < |s.objects|
    ensures HandlesOk(Shut(s, p).kernel, Shut(s, p).objects)
  {
    var s' := Shut(s, p);
    assert forall o: Obj, win :: HasHandle(s'.objects, o, win) <==> o != p && HasHandle(s.objects, o, win);
    forall win ensures win in s'.kernel <==> exists o: Obj :: HasHandle(s'.objects, o, win) {
      if win in s'.kernel {
        var o: Obj :| HasHandle(s.objects, o, win);
        assert HasHandle(s'.objects, o, win);
      }
      if o: Obj :| HasHandle(s'.objects, o, win) {
        assert s.objects[p].handle == Some(win) ==> HasHandle(s.objects, p, win);
      }
    }
  }

  lemma CreateHandles(s: State, t: Tid, win: Win)
    requires Refs(s) && HandlesOk(s.kernel, s.objects) && Enabled(s, Creates(t, win))
    ensures HandlesOk(Apply(s, Creates(t, win)).kernel, Apply(s, Creates(t, win)).objects)
  {
    var s' := Apply(s, Creates(t, win));
    var n := |s.objects|;
    assert HasHandle(s'.objects, n, win);
    assert forall o: Obj, w :: HasHandle(s'.objects, o, w) <==> if o == n then w == win else HasHandle(s.objects, o, w);
    forall w ensures w in s'.kernel <==> exists o: Obj :: HasHandle(s'.objects, o, w) {
      if w in s.kernel {
        var o: Obj :| HasHandle(s.objects, o, w);
        assert HasHandle(s'.objects, o, w);
      }
    }
  }

  lemma HandlesKept(s: State, step: Step)
    requires Refs(s) && HandlesOk(s.kernel, s.objects) && Enabled(s, step)
    ensures HandlesOk(Apply(s, step).kernel, Apply(s, step).objects)
  {
    match step
    case Creates(t, win) => CreateHandles(s, t, win);
    case ConfigFails(t, _) => ShutHandles(s, s.threads[t].stage.obj);
    case CloseOwn(t) => ShutHandles(s, s.threads[t].stage.obj);
    case CloseDetached(t) => ShutHandles(s, s.threads[t].stage.obj);
    case Configured(_) => SameHandlesOk(s.kernel, s.objects, Apply(s, step).objects);
    case Reach(_) => SameHandlesOk(s.kernel, s.objects, Apply(s, step).objects);
    case EndIo(_, _) => SameHandlesOk(s.kernel, s.objects, Apply(s, step).objects);
    case _ => WhatChanges(s, step);
  }

  /** Ports stay and keep their names. */
  predicate KeepNames(objects: seq<Port>, objects': seq<Port>) {
    |objects| <= |objects'| && forall o :: 0 <= o < |objects| ==> objects'[o].name == objects[o].name
  }

  /** They also keep their handles but for `gone`. */
  predicate Grows(objects: seq<Port>, objects': seq<Port>, gone: Option<Obj>) {
    && KeepNames(objects, objects')
    && forall o :: 0 <= o < |objects| ==> gone == Some(o) || objects'[o].handle == objects[o].handle
  }

  /** The port a step shuts. */
  function Gone(s: State, step: Step): Option<Obj> {
    if (step.ConfigFails? || step.CloseOwn? || step.CloseDetached?) && step.t in s.threads
    then Mine(s.threads[step.t].stage) else None
  }

  lemma ObjectsGrow(s: State, step: Step)
    requires Refs(s) && Enabled(s, step)
    ensures Grows(s.objects, Apply(s, step).objects, Gone(s, step))
    ensures Gone(s, step).Some? ==> Owns(s, step.t, Gone(s, step).value)
  {
    if !MovesPort(step) {
      WhatChanges(s, step);
    }
  }

  lemma PublishKeepsPorts(s: State, t: Tid)
    requires Inv(s) && Enabled(s, EndScan(t))
    ensures PortsOk(Apply(s, EndScan(t)).ports, Apply(s, EndScan(t)).next, s.objects)
  {
    var th := s.threads[t];
    var scan := th.stage.scan;
    assert ScanOk(s, th.call, scan);
    if scan.mine.Some? {
      var o := scan.mine.value;
      assert Owns(s, t, o);
      assert NamesOf(th.call)[0] == s.objects[o].name;
      if scan.found == {} {
        assert !NameTaken(s, s.objects[o].name);
      }
    }
  }

  lemma PortsKept(s: State, step: Step)
    requires Inv(s) && Enabled(s, step)
    ensures PortsOk(Apply(s, step).ports, Apply(s, step).next, Apply(s, step).objects)
  {
    if step.EndScan? {
      PublishKeepsPorts(s, step.t);
    } else if step.Erase? {
      EraseKeepsPorts(s, step.t);
    } else {
      OthersKeepPorts(s, step);
    }
  }

  lemma OthersKeepPorts(s: State, step: Step)
    requires Refs(s) && PortsOk(s.ports, s.next, s.objects) && OwnersOk(s) && Enabled(s, step)
    requires !step.EndScan? && !step.Erase?
    ensures PortsOk(Apply(s, step).ports, Apply(s, step).next, Apply(s, step).objects)
  {
    ObjectsGrow(s, step);
    WhatChanges(s, step);
    SamePorts(s, Apply(s, step), Gone(s, step));
  }

  lemma EraseKeepsPorts(s: State, t: Tid)
    requires Inv(s) && Enabled(s, Erase(t))
    ensures PortsOk(Apply(s, Erase(t)).ports, Apply(s, Erase(t)).next, Apply(s, Erase(t)).objects)
  {
  }

  /** A port that is shut was not published. */
  lemma SamePorts(s: State, s': State, gone: Option<Obj>)
    requires PortsOk(s.ports, s.next, s.objects) && s'.ports == s.ports && s'.next == s.next
    requires Grows(s.objects, s'.objects, gone) && (gone.Some? ==> !Published(s, gone.value))
    ensures PortsOk(s'.ports, s'.next, s'.objects)
  {
  }

  /** No port passes to or from a thread, and no thread finds one. */
  lemma SameOwners(s: State, s': State)
    requires OwnersOk(s) && s'.ports == s.ports && SameHandles(s.objects, s'.objects)
    requires forall t, o: Obj :: Owns(s', t, o) ==> Owns(s, t, o)
    requires forall t, o: Obj :: Owns(s, t, o) ==>
               Owns(s', t, o) && s'.threads[t].stage.Closing? == s.threads[t].stage.Closing?
    requires forall t, o: Obj :: Uses(s', t, o) ==> Uses(s, t, o)
    ensures OwnersOk(s')
  {
    assert forall o: Obj :: Published(s', o) <==> Published(s, o);
    forall o: Obj | o < |s'.objects| && s'.objects[o].handle.Some? && !Published(s', o)
      ensures exists t :: Owns(s', t, o)
    {
      var t :| Owns(s, t, o);
      assert Owns(s', t, o);
    }
  }

  lemma QuietOwners(s: State, step: Step)
    requires Refs(s) && OwnersOk(s) && Enabled(s, step)
    requires !MovesPort(step) && !step.EndScan? && !step.Erase? && !step.Fetch?
    ensures OwnersOk(Apply(s, step))
  {
    WhatChanges(s, step);
    SameOwners(s, Apply(s, step));
  }

  lemma LockingOwners(s: State, step: Step)
    requires Refs(s) && OwnersOk(s) && Enabled(s, step) && (step.Configured? || step.Reach? || step.EndIo?)
    ensures OwnersOk(Apply(s, step))
  {
    WhatChanges(s, step);
    SameOwners(s, Apply(s, step));
  }

  lemma CreateOwners(s: State, t: Tid, win: Win)
    requires Inv(s) && Enabled(s, Creates(t, win))
    ensures OwnersOk(Apply(s, Creates(t, win)))
  {
    var s', n := Apply(s, Creates(t, win)), |s.objects|;
    assert forall u, o: Obj :: Owns(s', u, o) <==> if u == t then o == n else Owns(s, u, o);
    assert forall u, o: Obj :: Uses(s', u, o) <==> Uses(s, u, o);
    assert forall o: Obj :: Published(s', o) <==> Published(s, o);
    assert !Published(s, n);
    forall o: Obj | o < |s'.objects| && s'.objects[o].handle.Some? && !Published(s', o)
      ensures exists u :: Owns(s', u, o)
    {
      if o == n {
        assert Owns(s', t, o);
      } else {
        var u :| Owns(s, u, o);
        assert Owns(s', u, o);
      }
    }
  }

  /** A thread shuts the port it owns and lets go of it. */
  lemma ShutOwners(s: State, step: Step)
    requires Refs(s) && OwnersOk(s) && Enabled(s, step) && Gone(s, step).Some?
    ensures OwnersOk(Apply(s, step))
  {
    var s', t, p := Apply(s, step), step.t, Gone(s, step).value;
    WhatChanges(s, step);
    assert Owns(s, t, p);
    assert forall u, o: Obj :: Owns(s', u, o) <==> u != t && Owns(s, u, o);
    assert forall u, o: Obj :: Uses(s', u, o) <==> Uses(s, u, o);
    assert forall o: Obj :: Published(s', o) <==> Published(s, o);
    forall o: Obj | o < |s'.objects| && s'.objects[o].handle.Some? && !Published(s', o)
      ensures exists u :: Owns(s', u, o)
    {
      var u :| Owns(s, u, o);
      assert Owns(s', u, o);
    }
  }

  lemma FetchOwners(s: State, t: Tid)
    requires Inv(s) && Enabled(s, Fetch(t))
    ensures OwnersOk(Apply(s, Fetch(t)))
  {
    var s', id := Apply(s, Fetch(t)), s.threads[t].call.id;
    assert forall u, o: Obj :: Owns(s', u, o) <==> Owns(s, u, o);
    assert forall o: Obj :: Published(s', o) <==> Published(s, o);
    if id in s.ports {
      assert Published(s, s.ports[id]);
      assert forall u, o: Obj :: Uses(s', u, o) <==> if u == t then o == s.ports[id] else Uses(s, u, o);
    } else {
      assert forall u, o: Obj :: Uses(s', u, o) <==> Uses(s, u, o);
    }
    forall o: Obj | o < |s'.objects| && s'.objects[o].handle.Some? && !Published(s', o)
      ensures exists u :: Owns(s', u, o)
    {
      var u :| Owns(s, u, o);
      assert Owns(s', u, o);
    }
  }

  /** An open port passes from a thread into the map. */
  lemma PublishOwners(s: State, s': State, t: Tid, id: Id, p: Obj)
    requires OwnersOk(s) && Owns(s, t, p) && id !in s.ports && s'.ports == s.ports[id := p]
    requires s'.objects == s.objects
    requires forall u :: u != t ==> (u in s'.threads <==> u in s.threads)
    requires forall u :: u != t && u in s.threads ==> s'.threads[u] == s.threads[u]
    requires forall o: Obj :: !Owns(s', t, o) && !Uses(s', t, o)
    ensures OwnersOk(s')
  {
    assert forall u, o: Obj :: Owns(s', u, o) <==> u != t && Owns(s, u, o);
    assert forall u, o: Obj :: Uses(s', u, o) ==> Uses(s, u, o);
    MapAdds(s, s', id, p);
    forall o: Obj | o < |s'.objects| && s'.objects[o].handle.Some? && !Published(s', o)
      ensures exists u :: Owns(s', u, o)
    {
      var u :| Owns(s, u, o);
      assert Owns(s', u, o);
    }
  }

  lemma EndScanOwners(s: State, t: Tid)
    requires Inv(s) && Enabled(s, EndScan(t))
    ensures OwnersOk(Apply(s, EndScan(t)))
  {
    var s', scan := Apply(s, EndScan(t)), s.threads[t].stage.scan;
    if scan.mine.Some? && scan.found == {} {
      assert s.next !in s.ports;
      PublishOwners(s, s', t, s.next, scan.mine.value);
    } else {
      SameOwners(s, s');
    }
  }

  lemma MapAdds(s: State, s': State, id: Id, p: Obj)
    requires id !in s.ports && s'.ports == s.ports[id := p]
    ensures forall o: Obj :: Published(s', o) <==> o == p || Published(s, o)
  {
    assert s'.ports[id] == p;
    forall o: Obj | Published(s, o) ensures Published(s', o) {
      var k :| k in s.ports && s.ports[k] == o;
      assert s'.ports[k] == o;
    }
  }

  /** A published port passes to the thread that erased it. */
  lemma EraseOwners(s: State, t: Tid)
    requires Inv(s) && Enabled(s, Erase(t))
    ensures OwnersOk(Apply(s, Erase(t)))
  {
    var s', id := Apply(s, Erase(t)), s.threads[t].call.id;
    if id !in s.ports {
      SameOwners(s, s');
    } else {
      var p := s.ports[id];
      assert Published(s, p);
      assert forall u, o: Obj :: Owns(s', u, o) <==> if u == t then o == p else Owns(s, u, o);
      assert forall u, o: Obj :: Uses(s', u, o) <==> Uses(s, u, o);
      assert forall k :: k in s.ports && s.ports[k] == p ==> k == id;
      forall o: Obj ensures Published(s', o) <==> o != p && Published(s, o) {
        if o != p && Published(s, o) {
          var k :| k in s.ports && s.ports[k] == o;
          assert k in s'.ports && s'.ports[k] == o;
        }
      }
      forall o: Obj | o < |s'.objects| && s'.objects[o].handle.Some? && !Published(s', o)
        ensures exists u :: Owns(s', u, o)
      {
        if o == p {
          assert Owns(s', t, o);
        } else {
          var u :| Owns(s, u, o);
          assert Owns(s', u, o);
        }
      }
    }
  }

  lemma OwnersKept(s: State, step: Step)
    requires Inv(s) && Enabled(s, step)
    ensures OwnersOk(Apply(s, step))
  {
    if step.Creates? {
      CreateOwners(s, step.t, step.win);
    } else if Gone(s, step).Some? {
      ShutOwners(s, step);
    } else if step.EndScan? {
      EndScanOwners(s, step.t);
    } else if step.Erase? {
      EraseOwners(s, step.t);
    } else if step.Fetch? {
      FetchOwners(s, step.t);
    } else if MovesPort(step) {
      LockingOwners(s, step);
    } else {
      QuietOwners(s, step);
    }
  }

  lemma RefsFollow(s: State)
    requires PortsOk(s.ports, s.next, s.objects) && OwnersOk(s)
    ensures Refs(s)
  {
    forall t | t in s.threads
      ensures In(Mine(s.threads[t].stage), s.objects) && In(Shared(s.threads[t].stage), s.objects)
    {
      var stage := s.threads[t].stage;
      assert Mine(stage).Some? ==> Owns(s, t, Mine(stage).value);
      assert Shared(stage).Some? ==> Uses(s, t, Shared(stage).value);
    }
  }

  /** The map stands still for as long as a scan holds the manager's mutex. */
  lemma ScanFramed(s: State, s': State, call: Call, scan: Scan)
    requires Refs(s) && Refs(s') && s'.ports == s.ports && KeepNames(s.objects, s'.objects)
    requires ScanOk(s, call, scan)
    ensures ScanOk(s', call, scan)
  {
    forall n ensures NameTaken(s', n) <==> NameTaken(s, n) {
      TakenFramed(s, s', n);
    }
  }

  lemma TakenFramed(s: State, s': State, n: string)
    requires Refs(s) && Refs(s') && s'.ports == s.ports && KeepNames(s.objects, s'.objects)
    ensures NameTaken(s', n) <==> NameTaken(s, n)
  {
  }

  /** The name at hand is done with: `found` says whether it is taken. */
  lemma AdvanceScan(s: State, call: Call, scan: Scan, found: set<string>)
    requires Refs(s) && ScanOk(s, call, scan) && Unfinished(call, scan)
    requires found == if NameTaken(s, Sought(call, scan)) then scan.found + {Sought(call, scan)} else scan.found
    ensures ScanOk(s, call, Advanced(s, scan, found))
  {
  }

  lemma InspectScan(s: State, call: Call, scan: Scan, id: Id)
    requires Refs(s) && PortsOk(s.ports, s.next, s.objects) && ScanOk(s, call, scan)
    requires Unfinished(call, scan) && id in scan.left
    ensures ScanOk(s, call, Inspected(s, call, scan, id))
  {
    if s.objects[s.ports[id]].name == Sought(call, scan) {
      assert NameTaken(s, Sought(call, scan));
      AdvanceScan(s, call, scan, scan.found + {Sought(call, scan)});
    }
  }

  lemma NextScan(s: State, call: Call, scan: Scan)
    requires Refs(s) && ScanOk(s, call, scan) && Unfinished(call, scan)
    requires forall id :: id in s.ports ==> id !in scan.left
    ensures ScanOk(s, call, Advanced(s, scan, scan.found))
  {
    assert !NameTaken(s, Sought(call, scan));
    AdvanceScan(s, call, scan, scan.found);
  }

  /** The scan of the thread that moves. */
  lemma OwnScan(s: State, step: Step)
    requires Inv(s) && Enabled(s, step) && Refs(Apply(s, step)) && !step.Invoke?
    requires step.t in Apply(s, step).threads && Apply(s, step).threads[step.t].stage.Scanning?
    ensures var s', th' := Apply(s, step), Apply(s, step).threads[step.t];
      && ScanOk(s', th'.call, th'.stage.scan)
      && (th'.stage.scan.mine == None ==> th'.call.List?)
  {
    var s', t := Apply(s, step), step.t;
    var call, scan' := s.threads[t].call, s'.threads[t].stage.scan;
    if !step.Acquire? {
      var scan := s.threads[t].stage.scan;
      if step.Inspect? {
        InspectScan(s, call, scan, step.id);
      } else {
        NextScan(s, call, scan);
      }
      ScanFramed(s, s', call, scan');
    }
  }

  /** The scan of a thread that stands still. */
  lemma OtherScan(s: State, step: Step, u: Tid)
    requires Inv(s) && Enabled(s, step) && Refs(Apply(s, step))
    requires u != step.t && u in s.threads && s.threads[u].stage.Scanning?
    ensures ScanOk(Apply(s, step), s.threads[u].call, s.threads[u].stage.scan)
  {
    WhatChanges(s, step);
    ObjectsGrow(s, step);
    assert s.manager == Some(u);
    ScanFramed(s, Apply(s, step), s.threads[u].call, s.threads[u].stage.scan);
  }

  /** The call of the thread that moves and the port it owns unpublished. */
  lemma OwnCall(s: State, step: Step, o: Obj)
    requires Inv(s) && Enabled(s, step) && Owns(Apply(s, step), step.t, o)
    requires !Apply(s, step).threads[step.t].stage.Closing?
    ensures var th := Apply(s, step).threads[step.t];
      o < |Apply(s, step).objects| && th.call.Open? && Apply(s, step).objects[o].name == th.call.name
  {
    if !step.Creates? {
      OwnedBefore(s, step, o);
      ObjectsGrow(s, step);
    }
  }

  lemma OwnedBefore(s: State, step: Step, o: Obj)
    requires Refs(s) && Enabled(s, step) && Owns(Apply(s, step), step.t, o) && !step.Creates?
    requires !Apply(s, step).threads[step.t].stage.Closing?
    ensures Owns(s, step.t, o) && !s.threads[step.t].stage.Closing?
    ensures Apply(s, step).threads[step.t].call == s.threads[step.t].call
  {
  }

  lemma CallsKept(s: State, step: Step)
    requires Inv(s) && Enabled(s, step) && Refs(Apply(s, step))
    ensures CallsOk(Apply(s, step))
  {
    var s', t := Apply(s, step), step.t;
    WhatChanges(s, step);
    ObjectsGrow(s, step);
    forall u, o: Obj | Owns(s', u, o) && !s'.threads[u].stage.Closing?
      ensures s'.threads[u].call.Open? && s'.objects[o].name == s'.threads[u].call.name
    {
      if u == t {
        OwnCall(s, step, o);
      } else {
        assert Owns(s, u, o);
      }
    }
    forall u | u in s'.threads && s'.threads[u].stage.Scanning?
      ensures ScanOk(s', s'.threads[u].call, s'.threads[u].stage.scan)
              && (s'.threads[u].stage.scan.mine == None ==> s'.threads[u].call.List?)
    {
      if u == t {
        OwnScan(s, step);
      } else {
        OtherScan(s, step, u);
      }
    }
  }

  lemma InvKept(s: State, step: Step)
    requires Inv(s) && Enabled(s, step)
    ensures Inv(Apply(s, step))
  {
    PortsKept(s, step);
    HandlesKept(s, step);
    OwnersKept(s, step);
    LocksKept(s, step);
    RefsFollow(Apply(s, step));
    CallsKept(s, step);
  }

  /** A run from the empty manager: any threads, any calls, any device, any schedule. */
  ghost predicate Run(states: seq<State>, steps: seq<Step>) {
    && |states| == |steps| + 1 && states[0] == initial
    && forall i :: 0 <= i < |steps| ==>
         Refs(states[i]) && Enabled(states[i], steps[i]) && states[i + 1] == Apply(states[i], steps[i])
  }

  lemma {:induction false} EveryRun(states: seq<State>, steps: seq<Step>, i: nat)
    requires Run(states, steps) && i < |states|
    ensures Inv(states[i])
  {
    if i > 0 {
      EveryRun(states, steps, i - 1);
      InvKept(states[i - 1], steps[i - 1]);
    }
  }

  /** In every run published ports have open device handles and differ in name and in handle, and an
      id is published only if it was issued. */
  lemma PublishedAreOpenAndUnique(states: seq<State>, steps: seq<Step>, i: nat, a: Id, b: Id)
    requires Run(states, steps) && i < |states| && a in states[i].ports && b in states[i].ports
    ensures var s := states[i];
      && s.ports[a] < |s.objects| && s.ports[b] < |s.objects|
      && s.objects[s.ports[a]].handle.Some? && s.objects[s.ports[a]].handle.value in s.kernel
      && 1 <= a < s.next
      && (a != b ==> s.objects[s.ports[a]].name != s.objects[s.ports[b]].name)
      && (a != b ==> s.objects[s.ports[a]].handle != s.objects[s.ports[b]].handle)
  {
    EveryRun(states, steps, i);
    var s := states[i];
    assert HasHandle(s.objects, s.ports[a], s.objects[s.ports[a]].handle.value);
    assert HasHandle(s.objects, s.ports[b], s.objects[s.ports[b]].handle.value);
  }

  /** When no call is in flight, the open device handles are those of the published ports. */
  lemma QuietMeansNoLeak(states: seq<State>, steps: seq<Step>, i: nat, win: Win)
    requires Run(states, steps) && i < |states| && states[i].threads == map[]
    ensures win in states[i].kernel <==>
              exists id :: id in states[i].ports && HasHandle(states[i].objects, states[i].ports[id], win)
  {
    EveryRun(states, steps, i);
    var s := states[i];
    if win in s.kernel {
      var o: Obj :| HasHandle(s.objects, o, win);
      assert Published(s, o);
    }
  }

  lemma OtherStandsStill(s: State, step: Step, s': State, t: Tid)
    requires Refs(s) && Enabled(s, step) && s' == Apply(s, step) && t != step.t && t in s.threads
    ensures t in s'.threads && s'.threads[t] == s.threads[t]
  {
    WhatChanges(s, step);
  }

  /** A thread that does not move stays where it is. */
  lemma {:induction false} StandsStill(states: seq<State>, steps: seq<Step>, i: nat, j: nat, t: Tid)
    requires Run(states, steps) && i <= j < |states| && t in states[i].threads
    requires forall k :: i <= k < j ==> steps[k].t != t
    ensures t in states[j].threads && states[j].threads[t] == states[i].threads[t]
  {
    if i < j {
      StandsStill(states, steps, i, j - 1, t);
      OtherStandsStill(states[j - 1], steps[j - 1], states[j], t);
    }
  }

  /** Closing a published id always succeeds, whatever happens between its two steps; the port is
      then closed and nobody is inside it. */
  lemma ClosingSucceeds(states: seq<State>, steps: seq<Step>, i: nat, j: nat, t: Tid)
    requires Run(states, steps) && i < j < |steps| && steps[i] == Erase(t) && steps[j].t == t
    requires states[i].threads[t].call.id in states[i].ports
    requires forall k :: i < k < j ==> steps[k].t != t
    ensures var o := states[i].ports[states[i].threads[t].call.id];
      && steps[j] == CloseDetached(t) && states[j + 1].threads[t].stage == Returning(Closed)
      && IsClosed(states[j + 1], o)
      && forall u :: !Inside(states[j], u, o) && !Inside(states[j + 1], u, o)
  {
    var o := states[i].ports[states[i].threads[t].call.id];
    StandsStill(states, steps, i + 1, j, t);
    EveryRun(states, steps, j);
    EveryRun(states, steps, j + 1);
    assert Owns(states[j], t, o);
  }

  predicate IsClosed(s: State, o: Obj) { o < |s.objects| && s.objects[o].handle == None }

  lemma NeverReopened(s: State, step: Step, o: Obj)
    requires Refs(s) && Enabled(s, step) && IsClosed(s, o)
    ensures IsClosed(Apply(s, step), o)
  {
    if !MovesPort(step) {
      WhatChanges(s, step);
    }
  }

  lemma {:induction false} ClosedStays(states: seq<State>, steps: seq<Step>, i: nat, j: nat, o: Obj)
    requires Run(states, steps) && i <= j < |states| && IsClosed(states[i], o)
    ensures IsClosed(states[j], o)
  {
    if i < j {
      ClosedStays(states, steps, i, j - 1, o);
      NeverReopened(states[j - 1], steps[j - 1], o);
    }
  }

  /** Once a port is closed, a call that still holds it is never inside it, and fails in `EnsureOpen`. */
  lemma LateCallsFail(states: seq<State>, steps: seq<Step>, i: nat, j: nat, o: Obj, u: Tid)
    requires Run(states, steps) && i <= j < |steps| && IsClosed(states[i], o)
    ensures !Inside(states[j], u, o)
    ensures u in states[j].threads && states[j].threads[u].stage == Reaching(o) && steps[j].t == u ==>
              states[j + 1].threads[u].stage == Returning(Failed(ERROR_INVALID_HANDLE))
  {
    ClosedStays(states, steps, i, j, o);
    EveryRun(states, steps, j);
  }

  /** No operation runs on a closed device handle, and each has its port to itself. */
  lemma IoIsOnOpenHandle(states: seq<State>, steps: seq<Step>, i: nat, t: Tid, u: Tid, o: Obj)
    requires Run(states, steps) && i < |states| && At(states[i], t, Running(o))
    ensures o < |states[i].objects| && states[i].objects[o].handle.Some?
    ensures states[i].objects[o].handle.value in states[i].kernel
    ensures Inside(states[i], u, o) ==> u == t
  {
    EveryRun(states, steps, i);
    assert Inside(states[i], t, o);
    assert HasHandle(states[i].objects, o, states[i].objects[o].handle.value);
  }

  predicate Retired(s: State, id: Id) { id < s.next && id !in s.ports }

  lemma StaysRetired(s: State, step: Step, id: Id)
    requires Refs(s) && Enabled(s, step) && Retired(s, id)
    ensures Retired(Apply(s, step), id)
  {
    if !step.EndScan? && !step.Erase? {
      WhatChanges(s, step);
    }
  }

  /** An id that was issued and is no longer published is never published again. */
  lemma {:induction false} IdsNeverReused(states: seq<State>, steps: seq<Step>, i: nat, j: nat, id: Id)
    requires Run(states, steps) && i <= j < |states| && Retired(states[i], id)
    ensures Retired(states[j], id)
  {
    if i < j {
      IdsNeverReused(states, steps, i, j - 1, id);
      StaysRetired(states[j - 1], steps[j - 1], id);
    }
  }

  /** The end of a scan decides an open by whether a published port has its name at that moment. */
  lemma OpenIsDecidedByTheMap(states: seq<State>, steps: seq<Step>, i: nat, t: Tid)
    requires Run(states, steps) && i < |steps| && steps[i] == EndScan(t) && states[i].threads[t].call.Open?
    ensures var s, s' := states[i], states[i + 1];
      var o := s.threads[t].stage.scan.mine;
      && o.Some?
      && if NameTaken(s, s.threads[t].call.name) then s'.ports == s.ports && At(s', t, Conflicting(o.value))
         else s'.ports == s.ports[s.next := o.value] && At(s', t, Returning(Opened(s.next)))
  {
    EveryRun(states, steps, i);
    var s := states[i];
    var call, scan := s.threads[t].call, s.threads[t].stage.scan;
    assert ScanOk(s, call, scan);
    assert NamesOf(call)[0] == call.name;
    if scan.found != {} {
      var n :| n in scan.found;
    }
  }

  /** An enumeration reports as open exactly the names that are published when its scan ends. */
  lemma ListIsExact(states: seq<State>, steps: seq<Step>, i: nat, t: Tid)
    requires Run(states, steps) && i < |steps| && steps[i] == EndScan(t) && states[i].threads[t].call.List?
    ensures var names, stage' := states[i].threads[t].call.names, states[i + 1].threads[t].stage;
      && stage'.Returning? && stage'.result.Listed?
      && forall n :: n in stage'.result.openNames <==> n in names && NameTaken(states[i], n)
  {
    EveryRun(states, steps, i);
    var s := states[i];
    var scan := s.threads[t].stage.scan;
    assert scan.mine.Some? ==> Owns(s, t, scan.mine.value);
    assert ScanOk(s, s.threads[t].call, scan);
  }

  ghost predicate CanMove(s: State, t: Tid)
    requires Refs(s)
  {
    exists step: Step :: step.t == t && Enabled(s, step)
  }

  /** The entry a scan is about to ask for its state: an unseen one with the name looked for. */
  ghost predicate Asks(s: State, t: Tid, o: Obj)
    requires Refs(s)
  {
    && t in s.threads && s.threads[t].stage.Scanning?
    && var call, scan := s.threads[t].call, s.threads[t].stage.scan;
    && Unfinished(call, scan)
    && exists id :: id in scan.left && id in s.ports && s.ports[id] == o && s.objects[o].name == Sought(call, scan)
  }

  /** `t` is blocked on a mutex that `u` holds: the manager's, or that of a port. */
  ghost predicate WaitsFor(s: State, t: Tid, u: Tid)
    requires Refs(s)
  {
    && t in s.threads
    && var stage := s.threads[t].stage;
    || (s.manager == Some(u) && (stage.Entered? || stage.Waiting?))
    || (exists o: Obj :: o < |s.objects| && s.objects[o].owner == Some(u)
                        && (Asks(s, t, o) || stage == Closing(o) || stage == Reaching(o)))
  }

  /** Whoever is inside a port waits for nothing. */
  lemma InsideCanMove(s: State, t: Tid, o: Obj)
    requires Refs(s) && Inside(s, t, o)
    ensures CanMove(s, t)
  {
    if s.threads[t].stage.Configuring? {
      assert Enabled(s, Configured(t));
    } else {
      assert Enabled(s, EndIo(t, 0));
    }
  }

  lemma InsideKnows(s: State, t: Tid, o: Obj)
    requires Inside(s, t, o)
    ensures Owns(s, t, o) || Uses(s, t, o)
  {
  }

  /** The port a lost open still owns is known to nobody else, so its mutex is free. */
  lemma OwnPortIsFree(s: State, t: Tid, o: Obj)
    requires Inv(s) && At(s, t, Conflicting(o))
    ensures s.objects[o].owner == None
  {
    assert Owns(s, t, o);
    if s.objects[o].owner.Some? {
      InsideKnows(s, s.objects[o].owner.value, o);
    }
  }

  /** Whoever holds the manager's mutex waits at most for a thread inside a port. */
  lemma ManagerHolderCanMove(s: State, t: Tid)
    requires Inv(s) && s.manager == Some(t)
    ensures CanMove(s, t) || exists u :: WaitsFor(s, t, u) && CanMove(s, u)
  {
    var th := s.threads[t];
    if th.stage.Conflicting? {
      OwnPortIsFree(s, t, th.stage.obj);
      assert Enabled(s, CloseOwn(t));
    } else {
      ScannerCanMove(s, t);
    }
  }

  lemma ScannerCanMove(s: State, t: Tid)
    requires Inv(s) && t in s.threads && s.threads[t].stage.Scanning?
    ensures CanMove(s, t) || exists u :: WaitsFor(s, t, u) && CanMove(s, u)
  {
    var call, scan := s.threads[t].call, s.threads[t].stage.scan;
    assert ScanOk(s, call, scan);
    if !Unfinished(call, scan) {
      assert Enabled(s, EndScan(t));
    } else if id :| id in s.ports && id in scan.left {
      var o := s.ports[id];
      if s.objects[o].name == Sought(call, scan) && s.objects[o].owner.Some? {
        var u := s.objects[o].owner.value;
        assert Asks(s, t, o);
        assert WaitsFor(s, t, u);
        InsideCanMove(s, u, o);
      } else {
        assert Enabled(s, Inspect(t, id));
      }
    } else {
      assert Enabled(s, NextName(t));
    }
  }

  /** No deadlock: in every reachable state every thread can move, or waits for one that can, or waits
      for the holder of the manager's mutex, who waits for one inside a port, who can. */
  lemma NoDeadlock(states: seq<State>, steps: seq<Step>, i: nat, t: Tid)
    requires Run(states, steps) && i < |states| && t in states[i].threads
    ensures Refs(states[i])
    ensures var s := states[i];
      || CanMove(s, t)
      || exists u :: WaitsFor(s, t, u) && (CanMove(s, u) || exists v :: WaitsFor(s, u, v) && CanMove(s, v))
  {
    EveryRun(states, steps, i);
    var s := states[i];
    var th := s.threads[t];
    match th.stage
    case Scanning(_) => ScannerCanMove(s, t);
    case Conflicting(_) => ManagerHolderCanMove(s, t);
    case Configuring(o) => InsideCanMove(s, t, o);
    case Running(o) => InsideCanMove(s, t, o);
    case Returning(_) => assert Enabled(s, Return(t));
    case Closing(o) => PortWaiterCanMove(s, t, o);
    case Reaching(o) => PortWaiterCanMove(s, t, o);
    case _ => ManagerWaiterCanMove(s, t);
  }

  /** Mutexes nest only manager then port: a thread inside a port neither holds the manager's mutex nor
      waits for any. */
  lemma LocksNestOneWay(states: seq<State>, steps: seq<Step>, i: nat, t: Tid, o: Obj, u: Tid)
    requires Run(states, steps) && i < |states| && Inside(states[i], t, o)
    ensures Refs(states[i]) && states[i].manager != Some(t) && !WaitsFor(states[i], t, u)
  {
    EveryRun(states, steps, i);
  }

  lemma PortWaiterCanMove(s: State, t: Tid, o: Obj)
    requires Inv(s) && (At(s, t, Closing(o)) || At(s, t, Reaching(o)))
    ensures CanMove(s, t) || exists u :: WaitsFor(s, t, u) && CanMove(s, u)
  {
    if s.objects[o].owner.Some? {
      var u := s.objects[o].owner.value;
      assert WaitsFor(s, t, u);
      InsideCanMove(s, u, o);
    } else if s.threads[t].stage.Closing? {
      assert Enabled(s, CloseDetached(t));
    } else {
      assert Enabled(s, Reach(t));
    }
  }

  lemma ManagerWaiterCanMove(s: State, t: Tid)
    requires Inv(s) && t in s.threads && (s.threads[t].stage.Entered? || s.threads[t].stage.Waiting?)
    ensures || CanMove(s, t)
            || exists u :: WaitsFor(s, t, u) && (CanMove(s, u) || exists v :: WaitsFor(s, u, v) && CanMove(s, v))
  {
    var th := s.threads[t];
    if s.manager.Some? {
      assert WaitsFor(s, t, s.manager.value);
      ManagerHolderCanMove(s, s.manager.value);
    } else if th.stage.Waiting? || th.call.List? {
      assert Enabled(s, Acquire(t));
    } else if th.call.Close? {
      assert Enabled(s, Erase(t));
    } else if th.call.Io? {
      assert Enabled(s, Fetch(t));
    } else if th.call.name == "" {
      assert Enabled(s, Refuse(t));
    } else {
      assert Enabled(s, CreateFails(t, ERROR_FILE_NOT_FOUND));
    }
  }
}
