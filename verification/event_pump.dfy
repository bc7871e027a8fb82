// The read-event stream of linux/platform_serial_plugin.cc: a GLib timer polls the port named by the
// latest successful `listen`. Everything runs on the main loop, so callbacks do not interleave.
module EventPump {
  import opened ByteLog
  import opened Optional

  type SourceId = nat

  datatype Event =
    | PortClosed(port: string, code: int)
    | IoError(port: string, code: int)
    | Data(port: string, bytes: seq<Byte>)

  datatype Reply = Accepted | InvalidArguments | PortNotFound

  /** What happens on the main loop, with what the rest of the system answers: `found` is the result
      of the handle lookup, `id` the id of a new timer, `error` and `data` the outcome of the read. */
  datatype Action =
    | Listen(port: Option<string>, found: int, id: SourceId)
    | Cancel
    | Tick(id: SourceId, found: int, error: int, data: seq<Byte>)
    | Dispose

  /** `active_stream_port`, `active_stream_source_id`, the timers GLib knows, and the events sent. */
  datatype Pump = Pump(port: Option<string>, source: SourceId, live: set<SourceId>, sent: seq<Event>)

  const idle := Pump(None, 0, {}, [])

  function Stopped(p: Pump): Pump {
    Pump(None, 0, if p.source != 0 then p.live - {p.source} else p.live, p.sent)
  }

  /** A new timer gets an unused positive id, and only a live timer ticks. */
  predicate Possible(p: Pump, a: Action) {
    match a
    case Listen(_, _, id) => id != 0 && id !in Stopped(p).live
    case Tick(id, _, _, _) => id in p.live
    case _ => true
  }

  function Ended(p: Pump, id: SourceId, event: Event): Pump {
    Pump(p.port, 0, p.live - {id}, p.sent + [event])
  }

  function Ticked(p: Pump, id: SourceId, found: int, error: int, data: seq<Byte>): Pump {
    if p.port == None then p.(live := p.live - {id})
    else if found != 0 then Ended(p, id, PortClosed(p.port.value, found))
    else if error != 0 then Ended(p, id, IoError(p.port.value, -error))
    else if data == [] then p
    else p.(sent := p.sent + [Data(p.port.value, data)])
  }

  function After(p: Pump, a: Action): Pump {
    match a
    case Listen(port, found, id) =>
      if port == None || found != 0 then p
      else Pump(port, id, Stopped(p).live + {id}, p.sent)
    case Cancel => Stopped(p)
    case Tick(id, found, error, data) => Ticked(p, id, found, error, data)
    case Dispose => Stopped(p)
  }

  /** The live timers are exactly the recorded one, or none when none is recorded; a recorded timer
      has a port to poll. */
  predicate Sound(p: Pump) {
    && p.live == (if p.source == 0 then {} else {p.source})
    && (p.source != 0 ==> p.port.Some?)
  }

  function Outcome(history: seq<Action>): Pump {
    if history == [] then idle else After(Outcome(history[..|history| - 1]), history[|history| - 1])
  }

  ghost predicate Happened(history: seq<Action>) {
    forall i :: 0 <= i < |history| ==> Possible(Outcome(history[..i]), history[i])
  }

  /** The port being streamed, told from the history alone: the one of the latest successful listen,
      unless it was cancelled or a poll of it has failed since. */
  function Streamed(history: seq<Action>): Option<string> {
    if history == [] then None else
    var before := Streamed(history[..|history| - 1]);
    match history[|history| - 1]
    case Listen(port, found, _) => if port.Some? && found == 0 then port else before
    case Tick(_, found, error, _) => if found != 0 || error != 0 then None else before
    case _ => None
  }

  /** What one poll of `port` should send. */
  function Report(port: string, found: int, error: int, data: seq<Byte>): seq<Event> {
    if found != 0 then [PortClosed(port, found)]
    else if error != 0 then [IoError(port, -error)]
    else if data != [] then [Data(port, data)]
    else []
  }

  /** The events told from the history alone: each poll reports on the port streamed at that time. */
  function Reported(history: seq<Action>): seq<Event> {
    if history == [] then [] else
    var front, last := history[..|history| - 1], history[|history| - 1];
    Reported(front) +
    if last.Tick? && Streamed(front).Some?
    then Report(Streamed(front).value, last.found, last.error, last.data) else []
  }

  lemma FrontHappened(history: seq<Action>)
    requires Happened(history) && history != []
    ensures var front := history[..|history| - 1];
      Happened(front) && Possible(Outcome(front), history[|history| - 1])
  {
    var front := history[..|history| - 1];
    forall i | 0 <= i < |front| ensures Possible(Outcome(front[..i]), front[i]) {
      assert front[..i] == history[..i];
    }
  }

  /** After any sequence of listens, cancels, ticks and disposals: the live timers are exactly the
      recorded one; there is one exactly while a port is streamed, and it polls that port; every event
      sent is the report of a poll of the port streamed at that time, in order. */
  lemma {:induction false} EveryRun(history: seq<Action>)
    requires Happened(history)
    ensures var p := Outcome(history);
      && Sound(p)
      && (p.source != 0 <==> Streamed(history).Some?)
      && (p.source != 0 ==> p.port == Streamed(history))
      && p.sent == Reported(history)
  {
    if history != [] {
      var front := history[..|history| - 1];
      FrontHappened(history);
      EveryRun(front);
    }
  }

  predicate FailedListen(a: Action) { a.Listen? && (a.port == None || a.found != 0) }

  /** A listen that fails leaves no trace: whatever happens afterwards, timers, port and events are as
      if it had not been tried. */
  lemma {:induction false} FailedListenLeavesNoTrace(before: seq<Action>, failed: Action, later: seq<Action>)
    requires FailedListen(failed)
    ensures Outcome(before + [failed] + later) == Outcome(before + later)
    ensures Streamed(before + [failed] + later) == Streamed(before + later)
  {
    var tried, plain := before + [failed] + later, before + later;
    if later == [] {
      assert tried[..|tried| - 1] == before && plain == before;
    } else {
      var n := |later| - 1;
      FailedListenLeavesNoTrace(before, failed, later[..n]);
      assert tried[..|tried| - 1] == before + [failed] + later[..n];
      assert plain[..|plain| - 1] == before + later[..n];
    }
  }

  /** The timers of the GLib main context. */
  class MainLoop {
    var live: set<SourceId>

    constructor ()
      ensures live == {}
    {
      live := {};
    }

    method TimeoutAdd(id: SourceId)
      requires id != 0 && id !in live
      modifies this
      ensures live == old(live) + {id}
    {
      live := live + {id};
    }

    /** `g_source_remove`: removing a timer that is gone is an error of the caller. */
    method SourceRemove(id: SourceId)
      requires id in live
      modifies this
      ensures live == old(live) - {id}
    {
      live := live - {id};
    }
  }

  class Plugin {
    const mainLoop: MainLoop
    var activeStreamPort: Option<string>
    var activeStreamSourceId: SourceId
    var sent: seq<Event>

    function View(): Pump
      reads this, mainLoop
    {
      Pump(activeStreamPort, activeStreamSourceId, mainLoop.live, sent)
    }

    constructor ()
      ensures View() == idle && fresh(mainLoop)
    {
      mainLoop := new MainLoop();
      activeStreamPort, activeStreamSourceId, sent := None, 0, [];
    }

    /** The timer callback; `false` asks GLib to destroy the timer. */
    method EmitReadEvent(found: int, error: int, data: seq<Byte>) returns (keep: bool)
      modifies this
      ensures forall id :: id in mainLoop.live ==>
                View().(live := if keep then mainLoop.live else mainLoop.live - {id})
                == Ticked(old(View()), id, found, error, data)
    {
      if activeStreamPort == None {
        return false;
      }
      if found != 0 {
        sent := sent + [PortClosed(activeStreamPort.value, found)];
        activeStreamSourceId := 0;
        return false;
      }
      if error != 0 {
        sent := sent + [IoError(activeStreamPort.value, -error)];
        activeStreamSourceId := 0;
        return false;
      }
      if |data| == 0 {
        return true;
      }
      sent := sent + [Data(activeStreamPort.value, data)];
      return true;
    }

    /** GLib dispatches a live timer and destroys it if the callback says so. */
    method Dispatch(id: SourceId, found: int, error: int, data: seq<Byte>)
      requires Sound(View()) && id in mainLoop.live
      modifies this, mainLoop
      ensures Sound(View()) && View() == After(old(View()), Tick(id, found, error, data))
    {
      var keep := EmitReadEvent(found, error, data);
      if !keep {
        mainLoop.SourceRemove(id);
      }
    }

    method StopTimer()
      requires activeStreamSourceId != 0 ==> activeStreamSourceId in mainLoop.live
      modifies this, mainLoop
      ensures mainLoop.live == Stopped(old(View())).live
      ensures activeStreamSourceId == 0 && activeStreamPort == old(activeStreamPort) && sent == old(sent)
    {
      if activeStreamSourceId != 0 {
        mainLoop.SourceRemove(activeStreamSourceId);
        activeStreamSourceId := 0;
      }
    }

    method OnListen(portName: Option<string>, found: int, id: SourceId) returns (reply: Reply)
      requires Sound(View()) && Possible(View(), Listen(portName, found, id))
      modifies this, mainLoop
      ensures Sound(View()) && View() == After(old(View()), Listen(portName, found, id))
      ensures reply == (if portName == None then InvalidArguments else if found != 0 then PortNotFound else Accepted)
    {
      if portName == None {
        return InvalidArguments;
      }
      if found != 0 {
        return PortNotFound;
      }
      activeStreamPort := None;
      StopTimer();
      activeStreamPort := portName;
      mainLoop.TimeoutAdd(id);
      activeStreamSourceId := id;
      return Accepted;
    }

    method OnCancel()
      requires Sound(View())
      modifies this, mainLoop
      ensures Sound(View()) && View() == After(old(View()), Cancel)
    {
      StopTimer();
      activeStreamPort := None;
    }

    method OnDispose()
      requires Sound(View())
      modifies this, mainLoop
      ensures Sound(View()) && View() == After(old(View()), Dispose)
    {
      StopTimer();
      activeStreamPort := None;
    }
  }
}
