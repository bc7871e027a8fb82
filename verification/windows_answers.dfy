// Why each call of the Windows port manager answers what it answers, and that every call ends.
module WindowsAnswers {
  import opened Optional
  import opened WindowsRegistry

  /** The step from `s` to `s'` is a reason for its thread to answer `r`. Codes are the numbers of
      winerror.h: file not found 2, invalid handle 6, invalid parameter 87, already exists 183. */
  ghost predicate Explains(s: State, step: Step, s': State, r: Result)
    requires Refs(s) && step.t in s.threads
  {
    var call, stage := s.threads[step.t].call, s.threads[step.t].stage;
    match r
    case Opened(id) =>
      && step.EndScan? && call.Open? && !NameTaken(s, call.name)
      && id == s.next && id !in s.ports && id in s'.ports && s'.ports == s.ports[id := s'.ports[id]]
      && IsOpenPort(s', s'.ports[id], call.name)
    case Listed(names) =>
      step.EndScan? && call.List? && forall n :: n in names <==> n in call.names && NameTaken(s, n)
    case Closed =>
      step.CloseDetached? && call.Close? && stage.Closing? && !IsClosed(s, stage.obj) && IsClosed(s', stage.obj)
    case Ran(code) => step.EndIo? && call.Io? && step.code == code && stage.Running? && !IsClosed(s, stage.obj)
    case Failed(code) =>
      || (step.Refuse? && call == Open("") && code == 87)
      || ((step.CreateFails? || step.ConfigFails?) && call.Open? && step.code == code)
      || (step.CloseOwn? && call.Open? && NameTaken(s, call.name) && code == 183)
      || (step.Erase? && call.Close? && call.id !in s.ports && code == 2)
      || (step.Fetch? && call.Io? && call.id !in s.ports && code == 2)
      || (step.Reach? && call.Io? && stage.Reaching? && IsClosed(s, stage.obj) && code == 6)
  }

  predicate IsOpenPort(s: State, o: Obj, name: string) {
    o < |s.objects| && s.objects[o].handle.Some? && s.objects[o].name == name
  }

  /** Stages belong to calls, and the name an open lost to stays taken while it closes its own port. */
  ghost predicate ThreadPlaced(s: State, th: Thread)
    requires Refs(s)
  {
    match th.stage
    case Closing(_) => th.call.Close?
    case Reaching(_) => th.call.Io?
    case Running(_) => th.call.Io?
    case Conflicting(_) => th.call.Open? && NameTaken(s, th.call.name)
    case _ => true
  }

  ghost predicate Placed(s: State)
    requires Refs(s)
  {
    forall t :: t in s.threads ==> ThreadPlaced(s, s.threads[t])
  }

  lemma OtherPlaced(s: State, step: Step, u: Tid)
    requires Inv(s) && Placed(s) && Enabled(s, step) && Refs(Apply(s, step)) && u != step.t && u in s.threads
    ensures ThreadPlaced(Apply(s, step), s.threads[u])
  {
    assert ThreadPlaced(s, s.threads[u]);
    if s.threads[u].stage.Conflicting? {
      WhatChanges(s, step);
      ObjectsGrow(s, step);
      assert s.manager == Some(u);
      TakenFramed(s, Apply(s, step), s.threads[u].call.name);
    }
  }

  lemma EndScanPlaced(s: State, t: Tid)
    requires Inv(s) && Enabled(s, EndScan(t)) && Refs(EndScanStep(s, t))
    ensures ThreadPlaced(EndScanStep(s, t), EndScanStep(s, t).threads[t])
  {
    var scan := s.threads[t].stage.scan;
    if scan.mine.Some? && scan.found != {} {
      assert Owns(s, t, scan.mine.value);
      assert ScanOk(s, s.threads[t].call, scan);
      var n :| n in scan.found;
      assert n == s.threads[t].call.name;
      TakenFramed(s, EndScanStep(s, t), n);
    }
  }

  lemma OwnPlaced(s: State, step: Step)
    requires Inv(s) && Placed(s) && Enabled(s, step) && Refs(Apply(s, step)) && step.t in Apply(s, step).threads
    ensures ThreadPlaced(Apply(s, step), Apply(s, step).threads[step.t])
  {
    if step.EndScan? {
      EndScanPlaced(s, step.t);
    } else if step.Reach? || step.CloseDetached? {
      assert ThreadPlaced(s, s.threads[step.t]);
    }
  }

  lemma PlacedKept(s: State, step: Step)
    requires Inv(s) && Placed(s) && Enabled(s, step) && Refs(Apply(s, step))
    ensures Placed(Apply(s, step))
  {
    forall u | u in Apply(s, step).threads
      ensures ThreadPlaced(Apply(s, step), Apply(s, step).threads[u])
    {
      if u == step.t {
        OwnPlaced(s, step);
      } else {
        WhatChanges(s, step);
        OtherPlaced(s, step, u);
      }
    }
  }

  /** A step that makes its thread answer explains the answer. */
  lemma AnswerExplained(s: State, step: Step, r: Result)
    requires Inv(s) && Placed(s) && Enabled(s, step) && step.t in s.threads && !s.threads[step.t].stage.Returning?
    requires Inv(Apply(s, step)) && At(Apply(s, step), step.t, Returning(r))
    ensures Explains(s, step, Apply(s, step), r)
  {
    assert ThreadPlaced(s, s.threads[step.t]);
    if step.EndScan? {
      ScanAnswerExplained(s, step.t, r);
    } else if step.CloseDetached? {
      assert Owns(s, step.t, s.threads[step.t].stage.obj);
    } else if step.EndIo? {
      assert Inside(s, step.t, s.threads[step.t].stage.obj);
    } else if step.ConfigFails? {
      assert Owns(s, step.t, s.threads[step.t].stage.obj);
    }
  }

  lemma ScanAnswerExplained(s: State, t: Tid, r: Result)
    requires Inv(s) && Enabled(s, EndScan(t)) && At(Apply(s, EndScan(t)), t, Returning(r))
    ensures Explains(s, EndScan(t), Apply(s, EndScan(t)), r)
  {
    var call, scan := s.threads[t].call, s.threads[t].stage.scan;
    assert ScanOk(s, call, scan);
    if scan.mine.Some? {
      assert Owns(s, t, scan.mine.value);
      assert NamesOf(call)[0] == call.name;
    }
  }

  lemma {:induction false} PlacedInEveryRun(states: seq<State>, steps: seq<Step>, i: nat)
    requires Run(states, steps) && i < |states|
    ensures Inv(states[i]) && Placed(states[i])
  {
    if i > 0 {
      PlacedInEveryRun(states, steps, i - 1);
      InvKept(states[i - 1], steps[i - 1]);
      PlacedKept(states[i - 1], steps[i - 1]);
    }
  }

  /** The step that brought a thread where it stands. */
  lemma {:induction false} LastMove(states: seq<State>, steps: seq<Step>, i: nat, t: Tid) returns (k: nat)
    requires Run(states, steps) && i < |states| && t in states[i].threads
    ensures k < i && steps[k].t == t && t in states[k + 1].threads
    ensures states[k + 1].threads[t] == states[i].threads[t]
  {
    k := i - 1;
    if steps[k].t != t {
      StoodThere(states[k], steps[k], states[i], t);
      k := LastMove(states, steps, k, t);
    }
  }

  /** In every run every answer has its reason: an open succeeds only by publishing an open port of its
      name under a fresh id when no published port has the name, and ERROR_ALREADY_EXISTS is answered only
      when one has; an enumeration lists what is published; a close succeeds only by closing its port; an
      unknown id and a port closed meanwhile have their own codes; every other code is the device's. */
  lemma AnswersHaveReasons(states: seq<State>, steps: seq<Step>, i: nat, t: Tid, r: Result)
    returns (k: nat)
    requires Run(states, steps) && i < |states| && At(states[i], t, Returning(r))
    ensures k < i && steps[k].t == t && t in states[k].threads
    ensures states[k].threads[t].call == states[i].threads[t].call
    ensures Explains(states[k], steps[k], states[k + 1], r)
  {
    k := LastMove(states, steps, i, t);
    PlacedInEveryRun(states, steps, k);
    OwnStepIsReason(states[k], steps[k], states[k + 1], r);
  }

  lemma OwnStepIsReason(s: State, step: Step, s': State, r: Result)
    requires Inv(s) && Placed(s) && Enabled(s, step) && s' == Apply(s, step) && At(s', step.t, Returning(r))
    ensures step.t in s.threads && s.threads[step.t].call == s'.threads[step.t].call
    ensures Explains(s, step, s', r)
  {
    CallKept(s, step);
    InvKept(s, step);
    AnswerExplained(s, step, r);
  }

  lemma StoodThere(s: State, step: Step, s': State, t: Tid)
    requires Refs(s) && Enabled(s, step) && s' == Apply(s, step) && step.t != t && t in s'.threads
    ensures t in s.threads && s.threads[t] == s'.threads[t]
  {
    WhatChanges(s, step);
  }

  lemma CallKept(s: State, step: Step)
    requires Refs(s) && Enabled(s, step) && step.t in Apply(s, step).threads
    requires Apply(s, step).threads[step.t].stage.Returning?
    ensures step.t in s.threads && Apply(s, step).threads[step.t].call == s.threads[step.t].call
    ensures !s.threads[step.t].stage.Returning?
  {
  }

  lemma LostOpenStep(s: State, step: Step, s': State)
    requires Refs(s) && Enabled(s, step) && s' == Apply(s, step)
    requires step.t in s.threads && s.threads[step.t].stage.Conflicting?
    ensures step.CloseOwn? && At(s', step.t, Returning(Failed(183))) && s'.ports == s.ports
  {
  }

  /** An open that meets its name at the end of its scan fails with ERROR_ALREADY_EXISTS in its next step,
      whatever others do in between. */
  lemma LostOpenFails(states: seq<State>, steps: seq<Step>, i: nat, j: nat, t: Tid)
    requires Run(states, steps) && i < j < |steps| && steps[i] == EndScan(t) && states[i].threads[t].call.Open?
    requires NameTaken(states[i], states[i].threads[t].call.name)
    requires steps[j].t == t && forall k :: i < k < j ==> steps[k].t != t
    ensures steps[j] == CloseOwn(t) && At(states[j + 1], t, Returning(Failed(183)))
  {
    OpenIsDecidedByTheMap(states, steps, i, t);
    StandsStill(states, steps, i + 1, j, t);
    LostOpenStep(states[j], steps[j], states[j + 1]);
  }

  lemma UseComesFrom(s: State, step: Step, s': State, o: Obj)
    requires Refs(s) && Enabled(s, step) && s' == Apply(s, step)
    requires At(s', step.t, Running(o)) || At(s', step.t, Reaching(o))
    ensures step.t in s.threads && s'.threads[step.t].call == s.threads[step.t].call
    ensures if s'.threads[step.t].stage.Running? then At(s, step.t, Reaching(o))
            else step.Fetch? && s.threads[step.t].call.Io? && s.threads[step.t].call.id in s.ports
                 && s.ports[s.threads[step.t].call.id] == o
  {
  }

  /** An operation runs on the port that was published under its id when it looked the id up. */
  lemma IoReachesItsPort(states: seq<State>, steps: seq<Step>, i: nat, t: Tid, o: Obj) returns (k: nat)
    requires Run(states, steps) && i < |states| && (At(states[i], t, Running(o)) || At(states[i], t, Reaching(o)))
    ensures k < i && steps[k] == Fetch(t) && states[i].threads[t].call.Io?
    ensures states[i].threads[t].call.id in states[k].ports && states[k].ports[states[i].threads[t].call.id] == o
  {
    k := LastMove(states, steps, i, t);
    UseComesFrom(states[k], steps[k], states[k + 1], o);
    if states[i].threads[t].stage.Running? {
      var reached := LastMove(states, steps, k, t);
      UseComesFrom(states[reached], steps[reached], states[reached + 1], o);
      k := reached;
    }
  }

  function Rank(stage: Stage): nat {
    match stage
    case Entered => 7
    case Configuring(_) => 6
    case Waiting(_) => 5
    case Scanning(_) => 4
    case Conflicting(_) => 3
    case Closing(_) => 3
    case Reaching(_) => 3
    case Running(_) => 2
    case Returning(_) => 1
  }

  /** `b` is nearer the end than `a`: a later stage, or the same scan with fewer names or entries left. */
  predicate Nearer(call: Call, a: Stage, b: Stage) {
    || Rank(b) < Rank(a)
    || (a.Scanning? && b.Scanning? && a.scan.at < b.scan.at <= |NamesOf(call)|)
    || (a.Scanning? && b.Scanning? && a.scan.at == b.scan.at && b.scan.left < a.scan.left)
  }

  /** Every call ends: each step of its own brings it nearer, and no other step takes it back. */
  lemma CallsEnd(s: State, step: Step, t: Tid)
    requires Refs(s) && Enabled(s, step) && t in s.threads
    ensures if step.t != t then t in Apply(s, step).threads && Apply(s, step).threads[t] == s.threads[t]
            else t in Apply(s, step).threads ==>
                   Nearer(s.threads[t].call, s.threads[t].stage, Apply(s, step).threads[t].stage)
  {
    if step.t != t {
      WhatChanges(s, step);
    } else if step.Inspect? {
      InspectIsNearer(s, t, step.id);
    }
  }

  lemma InspectIsNearer(s: State, t: Tid, id: Id)
    requires Refs(s) && Enabled(s, Inspect(t, id))
    ensures var th := s.threads[t];
      Nearer(th.call, th.stage, Scanning(Inspected(s, th.call, th.stage.scan, id)))
  {
  }
}
