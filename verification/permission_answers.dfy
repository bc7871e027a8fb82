// Why each caller of the Android permission rendezvous is let through or turned away: the answers come
// from the system and from the user, and every caller that is answered comes to its end.
module PermissionAnswers {
  import opened Optional
  import opened Permission

  predicate CallersOwn(step: Step, c: Id) {
    match step
    case Answer(_, _, _) => false
    case TakeRequest(_) => false
    case Complete(_) => false
    case _ => step.c == c
  }

  predicate HandlersOwn(step: Step, h: Id) {
    (step.Answer? || step.TakeRequest? || step.Complete?) && step.h == h
  }

  lemma OthersLeaveCaller(s: State, step: Step, c: Id)
    requires Enabled(s, step) && !CallersOwn(step, c) && c in Apply(s, step).callers
    ensures c in s.callers && Apply(s, step).callers[c] == s.callers[c]
  {
  }

  lemma OthersLeaveHandler(s: State, step: Step, h: Id)
    requires Enabled(s, step) && !HandlersOwn(step, h) && h in Apply(s, step).handlers
    ensures h in s.handlers && Apply(s, step).handlers[h] == s.handlers[h]
  {
  }

  /** The step that brought a caller where it stands. */
  lemma {:induction false} LastMove(states: seq<State>, steps: seq<Step>, i: nat, c: Id) returns (k: nat)
    requires Run(states, steps) && i < |states| && c in states[i].callers
    ensures k < i && CallersOwn(steps[k], c) && c in states[k + 1].callers
    ensures states[k + 1].callers[c] == states[i].callers[c]
  {
    k := i - 1;
    if !CallersOwn(steps[k], c) {
      OthersLeaveCaller(states[k], steps[k], c);
      k := LastMove(states, steps, k, c);
    }
  }

  lemma {:induction false} LastHandled(states: seq<State>, steps: seq<Step>, i: nat, h: Id) returns (k: nat)
    requires Run(states, steps) && i < |states| && h in states[i].handlers
    ensures k < i && HandlersOwn(steps[k], h) && h in states[k + 1].handlers
    ensures states[k + 1].handlers[h] == states[i].handlers[h]
  {
    k := i - 1;
    if !HandlersOwn(steps[k], h) {
      OthersLeaveHandler(states[k], steps[k], h);
      k := LastHandled(states, steps, k, h);
    }
  }

  /** `step` is a reason to let its caller through: the system says the permission is there, either at
      once or after the caller was told that the user granted it. */
  predicate LetsThrough(s: State, step: Step, c: Id) {
    || step == SeePermission(c, true)
    || (step == SeeGranted(c, true) && c in s.callers && s.callers[c].stage.Told? && s.callers[c].stage.granted)
  }

  /** A reason to turn it away: the user refused, or the system still says no. */
  predicate TurnsAway(s: State, step: Step, c: Id) {
    && step.SeeGranted? && step.c == c && c in s.callers && s.callers[c].stage.Told?
    && (!s.callers[c].stage.granted || !step.has)
  }

  /** In every run a caller is let through or turned away for a reason. */
  lemma OutcomesHaveReasons(states: seq<State>, steps: seq<Step>, i: nat, c: Id) returns (k: nat)
    requires Run(states, steps) && i < |states| && c in states[i].callers && states[i].callers[c].stage.Finished?
    ensures k < i
    ensures match states[i].callers[c].stage.outcome
            case Permitted => LetsThrough(states[k], steps[k], c)
            case Denied => TurnsAway(states[k], steps[k], c)
  {
    k := LastMove(states, steps, i, c);
    if steps[k].Remove? {
      k := LastMove(states, steps, k, c);
    }
  }

  /** A handler has the result of an answer the user gave about its device. */
  lemma ResultIsTheUsers(states: seq<State>, steps: seq<Step>, i: nat, h: Id) returns (k: nat)
    requires Run(states, steps) && i < |states| && h in states[i].handlers && states[i].handlers[h].Result?
    ensures k < i && steps[k] == Answer(h, states[i].handlers[h].device, states[i].handlers[h].granted)
  {
    k := LastHandled(states, steps, i, h);
  }

  lemma TakenFor(s: State, h: Id)
    requires Placed(s) && Enabled(s, TakeRequest(h)) && Apply(s, TakeRequest(h)).handlers[h].Completing?
    ensures var d := Apply(s, TakeRequest(h)).handlers[h].on;
      d < |s.deferreds| && s.deferreds[d].device == s.handlers[h].device
    ensures Apply(s, TakeRequest(h)).handlers[h].granted == s.handlers[h].granted
  {
  }

  /** And when it is about to complete a deferred, that answer was about the deferred's device. */
  lemma CompletionIsTheUsers(states: seq<State>, steps: seq<Step>, i: nat, h: Id) returns (k: nat)
    requires Run(states, steps) && i < |states| && h in states[i].handlers && states[i].handlers[h].Completing?
    ensures var d := states[i].handlers[h].on;
      && k < i && d < |states[i].deferreds|
      && steps[k] == Answer(h, states[i].deferreds[d].device, states[i].handlers[h].granted)
  {
    var taken := LastHandled(states, steps, i, h);
    EveryRun(states, steps, taken);
    TakenFor(states[taken], h);
    k := ResultIsTheUsers(states, steps, taken, h);
    DevicesStay(states, steps, taken, i, states[i].handlers[h].on);
  }

  lemma DeviceStays(s: State, step: Step, d: DeferredId)
    requires Enabled(s, step) && d < |s.deferreds|
    ensures d < |Apply(s, step).deferreds| && Apply(s, step).deferreds[d].device == s.deferreds[d].device
  {
    Frame(s, step);
  }

  lemma {:induction false} DevicesStay(states: seq<State>, steps: seq<Step>, i: nat, j: nat, d: DeferredId)
    requires Run(states, steps) && i <= j < |states| && d < |states[i].deferreds|
    ensures d < |states[j].deferreds| && states[j].deferreds[d].device == states[i].deferreds[d].device
  {
    if i < j {
      DevicesStay(states, steps, i, j - 1, d);
      DeviceStays(states[j - 1], steps[j - 1], d);
    }
  }

  lemma OnlyCompleteAnswers(s: State, step: Step, d: DeferredId)
    requires Enabled(s, step) && Answered(Apply(s, step), d) && !Answered(s, d)
    ensures step.Complete? && s.handlers[step.h].on == d
    ensures Apply(s, step).deferreds[d].answer == Some(s.handlers[step.h].granted)
    ensures d < |s.deferreds| && Apply(s, step).deferreds[d].device == s.deferreds[d].device
  {
  }

  /** What callers are told is what the user answered about their device: every deferred's answer was
      given by the user to a prompt for that device. */
  lemma {:induction false} AnswersAreTheUsers(states: seq<State>, steps: seq<Step>, i: nat, d: DeferredId)
    returns (k: nat, h: Id)
    requires Run(states, steps) && i < |states| && Answered(states[i], d)
    ensures k < i && steps[k] == Answer(h, states[i].deferreds[d].device, states[i].deferreds[d].answer.value)
  {
    if Answered(states[i - 1], d) {
      k, h := AnswersAreTheUsers(states, steps, i - 1, d);
      AnswerStands(states[i - 1], steps[i - 1], d);
    } else {
      OnlyCompleteAnswers(states[i - 1], steps[i - 1], d);
      h := steps[i - 1].h;
      k := CompletionIsTheUsers(states, steps, i - 1, h);
    }
  }

  function Rank(stage: CallerStage): nat {
    match stage
    case Entered => 6
    case Offering(_) => 5
    case Prompting(_) => 4
    case Awaiting(_) => 3
    case Told(_, _) => 2
    case Removing(_) => 1
    case Finished(_) => 0
  }

  /** Each step of a caller brings it nearer its end. */
  lemma CallersEnd(s: State, step: Step, c: Id)
    requires Enabled(s, step) && CallersOwn(step, c) && !step.Call?
    ensures c in s.callers && c in Apply(s, step).callers
    ensures Rank(Apply(s, step).callers[c].stage) < Rank(s.callers[c].stage)
  {
  }

  /** And it can always go on, unless it waits for the answer. */
  lemma CallersCanGoOn(s: State, c: Id)
    requires c in s.callers && !s.callers[c].stage.Finished?
    requires s.callers[c].stage.Awaiting? ==> Answered(s, s.callers[c].stage.on)
    ensures exists step :: CallersOwn(step, c) && !step.Call? && Enabled(s, step)
  {
    match s.callers[c].stage
    case Entered => assert Enabled(s, SeePermission(c, false));
    case Offering(_) => assert Enabled(s, PutIfAbsent(c));
    case Prompting(_) => assert Enabled(s, Prompt(c));
    case Awaiting(_) => assert Enabled(s, Resume(c));
    case Told(_, _) => assert Enabled(s, SeeGranted(c, true));
    case Removing(_) => assert Enabled(s, Remove(c));
  }
}
