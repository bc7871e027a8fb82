// `ensurePermission` and `handlePermissionResult` of SerialPortManager.kt: callers that need the
// user's consent for one USB device share one deferred answer and one system prompt. Any number of
// callers and result handlers interleave; each step is one call into the map, the deferred or the
// system. Results are assumed to answer prompts: the system reports each prompt's result once.
module Permission {
  import opened Optional

  type Id = nat
  type Device = int
  type DeferredId = nat

  datatype Deferred = Deferred(device: Device, answer: Option<bool>)

  datatype Outcome = Permitted | Denied

  datatype CallerStage =
    | Entered
    | Offering(own: DeferredId)
    | Prompting(on: DeferredId)
    | Awaiting(on: DeferredId)
    | Told(on: DeferredId, granted: bool)
    | Removing(on: DeferredId)
    | Finished(outcome: Outcome)

  datatype Caller = Caller(device: Device, stage: CallerStage)

  datatype Handler =
    | Result(device: Device, granted: bool)
    | Completing(on: DeferredId, granted: bool)
    | Handled

  /** `permissionRequests`, every deferred ever made, and the prompts the system still has to answer. */
  datatype State = State(
    requests: map<Device, DeferredId>, deferreds: seq<Deferred>, prompts: multiset<Device>,
    callers: map<Id, Caller>, handlers: map<Id, Handler>)

  const initial := State(map[], [], multiset{}, map[], map[])

  /** `has` is what `hasPermission` answers, `granted` what the user did. */
  datatype Step =
    | Call(c: Id, device: Device)
    | SeePermission(c: Id, has: bool)
    | PutIfAbsent(c: Id)
    | Prompt(c: Id)
    | Resume(c: Id)
    | SeeGranted(c: Id, has: bool)
    | Remove(c: Id)
    | Answer(h: Id, device: Device, granted: bool)
    | TakeRequest(h: Id)
    | Complete(h: Id)

  predicate Answered(s: State, d: DeferredId) { d < |s.deferreds| && s.deferreds[d].answer.Some? }

  predicate Enabled(s: State, step: Step) {
    match step
    case Call(c, _) => c !in s.callers
    case SeePermission(c, _) => c in s.callers && s.callers[c].stage.Entered?
    case PutIfAbsent(c) => c in s.callers && s.callers[c].stage.Offering?
    case Prompt(c) => c in s.callers && s.callers[c].stage.Prompting?
    case Resume(c) => c in s.callers && s.callers[c].stage.Awaiting? && Answered(s, s.callers[c].stage.on)
    case SeeGranted(c, _) => c in s.callers && s.callers[c].stage.Told?
    case Remove(c) => c in s.callers && s.callers[c].stage.Removing?
    case Answer(h, device, _) => h !in s.handlers && device in s.prompts
    case TakeRequest(h) => h in s.handlers && s.handlers[h].Result?
    case Complete(h) => h in s.handlers && s.handlers[h].Completing?
  }

  function Go(s: State, c: Id, stage: CallerStage): State
    requires c in s.callers
  {
    s.(callers := s.callers[c := s.callers[c].(stage := stage)])
  }

  /** `remove(key, value)` of the map. */
  function WithoutPair(requests: map<Device, DeferredId>, device: Device, d: DeferredId): map<Device, DeferredId> {
    if device in requests && requests[device] == d then requests - {device} else requests
  }

  /** A deferred keeps the first answer it is given. */
  function Completed(deferreds: seq<Deferred>, d: DeferredId, granted: bool): seq<Deferred> {
    if d < |deferreds| && deferreds[d].answer == None
    then deferreds[d := deferreds[d].(answer := Some(granted))] else deferreds
  }

  function Apply(s: State, step: Step): State
    requires Enabled(s, step)
  {
    match step
    case Call(c, device) => s.(callers := s.callers[c := Caller(device, Entered)])
    case SeePermission(c, has) =>
      if has then Go(s, c, Finished(Permitted))
      else Go(s, c, Offering(|s.deferreds|)).(deferreds := s.deferreds + [Deferred(s.callers[c].device, None)])
    case PutIfAbsent(c) =>
      var device := s.callers[c].device;
      var own := s.callers[c].stage.own;
      if device in s.requests then Go(s, c, Awaiting(s.requests[device]))
      else Go(s, c, Prompting(own)).(requests := s.requests[device := own])
    case Prompt(c) =>
      Go(s, c, Awaiting(s.callers[c].stage.on)).(prompts := s.prompts + multiset{s.callers[c].device})
    case Resume(c) =>
      Go(s, c, Told(s.callers[c].stage.on, s.deferreds[s.callers[c].stage.on].answer.value))
    case SeeGranted(c, has) =>
      var Told(d, granted) := s.callers[c].stage;
      Go(s, c, if !granted || !has then Finished(Denied) else Removing(d))
    case Remove(c) =>
      Go(s, c, Finished(Permitted))
      .(requests := WithoutPair(s.requests, s.callers[c].device, s.callers[c].stage.on))
    case Answer(h, device, granted) =>
      s.(prompts := s.prompts - multiset{device}, handlers := s.handlers[h := Result(device, granted)])
    case TakeRequest(h) =>
      var Result(device, granted) := s.handlers[h];
      if device in s.requests
      then s.(requests := s.requests - {device},
              handlers := s.handlers[h := Completing(s.requests[device], granted)])
      else s.(handlers := s.handlers[h := Handled])
    case Complete(h) =>
      var Completing(d, granted) := s.handlers[h];
      s.(deferreds := Completed(s.deferreds, d, granted), handlers := s.handlers[h := Handled])
  }

  predicate InMap(s: State, d: DeferredId) {
    d < |s.deferreds| && s.deferreds[d].device in s.requests && s.requests[s.deferreds[d].device] == d
  }

  /** The handler that took `d` from the map and is about to complete it. */
  predicate InHands(s: State, h: Id, d: DeferredId) {
    h in s.handlers && s.handlers[h].Completing? && s.handlers[h].on == d
  }

  /** The caller that made `d` and has not offered it yet. */
  predicate Private(s: State, c: Id, d: DeferredId) {
    c in s.callers && s.callers[c].stage.Offering? && s.callers[c].stage.own == d
  }

  /** A caller that shares `d` with whoever else waits for its device. */
  predicate Shares(s: State, c: Id, d: DeferredId) {
    c in s.callers && (s.callers[c].stage.Prompting? || s.callers[c].stage.Awaiting?) && s.callers[c].stage.on == d
  }

  predicate Knows(s: State, c: Id, d: DeferredId) {
    c in s.callers && (s.callers[c].stage.Told? || s.callers[c].stage.Removing?) && s.callers[c].stage.on == d
  }

  /** A deferred is private, in the map, in one handler's hands or answered, and only one of these;
      whoever shares it finds it in one of the last three. */
  ghost predicate Placed(s: State) {
    && (forall device :: device in s.requests ==>
          var d := s.requests[device]; d < |s.deferreds| && s.deferreds[d] == Deferred(device, None))
    && (forall h, d: DeferredId :: InHands(s, h, d) ==>
          d < |s.deferreds| && s.deferreds[d].answer == None && !InMap(s, d))
    && (forall h, k, d: DeferredId :: InHands(s, h, d) && InHands(s, k, d) ==> h == k)
    && (forall c, d: DeferredId :: Private(s, c, d) ==>
          d < |s.deferreds| && s.deferreds[d] == Deferred(s.callers[c].device, None)
          && !InMap(s, d) && forall h :: !InHands(s, h, d))
    && (forall c, b, d: DeferredId :: Private(s, c, d) ==> !Shares(s, b, d) && (Private(s, b, d) ==> b == c))
    && (forall c, d: DeferredId :: Shares(s, c, d) ==>
          d < |s.deferreds| && s.deferreds[d].device == s.callers[c].device
          && (InMap(s, d) || Answered(s, d) || exists h :: InHands(s, h, d)))
  }

  predicate IsPrompting(s: State, c: Id, device: Device) {
    c in s.callers && s.callers[c].stage.Prompting? && s.callers[c].device == device
  }

  predicate HasResult(s: State, h: Id, device: Device) {
    h in s.handlers && s.handlers[h].Result? && s.handlers[h].device == device
  }

  /** A device is in the map exactly while it has one token: a caller about to prompt, an outstanding
      prompt, or a handler with its result. */
  ghost predicate Tokens(s: State) {
    && (forall device :: device in s.requests ==>
          device in s.prompts || (exists c :: IsPrompting(s, c, device)) || exists h :: HasResult(s, h, device))
    && (forall device :: s.prompts[device] <= 1)
    && (forall device :: device in s.prompts ==> device in s.requests)
    && (forall c, device :: IsPrompting(s, c, device) ==>
          device in s.requests && device !in s.prompts && s.requests[device] == s.callers[c].stage.on)
    && (forall h, device :: HasResult(s, h, device) ==> device in s.requests && device !in s.prompts)
    && (forall c, b, device :: IsPrompting(s, c, device) && IsPrompting(s, b, device) ==> c == b)
    && (forall h, k, device :: HasResult(s, h, device) && HasResult(s, k, device) ==> h == k)
    && (forall c, h, device :: IsPrompting(s, c, device) ==> !HasResult(s, h, device))
  }

  /** Callers that were told an answer were told the deferred's. */
  ghost predicate Informed(s: State) {
    forall c, d: DeferredId :: Knows(s, c, d) ==>
      Answered(s, d) && s.deferreds[d].device == s.callers[c].device
      && (s.callers[c].stage.Told? ==> s.deferreds[d].answer == Some(s.callers[c].stage.granted))
      && (s.callers[c].stage.Removing? ==> s.deferreds[d].answer == Some(true))
  }

  ghost predicate Inv(s: State) { Placed(s) && Tokens(s) && Informed(s) }

  /** The final conditional remove is a no-op: the deferred was answered, so the map no longer has it,
      and whatever the map has for the device now is a newer request. */
  lemma RemoveEvictsNothing(s: State, c: Id)
    requires Placed(s) && Informed(s) && Enabled(s, Remove(c))
    ensures Apply(s, Remove(c)).requests == s.requests
  {
    assert Knows(s, c, s.callers[c].stage.on);
  }

  /** A step leaves the callers other than its own alone, and an answer once given stands. */
  lemma Frame(s: State, step: Step)
    requires Enabled(s, step)
    ensures var s' := Apply(s, step);
      && (step.Call? || step.SeePermission? || step.PutIfAbsent? || step.Prompt? || step.Resume?
          || step.SeeGranted? || step.Remove? || s'.callers == s.callers)
      && (step.Answer? || step.TakeRequest? || step.Complete? || s'.handlers == s.handlers)
      && (step.Prompt? || step.Answer? || s'.prompts == s.prompts)
      && (step.PutIfAbsent? || step.Remove? || step.TakeRequest? || s'.requests == s.requests)
      && (step.SeePermission? || step.Complete? || s'.deferreds == s.deferreds)
      && |s.deferreds| <= |s'.deferreds|
      && forall d :: 0 <= d < |s.deferreds| ==>
           s'.deferreds[d].device == s.deferreds[d].device
           && (s.deferreds[d].answer.Some? ==> s'.deferreds[d] == s.deferreds[d])
  {
  }

  lemma InformedKept(s: State, step: Step)
    requires Placed(s) && Informed(s) && Enabled(s, step)
    ensures Informed(Apply(s, step))
  {
    Frame(s, step);
    var s' := Apply(s, step);
    if step.Resume? {
      var d := s.callers[step.c].stage.on;
      assert Shares(s, step.c, d);
      assert forall c, e: DeferredId :: Knows(s', c, e) <==> if c == step.c then e == d else Knows(s, c, e);
    } else {
      assert forall c, e: DeferredId :: Knows(s', c, e) ==> Knows(s, c, e);
    }
  }

  lemma SameTokens(s: State, s': State)
    requires Tokens(s) && s'.requests == s.requests && s'.prompts == s.prompts
    requires forall c, device :: IsPrompting(s, c, device) ==> c in s'.callers && s'.callers[c] == s.callers[c]
    requires forall c, device :: IsPrompting(s', c, device) ==> IsPrompting(s, c, device)
    requires forall h, device :: HasResult(s, h, device) <==> HasResult(s', h, device)
    ensures Tokens(s')
  {
    forall device | device in s'.requests && device !in s'.prompts
      ensures (exists c :: IsPrompting(s', c, device)) || exists h :: HasResult(s', h, device)
    {
      if c :| IsPrompting(s, c, device) {
        assert IsPrompting(s', c, device);
      } else {
        var h :| HasResult(s, h, device);
        assert HasResult(s', h, device);
      }
    }
  }

  lemma OfferTokens(s: State, c: Id)
    requires Tokens(s) && Enabled(s, PutIfAbsent(c))
    ensures Tokens(Apply(s, PutIfAbsent(c)))
  {
    var s', mine := Apply(s, PutIfAbsent(c)), s.callers[c].device;
    if mine in s.requests {
      SameTokens(s, s');
    } else {
      assert mine !in s.prompts;
      assert forall b :: !IsPrompting(s, b, mine);
      assert forall h :: !HasResult(s, h, mine);
      assert forall h, device :: HasResult(s', h, device) <==> HasResult(s, h, device);
      assert forall b, device ::
          IsPrompting(s', b, device) <==> if b == c then device == mine else IsPrompting(s, b, device);
      forall device | device in s'.requests && device !in s'.prompts
        ensures (exists b :: IsPrompting(s', b, device)) || exists h :: HasResult(s', h, device)
      {
        if device == mine {
          assert IsPrompting(s', c, device);
        } else if b :| IsPrompting(s, b, device) {
          assert IsPrompting(s', b, device);
        } else {
          var h :| HasResult(s, h, device);
          assert HasResult(s', h, device);
        }
      }
    }
  }

  lemma PromptTokens(s: State, c: Id)
    requires Tokens(s) && Enabled(s, Prompt(c))
    ensures Tokens(Apply(s, Prompt(c)))
  {
    var s', mine := Apply(s, Prompt(c)), s.callers[c].device;
    assert IsPrompting(s, c, mine);
    assert forall device :: s'.prompts[device] == if device == mine then 1 else s.prompts[device];
    assert forall h, device :: HasResult(s', h, device) <==> HasResult(s, h, device);
    assert forall b, device :: IsPrompting(s', b, device) <==> b != c && IsPrompting(s, b, device);
    forall device | device in s'.requests && device !in s'.prompts
      ensures (exists b :: IsPrompting(s', b, device)) || exists h :: HasResult(s', h, device)
    {
      if b :| IsPrompting(s, b, device) {
        assert IsPrompting(s', b, device);
      } else {
        var h :| HasResult(s, h, device);
        assert HasResult(s', h, device);
      }
    }
  }

  lemma AnswerTokens(s: State, h: Id, mine: Device, granted: bool)
    requires Tokens(s) && Enabled(s, Answer(h, mine, granted))
    ensures Tokens(Apply(s, Answer(h, mine, granted)))
  {
    var s' := Apply(s, Answer(h, mine, granted));
    assert s.prompts[mine] == 1;
    assert forall k, device :: HasResult(s', k, device) <==> if k == h then device == mine else HasResult(s, k, device);
    assert forall c, device :: IsPrompting(s', c, device) <==> IsPrompting(s, c, device);
    forall device | device in s'.requests && device !in s'.prompts
      ensures (exists c :: IsPrompting(s', c, device)) || exists k :: HasResult(s', k, device)
    {
      if device == mine {
        assert HasResult(s', h, device);
      } else if c :| IsPrompting(s, c, device) {
        assert IsPrompting(s', c, device);
      } else {
        var k :| HasResult(s, k, device);
        assert HasResult(s', k, device);
      }
    }
  }

  lemma TakeTokens(s: State, h: Id)
    requires Tokens(s) && Enabled(s, TakeRequest(h))
    ensures Tokens(Apply(s, TakeRequest(h)))
  {
    var s', mine := Apply(s, TakeRequest(h)), s.handlers[h].device;
    assert HasResult(s, h, mine);
    assert forall k, device :: HasResult(s', k, device) <==> k != h && HasResult(s, k, device);
    assert forall c, device :: IsPrompting(s', c, device) <==> IsPrompting(s, c, device);
    forall device | device in s'.requests && device !in s'.prompts
      ensures (exists c :: IsPrompting(s', c, device)) || exists k :: HasResult(s', k, device)
    {
      if c :| IsPrompting(s, c, device) {
        assert IsPrompting(s', c, device);
      } else {
        var k :| HasResult(s, k, device);
        assert HasResult(s', k, device);
      }
    }
  }

  lemma QuietTokens(s: State, step: Step)
    requires Tokens(s) && Enabled(s, step)
    requires step.Call? || step.SeePermission? || step.Resume? || step.SeeGranted? || step.Complete?
    ensures Tokens(Apply(s, step))
  {
    SameTokens(s, Apply(s, step));
  }

  lemma RemoveTokens(s: State, c: Id)
    requires Inv(s) && Enabled(s, Remove(c))
    ensures Tokens(Apply(s, Remove(c)))
  {
    RemoveEvictsNothing(s, c);
    SameTokens(s, Apply(s, Remove(c)));
  }

  lemma TokensKept(s: State, step: Step)
    requires Inv(s) && Enabled(s, step)
    ensures Tokens(Apply(s, step))
  {
    match step
    case PutIfAbsent(c) => OfferTokens(s, c);
    case Prompt(c) => PromptTokens(s, c);
    case Answer(h, device, granted) => AnswerTokens(s, h, device, granted);
    case TakeRequest(h) => TakeTokens(s, h);
    case Remove(c) => RemoveTokens(s, c);
    case _ => QuietTokens(s, step);
  }

  /** Nothing is made, offered, taken or answered. */
  lemma SamePlaces(s: State, s': State)
    requires Placed(s) && s'.requests == s.requests && s'.deferreds == s.deferreds
    requires forall h, d: DeferredId :: InHands(s', h, d) <==> InHands(s, h, d)
    requires forall c, d: DeferredId :: Private(s', c, d) ==>
               Private(s, c, d) && s'.callers[c].device == s.callers[c].device
    requires forall c, d: DeferredId :: Shares(s', c, d) ==>
               Shares(s, c, d) && s'.callers[c].device == s.callers[c].device
    ensures Placed(s')
  {
    SharersFollow(s, s');
  }

  /** Where a shared deferred was, it still is. */
  lemma SharersFollow(s: State, s': State)
    requires Placed(s)
    requires forall d: DeferredId :: InMap(s, d) ==> InMap(s', d) || Answered(s', d) || exists h :: InHands(s', h, d)
    requires forall d: DeferredId :: Answered(s, d) ==> Answered(s', d)
    requires forall h, d: DeferredId :: InHands(s, h, d) ==> InHands(s', h, d) || Answered(s', d)
    ensures forall c, d: DeferredId :: Shares(s, c, d) ==>
              InMap(s', d) || Answered(s', d) || exists h :: InHands(s', h, d)
  {
    forall c, d: DeferredId | Shares(s, c, d)
      ensures InMap(s', d) || Answered(s', d) || exists h :: InHands(s', h, d)
    {
      if !InMap(s, d) && !Answered(s, d) {
        var h :| InHands(s, h, d);
        assert InHands(s', h, d) || Answered(s', d);
      }
    }
  }

  lemma MakePlaces(s: State, c: Id)
    requires Placed(s) && Enabled(s, SeePermission(c, false))
    ensures Placed(Apply(s, SeePermission(c, false)))
  {
    var s', n := Apply(s, SeePermission(c, false)), |s.deferreds|;
    assert forall h, d: DeferredId :: InHands(s', h, d) <==> InHands(s, h, d);
    assert forall d: DeferredId :: InMap(s', d) <==> InMap(s, d);
    assert forall b, d: DeferredId :: Private(s', b, d) <==> if b == c then d == n else Private(s, b, d);
    assert forall b, d: DeferredId :: Shares(s', b, d) <==> Shares(s, b, d);
    SharersFollow(s, s');
  }

  /** `putIfAbsent` shares the deferred that is there, or puts the caller's own into the map. */
  lemma OfferPlaces(s: State, c: Id)
    requires Placed(s) && Enabled(s, PutIfAbsent(c))
    ensures Placed(Apply(s, PutIfAbsent(c)))
  {
    var s', own := Apply(s, PutIfAbsent(c)), s.callers[c].stage.own;
    var mine := s.callers[c].device;
    var on := if mine in s.requests then s.requests[mine] else own;
    assert Private(s, c, own);
    assert forall h, d: DeferredId :: InHands(s', h, d) <==> InHands(s, h, d);
    assert InMap(s', on);
    assert forall d: DeferredId :: InMap(s', d) <==> InMap(s, d) || d == on;
    assert forall b, d: DeferredId :: Private(s', b, d) <==> b != c && Private(s, b, d);
    assert forall b, d: DeferredId :: Shares(s', b, d) <==> if b == c then d == on else Shares(s, b, d);
    SharersFollow(s, s');
  }

  lemma TakePlaces(s: State, h: Id)
    requires Placed(s) && Enabled(s, TakeRequest(h))
    ensures Placed(Apply(s, TakeRequest(h)))
  {
    var s', mine := Apply(s, TakeRequest(h)), s.handlers[h].device;
    assert forall b, d: DeferredId :: Private(s', b, d) <==> Private(s, b, d);
    assert forall b, d: DeferredId :: Shares(s', b, d) <==> Shares(s, b, d);
    if mine !in s.requests {
      SamePlaces(s, s');
    } else {
      var taken := s.requests[mine];
      assert InMap(s, taken);
      assert forall d: DeferredId :: InMap(s', d) <==> InMap(s, d) && d != taken;
      assert forall k, d: DeferredId :: InHands(s', k, d) <==> if k == h then d == taken else InHands(s, k, d);
      assert InHands(s', h, taken);
      SharersFollow(s, s');
    }
  }

  lemma CompletePlaces(s: State, h: Id)
    requires Placed(s) && Enabled(s, Complete(h))
    ensures Placed(Apply(s, Complete(h)))
  {
    var s', done := Apply(s, Complete(h)), s.handlers[h].on;
    assert InHands(s, h, done);
    assert forall b, d: DeferredId :: Private(s', b, d) <==> Private(s, b, d);
    assert forall b, d: DeferredId :: Shares(s', b, d) <==> Shares(s, b, d);
    assert forall d: DeferredId :: InMap(s', d) <==> InMap(s, d);
    assert forall k, d: DeferredId :: InHands(s', k, d) <==> k != h && InHands(s, k, d);
    SharersFollow(s, s');
  }

  lemma QuietPlaces(s: State, step: Step)
    requires Placed(s) && Enabled(s, step)
    requires step.Call? || (step.SeePermission? && step.has) || step.Prompt? || step.Resume? || step.SeeGranted?
             || step.Answer?
    ensures Placed(Apply(s, step))
  {
    SamePlaces(s, Apply(s, step));
  }

  lemma RemovePlaces(s: State, c: Id)
    requires Placed(s) && Informed(s) && Enabled(s, Remove(c))
    ensures Placed(Apply(s, Remove(c)))
  {
    RemoveEvictsNothing(s, c);
    SamePlaces(s, Apply(s, Remove(c)));
  }

  lemma PlacedKept(s: State, step: Step)
    requires Placed(s) && Informed(s) && Enabled(s, step)
    ensures Placed(Apply(s, step))
  {
    match step
    case SeePermission(c, false) => MakePlaces(s, c);
    case PutIfAbsent(c) => OfferPlaces(s, c);
    case TakeRequest(h) => TakePlaces(s, h);
    case Complete(h) => CompletePlaces(s, h);
    case Remove(c) => RemovePlaces(s, c);
    case _ => QuietPlaces(s, step);
  }

  lemma InvKept(s: State, step: Step)
    requires Inv(s) && Enabled(s, step)
    ensures Inv(Apply(s, step))
  {
    PlacedKept(s, step);
    TokensKept(s, step);
    InformedKept(s, step);
  }

  ghost predicate Run(states: seq<State>, steps: seq<Step>) {
    && |states| == |steps| + 1 && states[0] == initial
    && forall i :: 0 <= i < |steps| ==> Enabled(states[i], steps[i]) && states[i + 1] == Apply(states[i], steps[i])
  }

  lemma {:induction false} EveryRun(states: seq<State>, steps: seq<Step>, i: nat)
    requires Run(states, steps) && i < |states|
    ensures Inv(states[i])
  {
    if i > 0 {
      EveryRun(states, steps, i - 1);
      InvKept(states[i - 1], steps[i - 1]);
    }
  }

  /** The user is never asked twice at once about a device, and a device is in the map exactly while
      it is being asked about: a caller is about to prompt, the prompt is up, or its result is here. */
  lemma OnePromptPerDevice(states: seq<State>, steps: seq<Step>, i: nat, device: Device)
    requires Run(states, steps) && i < |states|
    ensures states[i].prompts[device] <= 1
    ensures var s := states[i];
      device in s.requests <==>
        device in s.prompts || (exists c :: IsPrompting(s, c, device)) || exists h :: HasResult(s, h, device)
  {
    EveryRun(states, steps, i);
  }

  /** No waiter is stranded: its deferred has its answer, or a handler is about to give it one, or it
      is in the map and its device is being asked about. */
  lemma EveryWaiterIsServed(states: seq<State>, steps: seq<Step>, i: nat, c: Id)
    requires Run(states, steps) && i < |states| && c in states[i].callers && states[i].callers[c].stage.Awaiting?
    ensures var s := states[i];
      var device, d := s.callers[c].device, s.callers[c].stage.on;
      || Answered(s, d)
      || (exists h :: InHands(s, h, d))
      || (device in s.requests && s.requests[device] == d
          && (device in s.prompts || (exists b :: IsPrompting(s, b, device)) || exists h :: HasResult(s, h, device)))
  {
    EveryRun(states, steps, i);
    assert Shares(states[i], c, states[i].callers[c].stage.on);
  }

  lemma AnswerStands(s: State, step: Step, d: DeferredId)
    requires Enabled(s, step) && Answered(s, d)
    ensures Answered(Apply(s, step), d) && Apply(s, step).deferreds[d] == s.deferreds[d]
  {
    Frame(s, step);
  }

  lemma {:induction false} AnswersStand(states: seq<State>, steps: seq<Step>, i: nat, j: nat, d: DeferredId)
    requires Run(states, steps) && i <= j < |states| && Answered(states[i], d)
    ensures Answered(states[j], d) && states[j].deferreds[d] == states[i].deferreds[d]
  {
    if i < j {
      AnswersStand(states, steps, i, j - 1, d);
      AnswerStands(states[j - 1], steps[j - 1], d);
    }
  }

  /** All who wait on one deferred are told the same, whenever they look. */
  lemma SameAnswerForAll(states: seq<State>, steps: seq<Step>, i: nat, j: nat, b: Id, c: Id)
    requires Run(states, steps) && i <= j < |states|
    requires b in states[i].callers && states[i].callers[b].stage.Told?
    requires c in states[j].callers && states[j].callers[c].stage.Told?
    requires states[i].callers[b].stage.on == states[j].callers[c].stage.on
    ensures states[i].callers[b].stage.granted == states[j].callers[c].stage.granted
    ensures states[i].callers[b].device == states[j].callers[c].device
  {
    EveryRun(states, steps, i);
    EveryRun(states, steps, j);
    var d := states[i].callers[b].stage.on;
    assert Knows(states[i], b, d) && Knows(states[j], c, d);
    AnswersStand(states, steps, i, j, d);
  }

  /** A result always finds the request it is for, and completes a deferred nobody completed before. */
  lemma ResultsReachTheirRequest(states: seq<State>, steps: seq<Step>, i: nat)
    requires Run(states, steps) && i < |steps|
    ensures steps[i].TakeRequest? ==> states[i].handlers[steps[i].h].device in states[i].requests
    ensures steps[i].Complete? ==>
              var d := states[i].handlers[steps[i].h].on;
              && d < |states[i].deferreds| && states[i].deferreds[d].answer == None
              && d < |states[i + 1].deferreds|
              && states[i + 1].deferreds[d].answer == Some(states[i].handlers[steps[i].h].granted)
  {
    EveryRun(states, steps, i);
    var step := steps[i];
    if step.TakeRequest? {
      assert HasResult(states[i], step.h, states[i].handlers[step.h].device);
    } else if step.Complete? {
      assert InHands(states[i], step.h, states[i].handlers[step.h].on);
    }
  }

  /** The final remove of a permitted caller never takes a request out of the map. */
  lemma NewerRequestsSurvive(states: seq<State>, steps: seq<Step>, i: nat)
    requires Run(states, steps) && i < |steps| && steps[i].Remove?
    ensures states[i + 1].requests == states[i].requests
  {
    EveryRun(states, steps, i);
    RemoveEvictsNothing(states[i], steps[i].c);
  }
}
