/** What every run of events keeps true of one call. */
module CallRuns {
  import opened Options
  import opened CallTables
  import opened CallMachine

  // ----- The life cycle only moves forward -----

  lemma StageKeepsState(c: Call, target: State)
    ensures ChangeState(c, target).state == target
  {
  }

  lemma SettledState(c: Call, found: Contact)
    ensures SettleDial(c, found).state == c.state
  {
  }

  /** A daemon event lands exactly where the table says, whatever its callback does. */
  lemma DaemonLands(c: Call, d: DaemonState, found: Contact)
    ensures DaemonEvent(c, d, found).state == DaemonTarget(c.state, d)
  {
    var target := DaemonTarget(c.state, d);
    StageKeepsState(c, target);
    var flagged := ChangeState(c, target).(holdOut := target.Hold?);
    SettledState(flagged, found);
    SettledState(SettleDial(flagged, found), found);
    if DaemonCallOf(c.state, d).Raise? {
      RaiseIsError(c.state, d);
      StageKeepsState(flagged, Error);
    }
  }

  lemma DaemonKeepsNames(c: Call, d: DaemonState, found: Contact)
    ensures DaemonEvent(c, d, found).id == c.id && DaemonEvent(c, d, found).hasAccount == c.hasAccount
  {
    hide DaemonTarget, DaemonCallOf, RunDaemonCall;
    var target := DaemonTarget(c.state, d);
    ChangeKeepsNames(c, target);
    var moved := ChangeState(c, target);
    CallbackKeepsNames(moved.(holdOut := moved.state.Hold?), DaemonCallOf(c.state, d), found);
  }

  lemma ChangeKeepsNames(c: Call, target: State)
    ensures ChangeState(c, target).id == c.id && ChangeState(c, target).hasAccount == c.hasAccount
  {
    hide LifeOf;
  }

  lemma CallbackKeepsNames(c: Call, f: DaemonCall, found: Contact)
    ensures RunDaemonCall(c, f, found).id == c.id && RunDaemonCall(c, f, found).hasAccount == c.hasAccount
  {
    hide LifeOf;
  }

  lemma RaiseIsError(s: State, d: DaemonState)
    ensures DaemonCallOf(s, d).Raise? ==> DaemonTarget(s, d).Error?
  {
  }

  lemma SendLands(c: Call, reply: Reply)
    ensures SendCall(c, reply).state == c.state || SendCall(c, reply).state.Failure?
  {
    SettledState(c, reply.found);
    StageKeepsState(SettleDial(c, reply.found), Failure);
  }

  lemma PlaceLands(c: Call, reply: Reply)
    ensures PlaceCall(c, reply).state == c.state || Life(PlaceCall(c, reply)).Finished?
  {
    StageKeepsState(c, Aborted);
    StageKeepsState(c, Error);
    SendLands(c.(hasAccount := true), reply);
  }

  /** Callbacks either keep the state or finish the call. */
  lemma ActionCallLands(c: Call, f: ActionCall, reply: Reply)
    ensures RunActionCall(c, f, reply).state == c.state || Life(RunActionCall(c, f, reply)).Finished?
  {
    match f
    case RefuseCall => StageKeepsState(c, Error);
    case Discard => StageKeepsState(c, Error);
    case HangUp => StageKeepsState(c, Over);
    case CancelCall => StageKeepsState(c, Over);
    case Place => PlaceLands(c, reply);
    case _ =>
  }

  /** An action moves forward exactly when the table lists it or the call is still being created. */
  lemma ActionForward(c: Call, a: Action, reply: Reply)
    ensures StateRank(c.state) <= StateRank(PerformAction(c, a, reply).state)
       <==> CallTables.Listed(a) || Life(c).Creation?
  {
    ActionTableForward(c.state, a);
    var target := ActionTarget(c.state, a);
    StageKeepsState(c, target);
    ActionCallLands(ChangeState(c, target), ActionCallOf(c.state, a), reply);
  }

  /** Without the validation, a daemon event moves forward unless it revives a busy call. */
  lemma DaemonForward(c: Call, d: DaemonState, found: Contact)
    ensures StateRank(c.state) <= StateRank(DaemonEvent(c, d, found).state)
       <==> !(c.state.Busy? && d.DCurrent?)
    ensures Validated(c.state, d) ==> !(c.state.Busy? && d.DCurrent?)
  {
    DaemonLands(c, d, found);
    DaemonTableForward(c.state, d);
  }

  /** TRANSFER keeps a talking call talking and ends any other call. */
  lemma AskTransfer(c: Call, reply: Reply)
    ensures Life(PerformAction(c, DoTransfer, reply)) == if Life(c).Progress? then Progress else Finished
  {
    var target := ActionTarget(c.state, DoTransfer);
    StageKeepsState(c, target);
    assert LifeOf(target) == if Life(c).Progress? then Progress else Finished;
    assert !ActionCallOf(c.state, DoTransfer).Place?;
    ActionCallLands(ChangeState(c, target), ActionCallOf(c.state, DoTransfer), reply);
  }

  /** A transfer goes forward at each of its four calls exactly when it starts in PROGRESS. */
  lemma TransferForward(c: Call, uri: string, reply: Reply)
    ensures
      var t := TransferSteps(c, uri, reply);
      (StateRank(c.state) <= StateRank(t.0.state) <= StateRank(t.1.state)
       <= StateRank(t.2.state) <= StateRank(t.3.state))
      <==> Life(c).Progress?
    ensures TransferSteps(c, uri, reply).3.state.Over?
  {
    var t := TransferSteps(c, uri, reply);
    AskTransfer(c.(transferNumber := Some(uri)), reply);
    StageKeepsState(t.0, Transferred);
    ActionForward(t.1, Accept, reply);
    StageKeepsState(t.2, Over);
  }

  lemma StepForward(c: Call, e: Event)
    requires Allowed(c, e)
    ensures StateRank(c.state) <= StateRank(Step(c, e).state)
  {
    match e
    case Daemon(d, found) => DaemonForward(c, d, found);
    case Perform(a, reply) => ActionForward(c, a, reply);
    case TransferTo(uri, reply) => TransferForward(c, uri, reply);
    case _ =>
  }

  /** Placing a call ends in one of four ways. */
  lemma PlaceNames(c: Call, reply: Reply)
    requires c.state.Initialization?
    ensures
      var r := PlaceCall(c, reply);
      || (r.state.Initialization? && r.id == reply.placedId && r.id != "" && r.hasAccount)
      || (r.state.Failure? && r.id == "FAILED" && r.hasAccount)
      || ((r.state.Aborted? || r.state.Error?) && r.id == c.id && r.hasAccount == c.hasAccount)
  {
    hide ChangeState;
    var settled := SettleDial(c.(hasAccount := true), reply.found);
    SettledState(c.(hasAccount := true), reply.found);
    StageKeepsState(settled, Failure);
    ChangeKeepsNames(settled, Failure);
    StageKeepsState(c, Aborted);
    ChangeKeepsNames(c, Aborted);
    StageKeepsState(c, Error);
    ChangeKeepsNames(c, Error);
  }

  lemma PlaceOutcome(c: Call, reply: Reply)
    requires c.state.Dialing?
    ensures
      var r := PerformAction(c, Accept, reply);
      || (r.state.Initialization? && r.id == reply.placedId && r.id != "" && r.hasAccount)
      || (r.state.Failure? && r.id == "FAILED" && r.hasAccount)
      || ((r.state.Aborted? || r.state.Error?) && r.id == c.id && r.hasAccount == c.hasAccount)
  {
    hide ChangeState, PlaceCall;
    StageKeepsState(c, Initialization);
    ChangeKeepsNames(c, Initialization);
    PlaceNames(ChangeState(c, Initialization), reply);
  }

  /** From one state to the next, the rank never decreases. */
  predicate Forward(from: State, path: seq<State>)
    decreases |path|
  {
    path != [] ==> StateRank(from) <= StateRank(path[0]) && Forward(path[0], path[1..])
  }

  lemma ForwardStep(from: State, a: State, rest: seq<State>)
    requires StateRank(from) <= StateRank(a) && Forward(a, rest)
    ensures Forward(from, [a] + rest)
  {
    assert ([a] + rest)[1..] == rest;
  }

  lemma ForwardPair(from: State, a: State, b: State)
    requires StateRank(from) <= StateRank(a) <= StateRank(b)
    ensures Forward(from, [a, b])
  {
    ForwardStep(a, b, []);
    ForwardStep(from, a, [b]);
    assert [b] + [] == [b] && [a] + [b] == [a, b];
  }

  /** Not only the outcome: every state on the way is a move forward. */
  lemma PathForward(c: Call, e: Event)
    requires Allowed(c, e)
    ensures Forward(c.state, Path(c, e)) && Path(c, e) != [] && Path(c, e)[|Path(c, e)| - 1] == Step(c, e).state
  {
    hide PerformAction, DaemonEvent, DaemonTarget, ActionTarget, TransferSteps, StateRank, Listed;
    StepForward(c, e);
    match e
    case Daemon(d, found) =>
      DaemonLands(c, d, found);
      ForwardPair(c.state, DaemonTarget(c.state, d), Step(c, e).state);
    case Perform(a, reply) =>
      ActionPath(c, a, reply);
      ForwardPair(c.state, ActionTarget(c.state, a), Step(c, e).state);
    case TransferTo(uri, reply) => TransferPath(c, uri, reply);
    case _ => assert Path(c, e)[1..] == [] && Forward(Step(c, e).state, []);
  }

  lemma ActionPath(c: Call, a: Action, reply: Reply)
    requires CallTables.Listed(a)
    ensures StateRank(c.state) <= StateRank(ActionTarget(c.state, a)) <= StateRank(PerformAction(c, a, reply).state)
  {
    hide RunActionCall, ChangeState;
    ActionTableForward(c.state, a);
    var target := ActionTarget(c.state, a);
    StageKeepsState(c, target);
    ActionCallLands(ChangeState(c, target), ActionCallOf(c.state, a), reply);
  }

  lemma TransferPath(c: Call, uri: string, reply: Reply)
    requires Life(c).Progress?
    ensures
      var t := TransferSteps(c, uri, reply);
      Forward(c.state, [ActionTarget(c.state, DoTransfer), t.0.state, t.1.state, ActionTarget(t.1.state, Accept),
                        t.2.state, t.3.state])
  {
    hide PerformAction, ActionTarget, StateRank, ChangeState;
    var d := c.(transferNumber := Some(uri));
    var t := TransferSteps(c, uri, reply);
    TransferForward(c, uri, reply);
    ActionPath(d, DoTransfer, reply);
    ActionPath(t.1, Accept, reply);
    var target := ActionTarget(t.1.state, Accept);
    ForwardPair(target, t.2.state, t.3.state);
    ForwardStep(t.1.state, target, [t.2.state, t.3.state]);
    ForwardStep(t.0.state, t.1.state, [target] + [t.2.state, t.3.state]);
    ForwardStep(ActionTarget(c.state, DoTransfer), t.0.state, [t.1.state] + ([target] + [t.2.state, t.3.state]));
    var rest := [t.0.state, t.1.state, target, t.2.state, t.3.state];
    assert [t.0.state] + ([t.1.state] + ([target] + [t.2.state, t.3.state])) == rest;
    ForwardStep(c.state, ActionTarget(c.state, DoTransfer), rest);
    assert [ActionTarget(c.state, DoTransfer)] + rest
        == [ActionTarget(c.state, DoTransfer), t.0.state, t.1.state, target, t.2.state, t.3.state];
  }

  /** Over any run the rank never decreases, so FINISHED is never left. */
  lemma {:induction false} RunForward(c: Call, events: seq<Event>)
    requires AllowedRun(c, events)
    ensures StateRank(c.state) <= StateRank(Run(c, events).state)
    ensures Life(c).Finished? ==> Life(Run(c, events)).Finished?
    ensures !Life(c).Creation? ==> !Life(Run(c, events)).Creation?
    decreases |events|
  {
    if events != [] {
      StepForward(c, events[0]);
      RunForward(Step(c, events[0]), events[1..]);
    }
  }

  // ----- The peer's lists -----

  /** The contact whose lists the stage callbacks work on, and how it lists the call. */
  function Listed(c: Call): Usage {
    if c.peer.Some? then c.peer.value.usage
    else if c.dial.Some? then c.dial.value.usage
    else UNUSED
  }

  function Expected(l: LifeCycle): Usage {
    match l
    case Creation => UNUSED
    case Initializing => Usage(0, 1)
    case Progress => Usage(1, 0)
    case Finished => UNUSED
  }

  /** Listed only in the matching stage, and at most once; the dialled number exists in CREATION. */
  predicate AtMost(c: Call) {
    && Listed(c).active <= Expected(Life(c)).active
    && Listed(c).init <= Expected(Life(c)).init
    && (Life(c).Creation? ==> c.dial.Some?)
  }

  /** Listed by the peer exactly in the matching stage. */
  predicate Exactly(c: Call) {
    c.peer.Some? && c.peer.value.usage == Expected(Life(c)) && (Life(c).Creation? ==> c.dial.Some?)
  }

  lemma StageListing(c: Call, target: State)
    requires StateRank(c.state) <= StateRank(target)
    ensures AtMost(c) ==> AtMost(ChangeState(c, target))
    ensures Exactly(c) ==> Exactly(ChangeState(c, target))
  {
    StageAtMost(c, target);
    StageExactly(c, target);
  }

  lemma StageAtMost(c: Call, target: State)
    requires StateRank(c.state) <= StateRank(target)
    ensures AtMost(c) ==> AtMost(ChangeState(c, target))
  {
  }

  lemma StageExactly(c: Call, target: State)
    requires StateRank(c.state) <= StateRank(target)
    ensures Exactly(c) ==> Exactly(ChangeState(c, target))
  {
  }

  lemma SettledListing(c: Call, found: Contact)
    requires found.usage == UNUSED && !Life(c).Creation?
    ensures AtMost(c) ==> AtMost(SettleDial(c, found))
    ensures Exactly(c) ==> Exactly(SettleDial(c, found))
  {
  }

  lemma DaemonListing(c: Call, d: DaemonState, found: Contact)
    requires Validated(c.state, d) && found.usage == UNUSED
    ensures AtMost(c) ==> AtMost(DaemonEvent(c, d, found))
    ensures Exactly(c) ==> Exactly(DaemonEvent(c, d, found))
  {
    DaemonTableForward(c.state, d);
    var target := DaemonTarget(c.state, d);
    StageListing(c, target);
    StageKeepsState(c, target);
    var flagged := ChangeState(c, target).(holdOut := target.Hold?);
    StartLeavesCreation(c.state, d);
    if !LifeOf(target).Creation? {
      SettledListing(flagged, found);
      SettledState(flagged, found);
      SettledListing(SettleDial(flagged, found), found);
    }
    RaiseIsError(c.state, d);
  }

  lemma StartLeavesCreation(s: State, d: DaemonState)
    ensures DaemonCallOf(s, d).Start? || DaemonCallOf(s, d).Fail? ==> !LifeOf(DaemonTarget(s, d)).Creation?
  {
  }

  lemma PlaceListing(c: Call, reply: Reply)
    requires !Life(c).Creation? && reply.found.usage == UNUSED
    ensures AtMost(c) ==> AtMost(PlaceCall(c, reply))
    ensures Exactly(c) ==> Exactly(PlaceCall(c, reply))
  {
    if CurrentUri(c) == "" {
      AbortListing(c);
    } else {
      StageListing(c, Error);
      SendListing(c.(hasAccount := true), reply);
    }
  }

  lemma SendListing(c: Call, reply: Reply)
    requires !Life(c).Creation? && reply.found.usage == UNUSED
    ensures AtMost(c) ==> AtMost(SendCall(c, reply))
    ensures Exactly(c) ==> Exactly(SendCall(c, reply))
  {
    SettledListing(c, reply.found);
    SettledState(c, reply.found);
    StageListing(SettleDial(c, reply.found), Failure);
  }

  lemma AbortListing(c: Call)
    ensures AtMost(c) ==> AtMost(ChangeState(c, Aborted).(dial := None))
    ensures Exactly(c) ==> Exactly(ChangeState(c, Aborted).(dial := None))
  {
    StageKeepsState(c, Aborted);
    StageListing(c, Aborted);
  }

  lemma ActionListing(c: Call, a: Action, reply: Reply)
    requires CallTables.Listed(a) && reply.found.usage == UNUSED
    ensures AtMost(c) ==> AtMost(PerformAction(c, a, reply))
    ensures Exactly(c) ==> Exactly(PerformAction(c, a, reply))
  {
    ActionTableForward(c.state, a);
    var target := ActionTarget(c.state, a);
    StageKeepsState(c, target);
    StageListing(c, target);
    ActionCallListing(ChangeState(c, target), ActionCallOf(c.state, a), reply);
  }

  lemma ActionCallListing(c: Call, f: ActionCall, reply: Reply)
    requires reply.found.usage == UNUSED && (f.Place? ==> !Life(c).Creation?)
    ensures AtMost(c) ==> AtMost(RunActionCall(c, f, reply))
    ensures Exactly(c) ==> Exactly(RunActionCall(c, f, reply))
  {
    match f
    case Place => PlaceListing(c, reply);
    case RefuseCall => StageListing(c, Error);
    case Discard => StageListing(c, Error);
    case HangUp => StageListing(c, Over);
    case CancelCall => StageListing(c, Over);
    case _ =>
  }

  lemma TransferListing(c: Call, uri: string, reply: Reply)
    requires Life(c).Progress? && reply.found.usage == UNUSED
    ensures AtMost(c) ==> AtMost(TransferSteps(c, uri, reply).3)
    ensures Exactly(c) ==> Exactly(TransferSteps(c, uri, reply).3)
  {
    var t := TransferSteps(c, uri, reply);
    TransferForward(c, uri, reply);
    ActionListing(c.(transferNumber := Some(uri)), DoTransfer, reply);
    StageListing(t.0, Transferred);
    ActionListing(t.1, Accept, reply);
    StageListing(t.2, Over);
  }

  /** Typing in the dial number touches no list, and CREATION has a number to type in. */
  lemma TypedListing(c: Call, text: string)
    ensures AtMost(c) ==> AtMost(DialWith(c, text))
    ensures Exactly(c) ==> Exactly(DialWith(c, text))
    ensures DialWith(c, text).state == c.state
  {
  }

  lemma DialListing(c: Call, text: string)
    ensures AtMost(c) ==> AtMost(SetDialNumberOf(c, text))
    ensures Exactly(c) ==> Exactly(SetDialNumberOf(c, text))
  {
    TypedListing(c, text);
    var edited := DialWith(c, text);
    if c.state.New? { StageListing(edited, Dialing); }
    if c.state.Dialing? { StageListing(edited, New); }
  }

  lemma EditListing(c: Call, e: Event)
    requires e.AppendText? || e.Backspace? || e.Reset?
    ensures AtMost(c) ==> AtMost(Step(c, e))
    ensures Exactly(c) ==> Exactly(Step(c, e))
  {
    hide ChangeState;
    if Life(c).Creation? {
      StageKeepsState(c, Dialing);
      StageKeepsState(c, New);
      StageListing(c, Dialing);
      StageListing(c, New);
      if c.dial.Some? {
        TypedListing(ChangeState(c, New), "");
        if e.AppendText? {
          TypedListing(c, c.dial.value.uri + e.text);
          TypedListing(ChangeState(c, Dialing), c.dial.value.uri + e.text);
        } else if c.dial.value.uri != "" {
          TypedListing(ChangeState(c, Dialing), c.dial.value.uri[..|c.dial.value.uri| - 1]);
        }
      }
    }
    StageListing(c, Aborted);
  }

  lemma StepListing(c: Call, e: Event)
    requires Allowed(c, e)
    ensures AtMost(c) ==> AtMost(Step(c, e))
    ensures Exactly(c) ==> Exactly(Step(c, e))
  {
    match e
    case Daemon(d, found) => DaemonListing(c, d, found);
    case Perform(a, reply) => ActionListing(c, a, reply);
    case TransferTo(uri, reply) => TransferListing(c, uri, reply);
    case AttendedTransfer => StageListing(c, Over);
    case SetDialNumber(text) => DialListing(c, text);
    case SetPeer(contact) =>
      if Life(c).Creation? { DialListing(c.(peer := Some(contact)), contact.uri); }
    case SetTransferNumber(_) =>
    case _ => EditListing(c, e);
  }

  lemma {:induction false} RunListing(c: Call, events: seq<Event>)
    requires AllowedRun(c, events)
    ensures AtMost(c) ==> AtMost(Run(c, events))
    ensures Exactly(c) ==> Exactly(Run(c, events))
    decreases |events|
  {
    if events != [] {
      StepListing(c, events[0]);
      RunListing(Step(c, events[0]), events[1..]);
    }
  }

  /** The peer lists a call only in the matching stage, whatever has happened since it was built. */
  lemma ListedOnlyInStage(c: Call, events: seq<Event>)
    requires Created(c) && AllowedRun(c, events)
    ensures
      var r := Run(c, events);
      r.peer.Some? ==>
        && r.peer.value.usage.active <= 1 && r.peer.value.usage.init <= 1
        && (r.peer.value.usage.active > 0 ==> Life(r).Progress?)
        && (r.peer.value.usage.init > 0 ==> Life(r).Initializing?)
  {
    RunListing(c, events);
  }

  /** Once a peer is chosen for a new call, the lists follow the life cycle exactly. */
  lemma ListedExactlyInStage(c: Call, contact: Contact, events: seq<Event>)
    requires Created(c) && c.state.New? && contact.usage == UNUSED
    requires AllowedRun(Step(c, SetPeer(contact)), events)
    ensures
      var r := Run(Step(c, SetPeer(contact)), events);
      && r.peer.Some?
      && r.peer.value.usage.active == (if Life(r).Progress? then 1 else 0)
      && r.peer.value.usage.init == (if Life(r).Initializing? then 1 else 0)
  {
    DialListing(c.(peer := Some(contact)), contact.uri);
    RunListing(Step(c, SetPeer(contact)), events);
  }
}
