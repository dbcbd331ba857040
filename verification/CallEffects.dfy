/** What each event does to a call: the state it ends in, its hold flag and the lists of its contact. */
module CallEffects {
  import opened Options
  import opened CallTables
  import opened CallMachine
  import opened CallRuns

  predicate Initialising(c: Call) { Life(c).Initializing? }
  predicate Talking(c: Call) { Life(c).Progress? }
  predicate Ended(c: Call) { Life(c).Finished? }

  /** The state of a talking call without the conference it was in. */
  function Apart(s: State): State {
    match s
    case Conference => Current
    case ConferenceHold => Hold
    case _ => s
  }

  // ----- Daemon events -----

  /** Hanging up, and the other ways to end, end every call that has begun, under their own names. */
  lemma EndingEvents(c: Call, d: DaemonState, found: Contact)
    requires Validated(c.state, d) && (Initialising(c) || Talking(c))
    ensures
      var r := DaemonEvent(c, d, found);
      && (d.DHungUp? || d.DOver? ==> r.state.Over?)
      && (d.DFailure? ==> r.state.Failure?)
      && (d.DBusy? ==> r.state.Busy? && Initialising(c))
  {
    hide DaemonEvent;
    DaemonLands(c, d, found);
  }

  /** CURRENT and HOLD lead there from every call that has begun; a transfer stays a transfer. */
  lemma TalkingEvents(c: Call, d: DaemonState, found: Contact)
    requires Validated(c.state, d) && (Initialising(c) || Talking(c))
    ensures
      var r := DaemonEvent(c, d, found);
      && (d.DCurrent? ==> r.state == if Transferring(c.state) then Transferred else Current)
      && (d.DHold? ==> r.state == if Transferring(c.state) then TransfHold else Hold)
      && (d.DRinging? && Talking(c) ==> Talking(r) && r.state == Apart(c.state))
      && ((d.DConnecting? || d.DInactive?) && Talking(c) ==> r.state.Error?)
  {
    hide DaemonEvent;
    DaemonLands(c, d, found);
  }

  /** Before the peers talk, a call rings, connects, or stays as it is. */
  lemma RingingEvents(c: Call, d: DaemonState, found: Contact)
    requires Validated(c.state, d) && Initialising(c)
    ensures
      var r := DaemonEvent(c, d, found);
      && (d.DRinging? ==> r.state == if c.state.Incoming? then State.Incoming else Ringing)
      && (d.DConnecting? ==>
            r.state == if c.state.Incoming? then Error else if c.state.Ringing? then Connected else c.state)
      && (d.DInactive? ==> r.state == c.state)
  {
    hide DaemonEvent;
    DaemonLands(c, d, found);
  }

  /** A call that is being created can only be started, or fail. */
  lemma CreationEvents(c: Call, d: DaemonState, found: Contact)
    requires Validated(c.state, d) && Life(c).Creation?
    ensures
      var r := DaemonEvent(c, d, found);
      r.state == if c.state.New? && d.DInactive? then Initialization
                 else if c.state.Dialing? && d.DRinging? then Ringing
                 else Error
  {
    hide DaemonEvent;
    DaemonLands(c, d, found);
  }

  /** A call that has ended stays ended; only busy and failed calls still take notice. */
  lemma EndedEvents(c: Call, d: DaemonState, found: Contact)
    requires Validated(c.state, d) && Ended(c)
    ensures
      var r := DaemonEvent(c, d, found);
      && Ended(r)
      && (c.state.Over? ==> r.state == if d.DInactive? then Error else Over)
      && (c.state.Error? || c.state.Aborted? ==> r.state.Error?)
      && (c.state.Failure? || c.state.Busy? ==>
            && (d.DHungUp? ==> r.state.Over?)
            && (d.DConnecting? || d.DInactive? ==> r.state.Error?)
            && (d.DFailure? ==> r.state.Failure?)
            && (d.DBusy? ==> r.state.Busy?)
            && (d.DOver? ==> r.state == if c.state.Busy? then Over else Failure)
            && (d.DRinging? || d.DHold? || d.DCurrent? ==> r.state == c.state))
  {
    hide DaemonEvent;
    DaemonLands(c, d, found);
  }

  /** The hold flag is set exactly while the call is in HOLD. */
  lemma HoldFlag(c: Call, d: DaemonState, found: Contact)
    ensures DaemonEvent(c, d, found).holdOut <==> DaemonEvent(c, d, found).state.Hold?
  {
    hide LifeOf, DaemonTarget, DaemonCallOf;
    var target := DaemonTarget(c.state, d);
    DaemonLands(c, d, found);
    StageKeepsState(c, target);
    RaiseIsError(c.state, d);
  }

  /** A call that ends leaves the lists of its peer, and a dialled number becomes the peer that does not list it. */
  lemma EndLeavesLists(c: Call, d: DaemonState, found: Contact)
    requires Validated(c.state, d) && !Ended(c) && Ended(DaemonEvent(c, d, found))
    ensures
      var r := DaemonEvent(c, d, found);
      && r.dial.None?
      && (c.peer.Some? ==> r.peer == Some(c.peer.value.(usage := UNUSED)))
      && (c.peer.None? && c.dial.Some? ==> r.peer == Some(found))
      && (c.peer.None? && c.dial.None? ==> r.peer.None?)
  {
    hide DaemonTarget, DaemonCallOf;
    NoRaise(c.state, d);
    DaemonLands(c, d, found);
    var target := DaemonTarget(c.state, d);
    StageKeepsState(c, target);
    SettledState(ChangeState(c, target).(holdOut := target.Hold?), found);
  }

  lemma NoRaise(s: State, d: DaemonState)
    requires !LifeOf(s).Finished?
    ensures !DaemonCallOf(s, d).Raise?
  {
  }

  /** A talking call that the daemon hangs up is over, and its peer does not list it any more. */
  lemma HangUpEnds(c: Call, found: Contact)
    requires Initialising(c) || Talking(c)
    ensures Validated(c.state, ToDaemonState("HUNGUP"))
    ensures
      var r := DaemonEvent(c, ToDaemonState("HUNGUP"), found);
      && r.state.Over? && !r.holdOut
      && (c.peer.Some? ==> r.peer.Some? && r.peer.value.uri == c.peer.value.uri && r.peer.value.usage == UNUSED)
  {
    assert ToDaemonState("HUNGUP") == DHungUp;
    HangUpValid(c.state);
    EndingEvents(c, DHungUp, found);
    HoldFlag(c, DHungUp, found);
    EndLeavesLists(c, DHungUp, found);
  }

  lemma HangUpValid(s: State)
    requires LifeOf(s).Initializing? || LifeOf(s).Progress?
    ensures Validated(s, DHungUp)
  {
  }

  /** What the names of the daemon do to a call that is talking. */
  lemma TalkingNames(c: Call, name: string, found: Contact)
    requires Talking(c) && Validated(c.state, ToDaemonState(name))
    ensures
      var r := DaemonEvent(c, ToDaemonState(name), found).state;
      if name == "CURRENT" || name == "UNHOLD" then r == if Transferring(c.state) then Transferred else Current
      else if name == "HOLD" then r == if Transferring(c.state) then TransfHold else Hold
      else if name == "RINGING" || name == "INCOMING" then r == Apart(c.state)
      else if name == "HUNGUP" || name == "OVER" then r == Over
      else if name == "CONNECTING" || name == "INACTIVE" then r == Error
      else r == Failure && name != "BUSY"
  {
    EndingEvents(c, ToDaemonState(name), found);
    TalkingEvents(c, ToDaemonState(name), found);
  }

  /** A call found at start-up is where the event of that name would have taken it; four names differ. */
  lemma StartNames(c: Call, name: string, outgoing: bool, found: Contact)
    requires c.state.Initialization?
    ensures StartState(name, outgoing) == DaemonEvent(c, ToDaemonState(name), found).state <==>
            name != "INCOMING" && name != "CONNECTING" && name != "HUNGUP" && name != "OVER" && name != "UNHOLD"
  {
    hide DaemonEvent;
    DaemonLands(c, ToDaemonState(name), found);
  }

  // ----- User actions -----

  /** The state after a callback that does not place a call. */
  lemma CallbackState(c: Call, f: ActionCall, reply: Reply)
    requires !f.Place?
    ensures RunActionCall(c, f, reply).state ==
            if f.RefuseCall? && !reply.ok then Error
            else if (f.HangUp? || f.CancelCall?) && !reply.ok then Over
            else if f.Discard? && !Ended(c) then Error
            else c.state
  {
    StageKeepsState(c, Error);
    StageKeepsState(c, Over);
  }

  lemma ActionState(c: Call, a: Action, reply: Reply)
    requires !ActionCallOf(c.state, a).Place?
    ensures
      var target, f := ActionTarget(c.state, a), ActionCallOf(c.state, a);
      PerformAction(c, a, reply).state ==
        if f.RefuseCall? && !reply.ok then Error
        else if (f.HangUp? || f.CancelCall?) && !reply.ok then Over
        else if f.Discard? && !LifeOf(target).Finished? then Error
        else target
  {
    hide ActionTarget, ActionCallOf, LifeOf, RunActionCall;
    StageKeepsState(c, ActionTarget(c.state, a));
    CallbackState(ChangeState(c, ActionTarget(c.state, a)), ActionCallOf(c.state, a), reply);
  }

  /** Accepting dials, places, or waits for the daemon; anywhere else it is an error. */
  lemma AcceptDoes(c: Call, reply: Reply)
    ensures
      var r := PerformAction(c, Accept, reply);
      match c.state
      case New => r.state == Dialing
      case Dialing => r.state == Placing(c, reply)
      case Initialization => r.state == Placing(c, reply)
      case Incoming => r.state == c.state
      case Transferred => r.state == c.state
      case TransfHold => r.state == c.state
      case _ => r.state == Error
  {
    if c.state.Dialing? || c.state.Initialization? {
      PlacingDoes(c, reply);
    } else {
      ActionState(c, Accept, reply);
    }
  }

  /** How placing a call ends. */
  function Placing(c: Call, reply: Reply): State {
    if CurrentUri(c) == "" then Aborted
    else if !c.hasAccount && !reply.peerAccountReady && !reply.defaultAccount then Error
    else if reply.placedId == "" then Failure
    else Initialization
  }

  lemma PlacingDoes(c: Call, reply: Reply)
    requires c.state.Dialing? || c.state.Initialization?
    ensures PerformAction(c, Accept, reply).state == Placing(c, reply)
  {
    hide SettleDial;
    StageKeepsState(c, Initialization);
    var begun := ChangeState(c, Initialization);
    SameNumber(c, Initialization);
    StageKeepsState(begun, Aborted);
    StageKeepsState(begun, Error);
    SettledState(begun.(hasAccount := true), reply.found);
    StageKeepsState(SettleDial(begun.(hasAccount := true), reply.found), Failure);
    hide ChangeState;
  }

  lemma SameNumber(c: Call, target: State)
    ensures CurrentUri(ChangeState(c, target)) == CurrentUri(c)
    ensures ChangeState(c, target).hasAccount == c.hasAccount && ChangeState(c, target).holdOut == c.holdOut
  {
  }

  /** Refusing gives up a call that is being created, and asks the daemon to end one that has begun. */
  lemma RefuseDoes(c: Call, reply: Reply)
    ensures
      var r := PerformAction(c, Refuse, reply);
      && (Life(c).Creation? ==> r.state.Aborted?)
      && (c.state.Incoming? ==> r.state == if reply.ok then c.state else Error)
      && (Talking(c) || c.state.Ringing? || c.state.Busy? ==> r.state == if reply.ok then Apart(c.state) else Over)
      && (c.state.Initialization? || c.state.Connected? || c.state.Failure? ==> r.state.Over?)
      && (c.state.Error? || c.state.Over? ==> r.state.Error?)
      && (c.state.Aborted? ==> r.state == if reply.ok then Error else Over)
  {
    ActionState(c, Refuse, reply);
  }

  /** A transfer is asked for, or taken back, by a talking call only. */
  lemma TransferDoes(c: Call, reply: Reply)
    ensures
      var r := PerformAction(c, DoTransfer, reply);
      r.state == if c.state.Transferred? then Current
                 else if c.state.TransfHold? then Hold
                 else if Talking(c) then (if Apart(c.state).Hold? then TransfHold else Transferred)
                 else Error
  {
    ActionState(c, DoTransfer, reply);
  }

  /** Asking twice is as good as not asking. */
  lemma TransferTwice(c: Call, reply: Reply, again: Reply)
    requires Talking(c)
    ensures PerformAction(PerformAction(c, DoTransfer, reply), DoTransfer, again).state == Apart(c.state)
  {
    hide PerformAction;
    TransferDoes(c, reply);
    TransferDoes(PerformAction(c, DoTransfer, reply), again);
  }

  /** A talking call stays in its state, and the flag says what was asked for. */
  lemma HoldDoes(c: Call, reply: Reply)
    ensures
      var r := PerformAction(c, DoHold, reply);
      && r.state == (if Talking(c) || c.state.Incoming? then Apart(c.state) else Error)
      && r.holdOut == if Talking(c) then !(Apart(c.state).Hold? || c.state.TransfHold?) else c.holdOut
  {
    ActionState(c, DoHold, reply);
    SameNumber(c, ActionTarget(c.state, DoHold));
  }

  /** Recording leaves a call with media alone. */
  lemma RecordDoes(c: Call, reply: Reply)
    ensures
      var r := PerformAction(c, RecordAudio, reply);
      && r.state == (if Talking(c) || c.state.Incoming? || c.state.Ringing? then Apart(c.state) else Error)
      && r.holdOut == c.holdOut
  {
    ActionState(c, RecordAudio, reply);
    SameNumber(c, ActionTarget(c.state, RecordAudio));
  }

  // ----- Typing -----

  function Typed(text: string): seq<Event> {
    if text == "" then [] else [AppendText([text[0]])] + Typed(text[1..])
  }

  function Erased(n: nat): seq<Event> {
    if n == 0 then [] else [Backspace] + Erased(n - 1)
  }

  /** A call in CREATION with some number in its dial field. */
  function Dialled(c: Call, state: State, text: string): Call
    requires c.dial.Some?
  {
    c.(state := state, dial := Some(c.dial.value.(uri := text)))
  }

  /** Within CREATION a state change calls nothing back. */
  lemma CreationMoves(c: Call, target: State)
    requires Life(c).Creation? && LifeOf(target).Creation?
    ensures ChangeState(c, target) == c.(state := target)
  {
  }

  lemma NothingTyped(c: Call)
    ensures Run(c, Typed("")) == c
  {
  }

  lemma FirstTyped(c: Call, text: string)
    requires text != ""
    ensures Run(c, Typed(text)) == Run(Step(c, AppendText([text[0]])), Typed(text[1..]))
  {
    hide Step;
    assert Typed(text)[0] == AppendText([text[0]]) && Typed(text)[1..] == Typed(text[1..]);
  }

  lemma FirstErased(c: Call, n: nat)
    ensures Run(c, Erased(n)) == if n == 0 then c else Run(Step(c, Backspace), Erased(n - 1))
  {
    hide Step;
    if n > 0 {
      assert Erased(n)[0] == Backspace && Erased(n)[1..] == Erased(n - 1);
    }
  }

  lemma HeadTail(was: string, text: string)
    requires text != ""
    ensures was + [text[0]] + text[1..] == was + text
  {
    assert [text[0]] + text[1..] == text;
  }

  lemma CutTwice(was: string, n: nat)
    requires 0 < n <= |was|
    ensures was[..|was| - 1][..|was| - 1 - (n - 1)] == was[..|was| - n]
  {
  }

  lemma DialOne(c: Call, text: string)
    requires Life(c).Creation? && c.dial.Some?
    ensures text != "" ==> Step(c, AppendText(text)) == Dialled(c, Dialing, c.dial.value.uri + text)
    ensures
      var uri := c.dial.value.uri;
      uri != "" ==> Step(c, Backspace) == Dialled(c, Dialing, uri[..|uri| - 1])
  {
    hide ChangeState;
    CreationMoves(c, Dialing);
  }

  /** Typing a number letter by letter leaves that number in the dial field, and nothing else is touched. */
  lemma {:induction false} TypingDials(c: Call, text: string)
    requires Life(c).Creation? && c.dial.Some?
    ensures Run(c, Typed(text)) == Dialled(c, if text == "" then c.state else Dialing, c.dial.value.uri + text)
    decreases |text|
  {
    hide Run, Typed, Step;
    if text == "" {
      NothingTyped(c);
      assert c.dial.value.uri + text == c.dial.value.uri;
    } else {
      FirstTyped(c, text);
      DialOne(c, [text[0]]);
      HeadTail(c.dial.value.uri, text);
      TypingDials(Step(c, AppendText([text[0]])), text[1..]);
    }
  }

  /** Erasing takes the last letters off; the call goes on being dialled, even with none left. */
  lemma {:induction false} ErasingDials(c: Call, n: nat)
    requires Life(c).Creation? && c.dial.Some? && n <= |c.dial.value.uri|
    ensures Run(c, Erased(n))
         == Dialled(c, if n == 0 then c.state else Dialing, c.dial.value.uri[..|c.dial.value.uri| - n])
    decreases n
  {
    hide Run, Erased, Step;
    var uri := c.dial.value.uri;
    FirstErased(c, n);
    if n == 0 {
      assert uri[..|uri|] == uri;
    } else {
      DialOne(c, "");
      CutTwice(uri, n);
      ErasingDials(Step(c, Backspace), n - 1);
    }
  }

  /** Erasing what was typed brings the number back; one more erasure of an empty number aborts the call. */
  lemma TypedThenErased(c: Call, text: string)
    requires Life(c).Creation? && c.dial.Some?
    ensures
      var r := Run(Run(c, Typed(text)), Erased(|text|));
      && r == Dialled(c, if text == "" then c.state else Dialing, c.dial.value.uri)
      && (c.dial.value.uri == "" ==> Step(r, Backspace).state.Aborted?)
  {
    hide Run, Typed, Erased, Step;
    var uri := c.dial.value.uri;
    var t := Run(c, Typed(text));
    TypingDials(c, text);
    ErasingDials(t, |text|);
    assert (uri + text)[..|uri + text| - |text|] == uri;
    EmptyAborts(Run(t, Erased(|text|)));
  }

  lemma EmptyAborts(c: Call)
    requires Life(c).Creation? && c.dial.Some?
    ensures c.dial.value.uri == "" ==> Step(c, Backspace).state.Aborted?
  {
    StageKeepsState(c, Aborted);
  }

  lemma OneLetter(c: Call, text: string)
    requires Transferring(c.state) && c.transferNumber.Some?
    ensures Step(c, AppendText(text)) == c.(transferNumber := Some(c.transferNumber.value + text))
    ensures
      var was := c.transferNumber.value;
      was != "" ==> Step(c, Backspace) == c.(transferNumber := Some(was[..|was| - 1]))
  {
    hide ChangeState;
  }

  /** In a transfer, typing and erasing work on the transfer number, and the dial field is left alone. */
  lemma {:induction false} TypingTransfers(c: Call, text: string)
    requires Transferring(c.state) && c.transferNumber.Some?
    ensures Run(c, Typed(text)) == c.(transferNumber := Some(c.transferNumber.value + text))
    decreases |text|
  {
    hide Run, Typed, Step;
    var was := c.transferNumber.value;
    if text == "" {
      NothingTyped(c);
      assert was + text == was;
    } else {
      FirstTyped(c, text);
      OneLetter(c, [text[0]]);
      HeadTail(was, text);
      TypingTransfers(Step(c, AppendText([text[0]])), text[1..]);
    }
  }

  lemma {:induction false} ErasingTransfers(c: Call, n: nat)
    requires Transferring(c.state) && c.transferNumber.Some? && n <= |c.transferNumber.value|
    ensures Run(c, Erased(n))
         == c.(transferNumber := Some(c.transferNumber.value[..|c.transferNumber.value| - n]))
    decreases n
  {
    hide Run, Erased, Step;
    var was := c.transferNumber.value;
    FirstErased(c, n);
    if n == 0 {
      assert was[..|was|] == was;
    } else {
      OneLetter(c, "");
      CutTwice(was, n);
      ErasingTransfers(Step(c, Backspace), n - 1);
    }
  }

  /** A number set at once replaces what was typed, and an empty one takes the call back to NEW; so does a reset. */
  lemma NumberDecides(c: Call, typed: string, text: string)
    requires Life(c).Creation? && c.dial.Some?
    ensures
      var d := Run(c, Typed(typed));
      && Step(d, SetDialNumber(text)) == Dialled(c, if text == "" then New else Dialing, text)
      && Step(d, Reset) == Dialled(c, New, "")
  {
    TypingDials(c, typed);
    CreationMoves(Dialled(c, c.state, text), New);
    CreationMoves(Dialled(c, c.state, text), Dialing);
    CreationMoves(Dialled(c, Dialing, text), New);
    CreationMoves(c, New);
    CreationMoves(Run(c, Typed(typed)), New);
  }

  /** Choosing a peer dials its number. */
  lemma PeerDialled(c: Call, contact: Contact)
    requires Life(c).Creation? && c.dial.Some?
    ensures Step(c, SetPeer(contact))
         == Dialled(c, if contact.uri == "" then New else Dialing, contact.uri).(peer := Some(contact))
  {
    var with := c.(peer := Some(contact));
    CreationMoves(Dialled(with, c.state, contact.uri), New);
    CreationMoves(Dialled(with, c.state, contact.uri), Dialing);
  }
}
