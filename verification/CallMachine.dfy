/**
  One ordinary call as a value: its state, its hold flag, the number being dialled, its peer, and
  how many times the peer lists it. Every event a call can receive is a function on that value.
 */
module CallMachine {
  import opened Options
  import opened CallTables

  /** How often one contact lists this call as active and as initialising. */
  datatype Usage = Usage(active: nat, init: nat)

  const UNUSED := Usage(0, 0)

  /** A contact seen from this call. */
  datatype Contact = Contact(uri: string, usage: Usage)

  datatype Call = Call(
    state: State,
    holdOut: bool,
    dial: Option<Contact>,            // the temporary contact being edited; None once discarded
    peer: Option<Contact>,
    transferNumber: Option<string>,
    hasAccount: bool,
    id: string)

  /** What the daemon and the directories answer while an action runs. */
  datatype Reply = Reply(
    ok: bool,                         // refuse and hang-up requests
    peerAccountReady: bool,
    defaultAccount: bool,
    placedId: string,                 // empty when the daemon cannot create the call
    found: Contact)                   // the directory entry for the dialled number

  datatype Event =
    | Daemon(d: DaemonState, found: Contact)
    | Perform(a: Action, reply: Reply)
    | SetDialNumber(text: string)
    | SetPeer(contact: Contact)
    | AppendText(text: string)
    | Backspace
    | Reset
    | SetTransferNumber(text: string)
    | TransferTo(uri: string, reply: Reply)
    | AttendedTransfer

  function Life(c: Call): LifeCycle {
    LifeOf(c.state)
  }

  // ----- Changing state -----

  /** The effect on a contact's lists of entering a life cycle stage. */
  function Listing(u: Usage, l: LifeCycle): Usage {
    match l
    case Creation => u
    case Initializing => u.(init := u.init + 1)
    case Progress => Usage(u.active + 1, 0)
    case Finished => UNUSED
  }

  function Relisted(c: Contact, l: LifeCycle): Contact {
    c.(usage := Listing(c.usage, l))
  }

  /** Stage callbacks go to the peer, or to the number being dialled when there is no peer yet. */
  function EnterStage(c: Call, l: LifeCycle): Call {
    if c.peer.Some? then c.(peer := Some(Relisted(c.peer.value, l)))
    else if c.dial.Some? then c.(dial := Some(Relisted(c.dial.value, l)))
    else c
  }

  function ChangeState(c: Call, target: State): Call {
    if c.state == target then c
    else if LifeOf(target) == Life(c) then c.(state := target)
    else EnterStage(c.(state := target), LifeOf(target))
  }

  // ----- Daemon events -----

  /** The dialled number is discarded, after it has been turned into a peer if there is none. */
  function SettleDial(c: Call, found: Contact): Call {
    if c.dial.None? then c
    else if c.peer.None? then c.(peer := Some(found), dial := None)
    else c.(dial := None)
  }

  /** The callback of a daemon event, then the discarding of the dialled number. */
  function RunDaemonCall(c: Call, f: DaemonCall, found: Contact): Call {
    if f.Raise? then ChangeState(c, Error)
    else
      var called := if f.Start? || f.Fail? then SettleDial(c, found) else c;
      if Life(called).Creation? then called else SettleDial(called, found)
  }

  function DaemonEvent(c: Call, d: DaemonState, found: Contact): Call {
    var moved := ChangeState(c, DaemonTarget(c.state, d));
    RunDaemonCall(moved.(holdOut := moved.state.Hold?), DaemonCallOf(c.state, d), found)
  }

  // ----- User actions -----

  function CurrentUri(c: Call): string {
    if c.peer.Some? then c.peer.value.uri
    else if c.dial.Some? then c.dial.value.uri
    else ""
  }

  /** The daemon is asked for a call; an empty identifier means it could not create one. */
  function SendCall(c: Call, reply: Reply): Call {
    var settled := SettleDial(c, reply.found);
    if reply.placedId == "" then ChangeState(settled, Failure).(id := "FAILED")
    else settled.(id := reply.placedId)
  }

  function PlaceCall(c: Call, reply: Reply): Call {
    if CurrentUri(c) == "" then
      ChangeState(c, Aborted).(dial := None)
    else if c.hasAccount || reply.peerAccountReady || reply.defaultAccount then
      SendCall(c.(hasAccount := true), reply)
    else
      ChangeState(c, Error)
  }

  function RunActionCall(c: Call, f: ActionCall, reply: Reply): Call {
    match f
    case RefuseCall => if reply.ok then c else ChangeState(c, Error)
    case HangUp => if reply.ok then c else ChangeState(c, Over)
    case CancelCall => if reply.ok then c else ChangeState(c, Over)
    case Discard => if Life(c).Finished? then c else ChangeState(c, Error)
    case PutOnHold => c.(holdOut := true)
    case TakeOffHold => c.(holdOut := false)
    case Place => PlaceCall(c, reply)
    case _ => c
  }

  function PerformAction(c: Call, a: Action, reply: Reply): Call {
    RunActionCall(ChangeState(c, ActionTarget(c.state, a)), ActionCallOf(c.state, a), reply)
  }

  // ----- Dial editing -----

  function DialWith(c: Call, text: string): Call {
    if c.dial.Some? then c.(dial := Some(c.dial.value.(uri := text))) else c
  }

  function SetDialNumberOf(c: Call, text: string): Call {
    if !Life(c).Creation? then c
    else
      var edited := DialWith(c, text);
      if text != "" && c.state.New? then ChangeState(edited, Dialing)
      else if text == "" && c.state.Dialing? then ChangeState(edited, New)
      else edited
  }

  function SetPeerOf(c: Call, contact: Contact): Call {
    if !Life(c).Creation? then c
    else SetDialNumberOf(c.(peer := Some(contact)), contact.uri)
  }

  predicate Transferring(s: State) {
    s.Transferred? || s.TransfHold?
  }

  function AppendTo(c: Call, text: string): Call {
    if Transferring(c.state) then
      if c.transferNumber.Some? then c.(transferNumber := Some(c.transferNumber.value + text)) else c
    else if Life(c).Creation? then
      var moved := if text == "" then c else ChangeState(c, Dialing);
      if c.dial.Some? then DialWith(moved, c.dial.value.uri + text) else moved
    else c
  }

  function EraseLast(c: Call): Call {
    if Transferring(c.state) then
      if c.transferNumber.None? then c
      else if c.transferNumber.value == "" then ChangeState(c, Aborted)
      else c.(transferNumber := Some(c.transferNumber.value[..|c.transferNumber.value| - 1]))
    else if Life(c).Creation? && c.dial.Some? then
      var uri := c.dial.value.uri;
      if uri == "" then ChangeState(c, Aborted)
      else DialWith(ChangeState(c, Dialing), uri[..|uri| - 1])
    else c
  }

  function ClearText(c: Call): Call {
    if Transferring(c.state) then
      if c.transferNumber.Some? then c.(transferNumber := Some("")) else c
    else if Life(c).Creation? then DialWith(ChangeState(c, New), "")
    else c
  }

  // ----- Transfers -----

  /** The four calls made by a transfer, one after the other. */
  function TransferSteps(c: Call, uri: string, reply: Reply): (Call, Call, Call, Call) {
    var asked := PerformAction(c.(transferNumber := Some(uri)), DoTransfer, reply);
    var moved := ChangeState(asked, Transferred);
    var accepted := PerformAction(moved, Accept, reply);
    (asked, moved, accepted, ChangeState(accepted, Over))
  }

  lemma TransferCallsNothing(s: State)
    ensures ActionCallOf(s, DoTransfer) != Place
    ensures s.Transferred? ==> ActionCallOf(s, Accept) != Place
  {
  }

  // ----- One step -----

  function Step(c: Call, e: Event): Call {
    match e
    case Daemon(d, found) => DaemonEvent(c, d, found)
    case Perform(a, reply) => PerformAction(c, a, reply)
    case SetDialNumber(text) => SetDialNumberOf(c, text)
    case SetPeer(contact) => SetPeerOf(c, contact)
    case AppendText(text) => AppendTo(c, text)
    case Backspace => EraseLast(c)
    case Reset => ClearText(c)
    case SetTransferNumber(text) => c.(transferNumber := Some(text))
    case TransferTo(uri, reply) => TransferSteps(c, uri, reply).3
    case AttendedTransfer => ChangeState(c, Over)
  }

  /**
    The states that a call passes through. Typing and clearing numbers only ever reaches NEW, DIALING and
    ABORTED on the way, so its last state stands for all of them.
   */
  function Path(c: Call, e: Event): seq<State> {
    match e
    case Daemon(d, _) => [DaemonTarget(c.state, d), Step(c, e).state]
    case Perform(a, _) => [ActionTarget(c.state, a), Step(c, e).state]
    case TransferTo(uri, reply) =>
      var t := TransferSteps(c, uri, reply);
      [ActionTarget(c.state, DoTransfer), t.0.state, t.1.state, ActionTarget(t.1.state, Accept), t.2.state, t.3.state]
    case _ => [Step(c, e).state]
  }

  /** Placing a call for the second time reads the discarded dial number. */
  predicate Placeable(c: Call, a: Action) {
    a.Accept? && c.state.Initialization? ==> c.dial.Some? || CurrentUri(c) == ""
  }

  /**
    What the source asks of an event: daemon transitions are validated, actions have a column in the
    state table, transfers start while the peers talk, and contacts do not list the call yet.
   */
  predicate Allowed(c: Call, e: Event) {
    match e
    case Daemon(d, found) => Validated(c.state, d) && found.usage == UNUSED
    case Perform(a, reply) => Listed(a) && Placeable(c, a) && reply.found.usage == UNUSED
    case SetPeer(contact) => contact.usage == UNUSED
    case TransferTo(_, reply) => Life(c).Progress? && reply.found.usage == UNUSED
    case _ => true
  }

  // ----- Runs -----

  function Run(c: Call, events: seq<Event>): Call
    decreases |events|
  {
    if events == [] then c else Run(Step(c, events[0]), events[1..])
  }

  predicate AllowedRun(c: Call, events: seq<Event>)
    decreases |events|
  {
    events != [] ==> Allowed(c, events[0]) && AllowedRun(Step(c, events[0]), events[1..])
  }

  /** Constructors: the dialled number exists from the start and no list holds the call. */
  predicate Created(c: Call) {
    && c.dial.Some? && c.dial.value.usage == UNUSED
    && (c.peer.Some? ==> c.peer.value.usage == UNUSED)
    && !c.holdOut && c.transferNumber.None?
  }
}
