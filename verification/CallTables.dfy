/** The constant tables of a call: states, life cycle, transitions and callbacks. */
module CallTables {

  datatype State =
    | New | Incoming | Ringing | Current | Dialing | Hold | Failure | Busy | Transferred | TransfHold
    | Over | Error | Conference | ConferenceHold | Initialization | Aborted | Connected

  datatype LifeCycle = Creation | Initializing | Progress | Finished

  datatype Action = Accept | Refuse | DoTransfer | DoHold | RecordAudio | RecordVideo | RecordText

  datatype DaemonState =
    | DRinging | DConnecting | DCurrent | DBusy | DHold | DHungUp | DFailure | DOver | DInactive

  /** The functions that an action may trigger. */
  datatype ActionCall =
    | Idle | AbortCall | AcceptCall | RefuseCall | AcceptTransfer | AcceptHold | HangUp | Place
    | TransferCall | PutOnHold | TakeOffHold | ToggleRecord | Discard | CancelCall

  /** The functions that a daemon event may trigger. */
  datatype DaemonCall = Nothing | Start | StartWeird | StartStop | Fail | Stop | Warn | Raise

  function LifeOf(s: State): LifeCycle {
    match s
    case New => Creation
    case Incoming => Initializing
    case Ringing => Initializing
    case Current => Progress
    case Dialing => Creation
    case Hold => Progress
    case Failure => Finished
    case Busy => Finished
    case Transferred => Progress
    case TransfHold => Progress
    case Over => Finished
    case Error => Finished
    case Conference => Progress
    case ConferenceHold => Progress
    case Initialization => Initializing
    case Aborted => Finished
    case Connected => Initializing
  }

  /** Position of a life cycle stage in the forward-only progression. */
  function Rank(l: LifeCycle): nat {
    match l
    case Creation => 0
    case Initializing => 1
    case Progress => 2
    case Finished => 3
  }

  function StateRank(s: State): nat {
    Rank(LifeOf(s))
  }

  /** Columns ACCEPT, REFUSE, TRANSFER, HOLD and RECORD of the action table. */
  function ActionRow(s: State): (State, State, State, State, State) {
    match s
    case New => (Dialing, Aborted, Error, Error, Error)
    case Incoming => (Incoming, Incoming, Error, Incoming, Incoming)
    case Ringing => (Error, Ringing, Error, Error, Ringing)
    case Current => (Error, Current, Transferred, Current, Current)
    case Dialing => (Initialization, Aborted, Error, Error, Error)
    case Hold => (Error, Hold, TransfHold, Hold, Hold)
    case Failure => (Error, Over, Error, Error, Error)
    case Busy => (Error, Busy, Error, Error, Error)
    case Transferred => (Transferred, Transferred, Current, Transferred, Transferred)
    case TransfHold => (TransfHold, TransfHold, Hold, TransfHold, TransfHold)
    case Over => (Error, Error, Error, Error, Error)
    case Error => (Error, Error, Error, Error, Error)
    case Conference => (Error, Current, Transferred, Current, Current)
    case ConferenceHold => (Error, Hold, TransfHold, Hold, Hold)
    case Initialization => (Initialization, Over, Error, Error, Error)
    case Aborted => (Error, Error, Error, Error, Error)
    case Connected => (Error, Over, Error, Error, Error)
  }

  /** True for the five actions that the state table gives a column to. */
  predicate Listed(a: Action) {
    a.Accept? || a.Refuse? || a.DoTransfer? || a.DoHold? || a.RecordAudio?
  }

  /** The table has seven columns and initialises five: the last two hold the zero state. */
  function ActionTarget(s: State, a: Action): State {
    var row := ActionRow(s);
    match a
    case Accept => row.0
    case Refuse => row.1
    case DoTransfer => row.2
    case DoHold => row.3
    case RecordAudio => row.4
    case RecordVideo => New
    case RecordText => New
  }

  /** Columns ACCEPT, REFUSE, TRANSFER and HOLD of the action callbacks. */
  function ActionCallRow(s: State): (ActionCall, ActionCall, ActionCall, ActionCall) {
    match s
    case New => (Idle, AbortCall, Idle, Idle)
    case Incoming => (AcceptCall, RefuseCall, AcceptTransfer, AcceptHold)
    case Ringing => (Idle, HangUp, Idle, Idle)
    case Current => (Idle, HangUp, Idle, PutOnHold)
    case Dialing => (Place, AbortCall, Idle, Idle)
    case Hold => (Idle, HangUp, Idle, TakeOffHold)
    case Failure => (Idle, Discard, Idle, Idle)
    case Busy => (Idle, HangUp, Idle, Idle)
    case Transferred => (TransferCall, HangUp, TransferCall, PutOnHold)
    case TransfHold => (TransferCall, HangUp, TransferCall, TakeOffHold)
    case Over => (Idle, Idle, Idle, Idle)
    case Error => (Idle, Discard, Idle, Idle)
    case Conference => (Idle, HangUp, Idle, PutOnHold)
    case ConferenceHold => (Idle, HangUp, Idle, TakeOffHold)
    case Initialization => (Place, CancelCall, Idle, Idle)
    case Aborted => (Idle, CancelCall, Idle, Idle)
    case Connected => (Idle, CancelCall, Idle, Idle)
  }

  /** The two recording columns toggle a recording in every state where media exist. */
  function RecordCall(s: State): ActionCall {
    match s
    case Incoming => ToggleRecord
    case Ringing => ToggleRecord
    case Current => ToggleRecord
    case Hold => ToggleRecord
    case Transferred => ToggleRecord
    case TransfHold => ToggleRecord
    case Conference => ToggleRecord
    case ConferenceHold => ToggleRecord
    case _ => Idle
  }

  function ActionCallOf(s: State, a: Action): ActionCall {
    var row := ActionCallRow(s);
    match a
    case Accept => row.0
    case Refuse => row.1
    case DoTransfer => row.2
    case DoHold => row.3
    case RecordAudio => RecordCall(s)
    case RecordVideo => RecordCall(s)
    case RecordText => Idle
  }

  /** Columns RINGING, CONNECTING, CURRENT, BUSY, HOLD, HUNGUP, FAILURE, OVER and INACTIVE. */
  function DaemonRow(s: State): (State, State, State, State, State, State, State, State, State) {
    match s
    case New => (Error, Error, Error, Error, Error, Error, Error, Error, Initialization)
    case Incoming => (Incoming, Error, Current, Busy, Hold, Over, Failure, Over, Incoming)
    case Ringing => (Ringing, Connected, Current, Busy, Hold, Over, Failure, Over, Ringing)
    case Current => (Current, Error, Current, Busy, Hold, Over, Failure, Over, Error)
    case Dialing => (Ringing, Error, Current, Busy, Hold, Over, Failure, Over, Error)
    case Hold => (Hold, Error, Current, Busy, Hold, Over, Failure, Over, Error)
    case Failure => (Failure, Error, Failure, Busy, Failure, Over, Failure, Failure, Error)
    case Busy => (Busy, Error, Current, Busy, Busy, Over, Failure, Over, Error)
    case Transferred => (Transferred, Error, Transferred, Busy, TransfHold, Over, Failure, Over, Error)
    case TransfHold => (TransfHold, Error, Transferred, Busy, TransfHold, Over, Failure, Over, Error)
    case Over => (Over, Over, Over, Over, Over, Over, Over, Over, Error)
    case Error => (Error, Error, Error, Error, Error, Error, Error, Error, Error)
    case Conference => (Current, Error, Current, Busy, Hold, Over, Failure, Over, Error)
    case ConferenceHold => (Hold, Error, Current, Busy, Hold, Over, Failure, Over, Error)
    case Initialization => (Ringing, Initialization, Current, Busy, Hold, Over, Failure, Over, Initialization)
    case Aborted => (Error, Error, Error, Error, Error, Error, Error, Error, Error)
    case Connected => (Ringing, Connected, Current, Busy, Hold, Over, Failure, Over, Connected)
  }

  function DaemonTarget(s: State, d: DaemonState): State {
    var row := DaemonRow(s);
    match d
    case DRinging => row.0
    case DConnecting => row.1
    case DCurrent => row.2
    case DBusy => row.3
    case DHold => row.4
    case DHungUp => row.5
    case DFailure => row.6
    case DOver => row.7
    case DInactive => row.8
  }

  /** Same columns as DaemonRow without INACTIVE, which never calls anything. */
  function DaemonCallRow(s: State)
    : (DaemonCall, DaemonCall, DaemonCall, DaemonCall, DaemonCall, DaemonCall, DaemonCall, DaemonCall)
  {
    match s
    case New => (Nothing, Nothing, Nothing, Nothing, Nothing, Nothing, Nothing, Nothing)
    case Incoming => (Nothing, Nothing, Start, StartWeird, StartWeird, StartStop, Fail, Fail)
    case Ringing => (Nothing, Nothing, Start, Fail, Start, StartStop, Fail, Fail)
    case Current => (Nothing, Nothing, Nothing, Warn, Nothing, Stop, Nothing, Stop)
    case Dialing => (Nothing, Nothing, Warn, Warn, Warn, Stop, Warn, Stop)
    case Hold => (Nothing, Nothing, Nothing, Warn, Nothing, Stop, Nothing, Stop)
    case Failure => (Nothing, Nothing, Warn, Warn, Warn, Stop, Nothing, Nothing)
    case Busy => (Nothing, Nothing, Nothing, Nothing, Warn, Stop, Nothing, Stop)
    case Transferred => (Nothing, Nothing, Nothing, Warn, Nothing, Stop, Nothing, Stop)
    case TransfHold => (Nothing, Nothing, Nothing, Warn, Nothing, Stop, Nothing, Stop)
    case Over => (Nothing, Nothing, Warn, Warn, Warn, Stop, Warn, Nothing)
    case Error => (Raise, Raise, Raise, Raise, Raise, Stop, Raise, Raise)
    case Conference => (Nothing, Nothing, Nothing, Warn, Nothing, Stop, Nothing, Stop)
    case ConferenceHold => (Nothing, Nothing, Nothing, Warn, Nothing, Stop, Nothing, Stop)
    case Initialization => (Nothing, Nothing, Warn, Warn, Warn, Stop, Warn, Stop)
    case Aborted => (Raise, Raise, Raise, Raise, Raise, Raise, Raise, Raise)
    case Connected => (Nothing, Nothing, Warn, Warn, Warn, Stop, Warn, Stop)
  }

  function DaemonCallOf(s: State, d: DaemonState): DaemonCall {
    var row := DaemonCallRow(s);
    match d
    case DRinging => row.0
    case DConnecting => row.1
    case DCurrent => row.2
    case DBusy => row.3
    case DHold => row.4
    case DHungUp => row.5
    case DFailure => row.6
    case DOver => row.7
    case DInactive => Nothing
  }

  /** Columns CREATION, INITIALIZATION, PROGRESS and FINISHED of the validation table. */
  function ValidationRow(target: State): (bool, bool, bool, bool) {
    match target
    case New => (true, true, false, false)
    case Incoming => (false, true, false, false)
    case Ringing => (true, true, false, false)
    case Current => (false, true, true, false)
    case Dialing => (true, true, false, false)
    case Hold => (false, true, true, false)
    case Failure => (false, true, true, true)
    case Busy => (false, true, false, true)
    case Transferred => (false, false, true, false)
    case TransfHold => (false, false, true, false)
    case Over => (false, true, true, true)
    case Error => (true, true, true, true)
    case Conference => (false, true, false, false)
    case ConferenceHold => (false, true, false, false)
    case Initialization => (true, true, false, false)
    case Aborted => (true, true, false, true)
    case Connected => (true, true, false, false)
  }

  /** The assertion that guards every daemon transition. */
  predicate Validated(s: State, d: DaemonState) {
    var row := ValidationRow(DaemonTarget(s, d));
    match LifeOf(s)
    case Creation => row.0
    case Initializing => row.1
    case Progress => row.2
    case Finished => row.3
  }

  // ----- The strings of the daemon -----

  /** Unknown names read as a failure. */
  function ToDaemonState(name: string): DaemonState {
    if name == "HUNGUP" then DHungUp
    else if name == "CONNECTING" then DConnecting
    else if name == "RINGING" then DRinging
    else if name == "INCOMING" then DRinging
    else if name == "CURRENT" then DCurrent
    else if name == "UNHOLD" then DCurrent
    else if name == "HOLD" then DHold
    else if name == "BUSY" then DBusy
    else if name == "FAILURE" then DFailure
    else if name == "INACTIVE" then DInactive
    else if name == "OVER" then DOver
    else DFailure
  }

  function StartState(name: string, outgoing: bool): State {
    if name == "CURRENT" then Current
    else if name == "HOLD" then Hold
    else if name == "BUSY" then Busy
    else if name == "INCOMING" then Incoming
    else if name == "CONNECTING" then (if outgoing then Ringing else Incoming)
    else if name == "RINGING" then Ringing
    else if name == "INACTIVE" then Initialization
    else Failure
  }

  function ConferenceState(name: string): State {
    if name == "HOLD" then ConferenceHold
    else if name == "ACTIVE_ATTACHED" || name == "ACTIVE_DETACHED" then Conference
    else Error
  }

  // ----- Facts about the tables -----

  /**
    The daemon table moves the life cycle forward in every cell but one: a busy call that becomes
    current again. This is the cell that the validation table has to stop.
   */
  lemma DaemonTableForward(s: State, d: DaemonState)
    ensures StateRank(DaemonTarget(s, d)) < StateRank(s) <==> s.Busy? && d.DCurrent?
    ensures Validated(s, d) ==> StateRank(s) <= StateRank(DaemonTarget(s, d))
  {
  }

  /**
    The action table moves the life cycle forward exactly for the listed actions, and for the
    others exactly when there is nothing left to lose.
   */
  lemma ActionTableForward(s: State, a: Action)
    ensures StateRank(s) <= StateRank(ActionTarget(s, a)) <==> Listed(a) || LifeOf(s).Creation?
  {
    match s { case _ => }
  }
}
