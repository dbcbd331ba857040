/** Every operation of the call tree, what each one keeps, and what every run keeps. */
module CallForestRuns {
  import opened Options
  import opened Lists
  import opened CallTables
  import opened CallForest
  import opened CallForestShape
  import opened CallForestRemoval
  import opened CallForestErrors
  import CallMachine
  import CallRuns

  // ----- Calls -----

  /** What is needed to add a call: a new node, and a daemon identifier nobody has. */
  ghost predicate Addable<N>(s: Forest<N>, n: N, info: Info) {
    && n !in s.info && !info.conference
    && (info.id != "" ==> info.id !in s.ids)
    && (LifeOf(info.state).Creation? ==> info.id == "" && forall m :: m in s.info ==> !Creating(s, m))
  }

  lemma AddableNew<N>(s: Forest<N>, n: N, info: Info)
    requires n !in s.info && !info.conference && (info.id != "" ==> info.id !in s.ids)
    requires LifeOf(info.state).Creation? ==> info.id == "" && FirstCreating(s, ActiveCalls(s, s.top)).None?
    requires Inv(s)
    ensures Addable(s, n, info)
  {
    if LifeOf(info.state).Creation? {
      DialingFound(s);
    }
  }

  lemma AddCallShape<N>(s: Forest<N>, n: N, info: Info)
    requires Shape(s) && n !in s.info && !info.conference
    ensures Shape(AddCall(s, n, info))
  {
    ExtendedShape(s, n, AddCall(s, n, info));
  }

  lemma AddCallIndexed<N>(s: Forest<N>, n: N, info: Info)
    requires Closed(s) && Indexed(s) && Addable(s, n, info)
    ensures Indexed(AddCall(s, n, info))
  {
  }

  lemma AddCallPlaced<N>(s: Forest<N>, n: N, info: Info)
    requires Closed(s) && AllPlaced(s, {}) && n !in s.info && !info.conference
    ensures AllPlaced(AddCall(s, n, info), {})
  {
    var t := AddCall(s, n, info);
    forall m | m in t.info && Alive(t, m) && m != n ensures Placed(t, m) {
      assert Alive(s, m) && Placed(s, m);
      if m !in s.top {
        var d :| d in s.top && m in Kids(s, d);
        assert d in t.top && m in Kids(t, d);
      }
    }
  }

  lemma AddCallKeeps<N>(s: Forest<N>, n: N, info: Info)
    requires Inv(s) && Addable(s, n, info)
    ensures Inv(AddCall(s, n, info))
  {
    AddCallShape(s, n, info);
    AddCallIndexed(s, n, info);
    AddCallPlaced(s, n, info);
    AddCallCreation(s, n, info);
  }

  lemma AddCallCreation<N>(s: Forest<N>, n: N, info: Info)
    requires OneCreation(s) && Addable(s, n, info)
    ensures OneCreation(AddCall(s, n, info))
  {
  }

  // ----- The dialing call -----

  lemma {:induction false} ActiveHolds<N>(s: Forest<N>, nodes: seq<N>, c: N, n: N)
    requires c in nodes && (n == c || n in Kids(s, c))
    ensures n in ActiveCalls(s, nodes)
  {
    if nodes[0] != c {
      ActiveHolds(s, nodes[1..], c, n);
    }
  }

  /** A call in CREATION is at top level: looking there is enough. */
  lemma CreationAtTop<N>(s: Forest<N>, n: N)
    requires Inv(s) && n in s.info && Creating(s, n)
    ensures n in s.top
  {
    assert Alive(s, n) && Placed(s, n);
  }

  /** The search through the active calls misses no call in CREATION. */
  lemma DialingFound<N>(s: Forest<N>)
    requires Inv(s) && FirstCreating(s, ActiveCalls(s, s.top)).None?
    ensures forall n :: n in s.info ==> !Creating(s, n)
  {
    forall n | n in s.info ensures !Creating(s, n) {
      if Creating(s, n) {
        CreationAtTop(s, n);
        ActiveHolds(s, s.top, n, n);
      }
    }
  }

  /** The current dialing call, or a new one. */
  function DialingCall<N(==)>(s: Forest<N>, n: N, hasAccount: bool): Forest<N> {
    if FirstCreating(s, ActiveCalls(s, s.top)).Some? then s
    else AddCall(s, n, CallInfo(New, "", hasAccount))
  }

  // ----- State changes of a call -----

  lemma AdvanceKeeps<N>(s: Forest<N>, n: N, state: State)
    requires Inv(s) && IsCall(s, n) && StateRank(s.info[n].state) <= StateRank(state)
    ensures Inv(SetState(s, n, state))
  {
    SetStateTree(s, n, state);
    AdvanceCreation(s, n, state);
  }

  /** A call that reaches ERROR leaves the tree. */
  lemma MoveKeeps<N>(s: Forest<N>, n: N, state: State)
    requires Inv(s) && FlatTree(s) && IsCall(s, n) && StateRank(s.info[n].state) <= StateRank(state)
    ensures Inv(MoveCall(s, n, state))
  {
    hide Shape, Indexed, AllPlaced, OneCreation, Removable, Reported;
    AdvanceKeeps(s, n, state);
    var t := SetState(s, n, state);
    SetStateFlat(s, n, state);
    CallRemovable(t, n);
    ReportedKeeps(t, n);
  }

  /** A daemon event, seen from the tree. A call in ERROR does not report again if its callback raises. */
  function DaemonMove<N(==)>(s: Forest<N>, n: N, d: DaemonState): (r: Forest<N>)
    requires FlatTree(s) && IsCall(s, n)
    ensures FlatTree(r)
  {
    if !InError(s, n) then MoveCall(s, n, DaemonTarget(s.info[n].state, d))
    else if DaemonCallOf(Error, d).Raise? then s
    else Reported(s, n)
  }

  lemma DaemonMoveKeeps<N>(s: Forest<N>, n: N, d: DaemonState)
    requires Inv(s) && FlatTree(s) && IsCall(s, n) && Validated(s.info[n].state, d)
    ensures Inv(DaemonMove(s, n, d))
  {
    hide Shape, Indexed, AllPlaced, OneCreation, Removable, Reported, MoveCall;
    DaemonTableForward(s.info[n].state, d);
    if InError(s, n) {
      CallRemovable(s, n);
      ReportedKeeps(s, n);
    } else {
      MoveKeeps(s, n, DaemonTarget(s.info[n].state, d));
    }
  }

  /** The same in the order of the code: the state first, the report last. */
  lemma DaemonMoveIs<N>(s: Forest<N>, n: N, d: DaemonState)
    requires Inv(s) && FlatTree(s) && IsCall(s, n) && Validated(s.info[n].state, d)
    ensures
      var t := SetState(s, n, DaemonTarget(s.info[n].state, d));
      && FlatTree(t) && Inv(t) && Removable(t, n)
      && DaemonMove(s, n, d)
      == if InError(s, n) && DaemonCallOf(s.info[n].state, d).Raise? then t else Reported(t, n)
  {
    hide Shape, Indexed, AllPlaced, OneCreation, Removable, RemoveCall;
    var target := DaemonTarget(s.info[n].state, d);
    DaemonTableForward(s.info[n].state, d);
    ErrorStays(d);
    AdvanceKeeps(s, n, target);
    SetStateFlat(s, n, target);
    CallRemovable(SetState(s, n, target), n);
    if s.info[n].state == target {
      assert s.info[n := s.info[n]] == s.info;
    }
  }

  lemma ErrorStays(d: DaemonState)
    ensures DaemonTarget(Error, d).Error?
  {
  }

  /** Nothing enters CREATION when a call moves on. */
  lemma MoveCreation<N>(s: Forest<N>, n: N, state: State, m: N)
    requires Inv(s) && FlatTree(s) && IsCall(s, n) && StateRank(s.info[n].state) <= StateRank(state)
    requires m in MoveCall(s, n, state).info && Creating(MoveCall(s, n, state), m)
    ensures Creating(s, m)
  {
    hide Shape, Indexed, AllPlaced, Reported;
    MoveKeeps(s, n, state);
    SetStateFlat(s, n, state);
    ReportedSameCalls(SetState(s, n, state), n);
  }

  lemma AdvanceCreation<N>(s: Forest<N>, n: N, state: State)
    requires OneCreation(s) && IsCall(s, n) && StateRank(s.info[n].state) <= StateRank(state)
    ensures OneCreation(SetState(s, n, state))
  {
    var t := SetState(s, n, state);
    assert forall m :: m in t.info && Creating(t, m) ==> Creating(s, m) && t.info[m].id == s.info[m].id;
  }

  lemma SetIdShape<N>(s: Forest<N>, n: N, id: string)
    requires Shape(s) && n in s.info
    ensures Shape(SetId(s, n, id))
  {
    hide Linked, Separate;
    SameShape(s, SetId(s, n, id));
  }

  lemma RegisterShape<N>(s: Forest<N>, n: N, id: string)
    requires Shape(s) && n in s.info
    ensures Shape(RegisterCall(s, n, id))
  {
    hide Linked, Separate;
    SameShape(s, RegisterCall(s, n, id));
  }

  lemma RegisterIndexed<N>(s: Forest<N>, n: N, id: string)
    requires Indexed(s) && IsCall(s, n) && s.info[n].id == "" && id != "" && id !in s.ids
    ensures Indexed(RegisterCall(s, n, id))
  {
    var t := RegisterCall(s, n, id);
    forall k | k in t.ids ensures k != "" && t.ids[k] in t.info && t.info[t.ids[k]].id == k {
      assert k == id || (k in s.ids && s.ids[k] != n);
    }
    forall m | m in t.info && Alive(t, m) && t.info[m].id != ""
      ensures t.info[m].id in t.ids && t.ids[t.info[m].id] == m
    {
      assert m == n || (Alive(s, m) && s.info[m] == t.info[m]);
    }
  }

  lemma RegisterPlaced<N>(s: Forest<N>, n: N, id: string)
    requires AllPlaced(s, {}) && IsCall(s, n)
    ensures AllPlaced(RegisterCall(s, n, id), {})
  {
    hide AllPlaced;
    SamePlaced(s, RegisterCall(s, n, id));
  }

  lemma RegisterKeeps<N>(s: Forest<N>, n: N, id: string)
    requires Inv(s) && IsCall(s, n) && !Creating(s, n)
    requires s.info[n].id == "" && id != "" && id !in s.ids
    ensures Inv(RegisterCall(s, n, id))
  {
    RegisterShape(s, n, id);
    RegisterIndexed(s, n, id);
    RegisterPlaced(s, n, id);
    RegisterCreation(s, n, id);
  }

  lemma RegisterCreation<N>(s: Forest<N>, n: N, id: string)
    requires OneCreation(s) && n in s.info && !Creating(s, n)
    ensures OneCreation(RegisterCall(s, n, id)) && OneCreation(SetId(s, n, id))
  {
    NoNewCreation(s, SetId(s, n, id));
    NoNewCreation(s, RegisterCall(s, n, id));
  }

  /** A call that the daemon refused to place keeps a name that leads nowhere. */
  lemma RefusedKeeps<N>(s: Forest<N>, n: N, id: string)
    requires Inv(s) && IsCall(s, n) && !Alive(s, n) && s.info[n].id == "" && id != ""
    ensures Inv(SetId(s, n, id))
  {
    SetIdShape(s, n, id);
    RefusedTree(s, n, id);
    RegisterCreation(s, n, id);
  }

  lemma RefusedTree<N>(s: Forest<N>, n: N, id: string)
    requires Shape(s) && Indexed(s) && AllPlaced(s, {}) && IsCall(s, n) && !Alive(s, n)
    requires s.info[n].id == "" && id != ""
    ensures Indexed(SetId(s, n, id)) && AllPlaced(SetId(s, n, id), {})
  {
    hide Linked, Separate;
    var t := SetId(s, n, id);
    SamePlaced(s, t);
    hide AllPlaced;
    forall m | m in t.info && Alive(t, m) && t.info[m].id != ""
      ensures t.info[m].id in t.ids && t.ids[t.info[m].id] == m
    {
      assert m != n && Alive(s, m) && s.info[m] == t.info[m];
    }
  }

  /** A dialled call as placing it has left it: started, refused, or given up before it was sent. */
  function Dispatched<N(==)>(s: Forest<N>, n: N, c: CallMachine.Call): (r: Forest<N>)
    requires FlatTree(s)
  {
    SetStateFlat(s, n, c.state);
    var t := MoveCall(s, n, c.state);
    if c.state.Initialization? then RegisterCall(t, n, c.id)
    else if c.state.Failure? then SetId(t, n, c.id)
    else t
  }

  /** What accepting a dialled call may leave behind; a new identifier is one that nobody has. */
  ghost predicate Outcome<N>(s: Forest<N>, n: N, c: CallMachine.Call) {
    && IsCall(s, n) && s.info[n].state.Dialing?
    && match c.state
       case Initialization => c.id != "" && c.id !in s.ids && c.hasAccount
       case Failure => c.id == "FAILED" && c.hasAccount
       case Aborted => c.id == s.info[n].id && c.hasAccount == s.info[n].hasAccount
       case Error => c.id == s.info[n].id && c.hasAccount == s.info[n].hasAccount
       case _ => false
  }

  lemma DispatchedKeeps<N>(s: Forest<N>, n: N, c: CallMachine.Call)
    requires Inv(s) && FlatTree(s) && Outcome(s, n, c)
    ensures Inv(Dispatched(s, n, c))
  {
    hide Shape, Indexed, AllPlaced;
    MoveKeeps(s, n, c.state);
    var t := SetState(s, n, c.state);
    if c.state.Initialization? {
      RegisterKeeps(t, n, c.id);
    } else if c.state.Failure? {
      RefusedKeeps(t, n, c.id);
    }
  }

  /** The same, with the whole entry of the call written at once, and the report at the end. */
  lemma DispatchedIs<N>(s: Forest<N>, n: N, c: CallMachine.Call)
    requires Inv(s) && FlatTree(s) && Outcome(s, n, c)
    ensures
      var t := s.(info := s.info[n := Info(false, c.state, c.id, c.hasAccount, s.info[n].watched)]);
      if c.state.Initialization? then Dispatched(s, n, c) == t.(ids := s.ids[c.id := n])
      else FlatTree(t) && Inv(t) && Removable(t, n) && Dispatched(s, n, c) == Reported(t, n)
  {
    hide Shape, Indexed, AllPlaced, OneCreation, Removable, RemoveCall;
    var t := s.(info := s.info[n := Info(false, c.state, c.id, c.hasAccount, s.info[n].watched)]);
    var moved := SetState(s, n, c.state);
    if c.state.Initialization? {
      assert t == SetId(moved, n, c.id);
    } else {
      assert t == if c.state.Failure? then SetId(moved, n, c.id) else moved;
      EntryKeeps(s, n, c);
      FlatInv(t);
      CallRemovable(t, n);
    }
  }

  lemma EntryKeeps<N>(s: Forest<N>, n: N, c: CallMachine.Call)
    requires Inv(s) && Outcome(s, n, c) && !c.state.Initialization?
    ensures
      var moved := SetState(s, n, c.state);
      Inv(if c.state.Failure? then SetId(moved, n, c.id) else moved)
  {
    hide Shape, Indexed, AllPlaced;
    AdvanceKeeps(s, n, c.state);
    if c.state.Failure? {
      RefusedKeeps(SetState(s, n, c.state), n, c.id);
    }
  }

  // ----- Live calls -----

  /** With every live call in the tree before and after, none has been lost and none has come back. */
  lemma LiveUnchanged<N>(s: Forest<N>, t: Forest<N>)
    requires AllPlaced(s, {}) && AllPlaced(t, {}) && SameCalls(s, t)
    ensures LiveCalls(s) == LiveCalls(t)
  {
    forall n | n in LiveCalls(s) ensures n in LiveCalls(t) {
      assert Alive(t, n);
    }
    forall n | n in LiveCalls(t) ensures n in LiveCalls(s) {
      assert Alive(s, n);
    }
  }

  // ----- Events -----

  datatype Event<N> =
    | Dialed(n: N, hasAccount: bool)
    | Incoming(n: N, id: string, hasAccount: bool)
    | Existing(n: N, id: string, name: string, outgoing: bool, hasAccount: bool)
    | History(n: N, id: string, hasAccount: bool)
    | StateMoved(n: N, state: State)
    | CallPlaced(n: N, id: string)
    | CallRefused(n: N)
    | CallRemoved(n: N)
    | ConferenceCreated(n: N, id: string, name: string, participants: seq<string>)
    | ConferenceChanged(id: string, name: string, participants: seq<string>)
    | ConferenceRemoved(id: string)

  ghost predicate Participants<N>(s: Forest<N>, participants: seq<string>) {
    NoDup(participants) && CallsOnlyIds(s, participants)
  }

  /** What the daemon and the application promise of an event. */
  ghost predicate Allowed<N>(s: Forest<N>, e: Event<N>) {
    match e
    case Dialed(n, _) => n !in s.info
    case Incoming(n, id, _) => n !in s.info && id != ""
    case Existing(n, id, _, _, _) => n !in s.info && id !in s.ids
    case History(n, id, _) => n !in s.info && id !in s.ids
    case StateMoved(n, state) => IsCall(s, n) && StateRank(s.info[n].state) <= StateRank(state)
    case CallPlaced(n, id) =>
      IsCall(s, n) && !Creating(s, n) && s.info[n].id == "" && id != "" && id !in s.ids
    case CallRefused(n) => IsCall(s, n) && !Alive(s, n) && s.info[n].id == ""
    case CallRemoved(n) => n in s.info && !Alive(s, n) && Removable(s, n)
    case ConferenceCreated(n, id, _, participants) =>
      n !in s.info && id != "" && Participants(s, participants) && id !in participants
    case ConferenceChanged(id, name, participants) =>
      && (id in s.ids ==> IsConference(s, s.ids[id])) && Participants(s, participants)
      && Harmless(s, id, ConferenceState(name), participants)
    case ConferenceRemoved(id) => id in s.ids && IsConference(s, s.ids[id]) && Removable(s, s.ids[id])
  }

  ghost function Step<N>(s: Forest<N>, e: Event<N>): Forest<N>
    requires Inv(s) && Allowed(s, e)
  {
    Flat(s);
    match e
    case Dialed(n, account) => DialingCall(s, n, account)
    case Incoming(n, id, account) =>
      if id in s.ids then s else AddCall(s, n, CallInfo(State.Incoming, id, account))
    case Existing(n, id, name, outgoing, account) =>
      AddCall(s, n, CallInfo(StartState(name, outgoing), id, account))
    case History(n, id, account) => AddCall(s, n, CallInfo(Over, id, account))
    case StateMoved(n, state) => MoveCall(s, n, state)
    case CallPlaced(n, id) => RegisterCall(s, n, id)
    case CallRefused(n) => SetId(s, n, "FAILED")
    case CallRemoved(n) => RemoveCall(s, n)
    case ConferenceCreated(n, id, name, participants) =>
      if id in s.ids then s else AddConference(s, n, id, ConferenceState(name), participants)
    case ConferenceChanged(id, name, participants) =>
      ChangeKeepsExactly(s, id, ConferenceState(name), participants);
      ChangeConference(s, id, ConferenceState(name), participants)
    case ConferenceRemoved(id) => RemoveConference(s, s.ids[id])
  }

  // ----- Each step keeps the invariant -----

  lemma AddConferenceKeeps<N>(s: Forest<N>, c: N, id: string, state: State, participants: seq<string>)
    requires Inv(s) && c !in s.info && id != "" && id !in s.ids && !LifeOf(state).Creation?
    requires Participants(s, participants) && id !in participants
    ensures Inv(AddConference(s, c, id, state, participants))
    ensures SameCalls(s, AddConference(s, c, id, state, participants))
  {
    hide Shape, Indexed, AllPlaced, OneCreation;
    if Joinable(s, participants) {
      var t := NewConference(s, c, id, state);
      NewConferenceKeeps(s, c, id, state);
      assert CallsOnlyIds(t, participants);
      AdoptAllKeeps(t, c, participants);
    }
  }

  lemma ChangeConferenceKeeps<N>(s: Forest<N>, id: string, state: State, participants: seq<string>)
    requires Inv(s) && FlatTree(s) && !LifeOf(state).Creation? && Participants(s, participants)
    requires id in s.ids ==> IsConference(s, s.ids[id])
    requires Harmless(s, id, state, participants)
    ensures Changeable(s, id) ==> FlatTree(Rejoined(s, s.ids[id], state, participants))
    ensures Inv(ChangeConference(s, id, state, participants))
    ensures SameCalls(s, ChangeConference(s, id, state, participants))
  {
    hide Shape, Indexed, AllPlaced, OneCreation, Harmless, CallsOnlyIds, NoDup, FlatTree, RemoveEmpty, Rejoined;
    ChangeKeepsExactly(s, id, state, participants);
    if Changeable(s, id) {
      var c := s.ids[id];
      RejoinedSameCalls(s, c, state, participants);
      RemoveEmptySameCalls(Rejoined(s, c, state, participants));
    }
  }

  lemma {:induction false} ReadoptAllInfo<N>(s: Forest<N>, c: N, participants: seq<string>)
    ensures ReadoptAll(s, c, participants).info == s.info
    decreases |participants|
  {
    if participants != [] {
      ReadoptAllInfo(ReadoptKnown(s, c, participants[0]), c, participants[1..]);
    }
  }

  lemma ReportedSameCalls<N>(s: Forest<N>, n: N)
    requires FlatTree(s)
    ensures SameCalls(s, Reported(s, n))
  {
    RemovalShrinks(s, n);
    CleanupSameCalls(RemoveOne(s, n));
  }

  lemma RejoinedSameCalls<N>(s: Forest<N>, c: N, state: State, participants: seq<string>)
    requires FlatTree(s) && IsConference(s, c)
    ensures SameCalls(s, Rejoined(s, c, state, participants))
  {
    hide Reported, FlatTree;
    SetStateFlat(s, c, state);
    var t := Reported(SetState(s, c, state), c);
    ReportedSameCalls(SetState(s, c, state), c);
    ReadoptAllInfo(Evict(t, c, participants), c, participants);
  }

  /** A change to a conference that is not in the tree is ignored. */
  lemma ChangeIs<N>(s: Forest<N>, id: string, name: string, participants: seq<string>)
    requires Inv(s) && Allowed(s, ConferenceChanged(id, name, participants))
    ensures FlatTree(s) && Shape(s) && Closed(s)
    ensures !Changeable(s, id) ==> Step(s, ConferenceChanged(id, name, participants)) == s
    ensures
      Changeable(s, id) ==>
        var c, state := s.ids[id], ConferenceState(name);
        && IsConference(s, c) && c in s.top && FlatTree(Rejoined(s, c, state, participants))
        && Inv(Rejoined(s, c, state, participants))
        && Step(s, ConferenceChanged(id, name, participants)) == RemoveEmpty(Rejoined(s, c, state, participants))
  {
    hide Linked, Separate, Indexed, AllPlaced, OneCreation, RemoveEmpty, Rejoined, Vacant, CallsOnlyIds, NoDup;
    Flat(s);
    ChangeKeepsExactly(s, id, ConferenceState(name), participants);
    if Changeable(s, id) {
      PlacedConference(s, s.ids[id]);
      HarmlessKeeps(s, s.ids[id], ConferenceState(name), participants);
    }
  }

  lemma HarmlessKeeps<N>(s: Forest<N>, c: N, state: State, participants: seq<string>)
    requires Inv(s) && FlatTree(s) && IsConference(s, c) && c in s.top && !LifeOf(state).Creation?
    requires Participants(s, participants) && (state.Error? ==> Vacant(s, c, participants))
    ensures Inv(Rejoined(s, c, state, participants))
  {
    hide Shape, Indexed, AllPlaced, OneCreation, Rejoined, Vacant, CallsOnlyIds, NoDup;
    if state.Error? {
      VacantKeeps(s, c, participants);
    } else {
      RejoinedKeeps(s, c, state, participants);
    }
  }

  lemma StepKeeps<N>(s: Forest<N>, e: Event<N>)
    requires Inv(s) && Allowed(s, e)
    ensures Inv(Step(s, e))
  {
    hide Indexed, AllPlaced, OneCreation, AddCall, AddConference, ChangeConference, RemoveConference, RemoveCall;
    Flat(s);
    match e
    case Dialed(n, account) =>
      if FirstCreating(s, ActiveCalls(s, s.top)).None? {
        DialingFound(s);
        AddCallKeeps(s, n, CallInfo(New, "", account));
      }
    case Incoming(n, id, account) =>
      if id !in s.ids { AddCallKeeps(s, n, CallInfo(State.Incoming, id, account)); }
    case Existing(n, id, name, outgoing, account) =>
      AddCallKeeps(s, n, CallInfo(StartState(name, outgoing), id, account));
    case History(n, id, account) => AddCallKeeps(s, n, CallInfo(Over, id, account));
    case StateMoved(n, state) => MoveKeeps(s, n, state);
    case CallPlaced(n, id) => RegisterKeeps(s, n, id);
    case CallRefused(n) => RefusedKeeps(s, n, "FAILED");
    case CallRemoved(n) => RemoveCallKeeps(s, n);
    case ConferenceCreated(n, id, name, participants) =>
      if id !in s.ids { AddConferenceKeeps(s, n, id, ConferenceState(name), participants); }
    case ConferenceChanged(id, name, participants) =>
      ChangeConferenceKeeps(s, id, ConferenceState(name), participants);
    case ConferenceRemoved(id) => RemoveConferenceKeeps(s, s.ids[id]);
  }

  lemma ConferencesSameCalls<N>(s: Forest<N>, e: Event<N>)
    requires Inv(s) && Allowed(s, e)
    requires e.ConferenceCreated? || e.ConferenceChanged? || e.ConferenceRemoved? || e.CallRemoved?
    ensures SameCalls(s, Step(s, e))
  {
    Flat(s);
    match e
    case ConferenceCreated(n, id, name, participants) =>
      if id !in s.ids { AddConferenceKeeps(s, n, id, ConferenceState(name), participants); }
    case ConferenceChanged(id, name, participants) =>
      ChangeConferenceKeeps(s, id, ConferenceState(name), participants);
    case ConferenceRemoved(id) => RemoveConferenceSameCalls(s, s.ids[id]);
    case CallRemoved(n) => RemovalShrinks(s, n); CleanupSameCalls(RemoveOne(s, n));
  }

  /** Creating, changing or removing a conference neither loses a live call nor brings one back. */
  lemma ConferencesKeepLiveCalls<N>(s: Forest<N>, e: Event<N>)
    requires Inv(s) && Allowed(s, e)
    requires e.ConferenceCreated? || e.ConferenceChanged? || e.ConferenceRemoved?
    ensures LiveCalls(Step(s, e)) == LiveCalls(s)
  {
    hide Step, Shape, Indexed, OneCreation, Allowed;
    StepKeeps(s, e);
    ConferencesSameCalls(s, e);
    LiveUnchanged(s, Step(s, e));
  }

  // ----- Calls being created -----

  /** A call in CREATION was there before, or has just been dialled because there was none. */
  lemma CreationOnlyByDialing<N>(s: Forest<N>, e: Event<N>, n: N)
    requires Inv(s) && Allowed(s, e)
    requires n in Step(s, e).info && Creating(Step(s, e), n)
    ensures Creating(s, n) || (e.Dialed? && n == e.n && forall m :: m in s.info ==> !Creating(s, m))
  {
    hide Shape, Indexed, AllPlaced, OneCreation, MoveCall, FlatTree;
    FlatInv(s);
    if e.ConferenceCreated? || e.ConferenceChanged? || e.ConferenceRemoved? || e.CallRemoved? {
      CreationKept(s, e, n);
    } else if e.StateMoved? {
      MoveCreation(s, e.n, e.state, n);
    } else if e.Dialed? && FirstCreating(s, ActiveCalls(s, s.top)).None? {
      DialingFound(s);
    }
  }

  lemma CreationKept<N>(s: Forest<N>, e: Event<N>, n: N)
    requires Inv(s) && Allowed(s, e)
    requires e.ConferenceCreated? || e.ConferenceChanged? || e.ConferenceRemoved? || e.CallRemoved?
    requires n in Step(s, e).info && Creating(Step(s, e), n)
    ensures Creating(s, n)
  {
    hide Step, Allowed;
    ConferencesSameCalls(s, e);
    CreationIsCall(s, e, n);
  }

  /** Dialling while a call is in CREATION gives that call back and changes nothing. */
  lemma DialingReuses<N>(s: Forest<N>, e: Event<N>, m: N)
    requires Inv(s) && Allowed(s, e) && e.Dialed? && m in s.info && Creating(s, m)
    ensures FirstCreating(s, ActiveCalls(s, s.top)) == Some(m) && Step(s, e) == s
  {
    CreationAtTop(s, m);
    ActiveHolds(s, s.top, m, m);
  }

  lemma CreationIsCall<N>(s: Forest<N>, e: Event<N>, n: N)
    requires Inv(s) && Allowed(s, e) && n in Step(s, e).info && Creating(Step(s, e), n)
    ensures IsCall(Step(s, e), n)
  {
    hide Step, Allowed;
    StepKeeps(s, e);
  }

  // ----- Runs -----

  ghost function NoCalls<N>(): (r: Forest<N>)
    ensures Inv(r)
  {
    Forest([], map[], map[], map[], map[])
  }

  ghost predicate AllowedRun<N>(s: Forest<N>, events: seq<Event<N>>)
    requires Inv(s)
    decreases |events|
  {
    events != [] ==>
      Allowed(s, events[0]) && (StepKeeps(s, events[0]); AllowedRun(Step(s, events[0]), events[1..]))
  }

  ghost function Run<N>(s: Forest<N>, events: seq<Event<N>>): (r: Forest<N>)
    requires Inv(s) && AllowedRun(s, events)
    ensures Inv(r)
    decreases |events|
  {
    if events == [] then s
    else
      StepKeeps(s, events[0]);
      Run(Step(s, events[0]), events[1..])
  }

  /** One call moves from state to state. */
  function Moves<N>(n: N, path: seq<State>): seq<Event<N>>
    decreases |path|
  {
    if path == [] then [] else [StateMoved(n, path[0])] + Moves(n, path[1..])
  }

  lemma MovedTo<N>(s: Forest<N>, n: N, state: State)
    requires FlatTree(s) && IsCall(s, n)
    ensures IsCall(MoveCall(s, n, state), n) && MoveCall(s, n, state).info[n].state == state
  {
    hide Reported;
    SetStateFlat(s, n, state);
    ReportedSameCalls(SetState(s, n, state), n);
  }

  lemma {:induction false} ForwardMoves<N>(s: Forest<N>, n: N, path: seq<State>)
    requires Inv(s) && IsCall(s, n) && CallRuns.Forward(s.info[n].state, path)
    ensures AllowedRun(s, Moves(n, path))
    ensures
      var t := Run(s, Moves(n, path));
      IsCall(t, n) && t.info[n].state == if path == [] then s.info[n].state else path[|path| - 1]
    decreases |path|
  {
    hide Inv, MoveCall, FlatTree;
    if path != [] {
      var e := StateMoved(n, path[0]);
      assert Moves(n, path)[0] == e && Moves(n, path)[1..] == Moves(n, path[1..]);
      FlatInv(s);
      MovedTo(s, n, path[0]);
      StepKeeps(s, e);
      ForwardMoves(Step(s, e), n, path[1..]);
    }
  }

  /** Every event that one call accepts is a run of state moves that the tree accepts. */
  lemma MachineMoves<N>(s: Forest<N>, n: N, c: CallMachine.Call, e: CallMachine.Event)
    requires Inv(s) && IsCall(s, n) && s.info[n].state == c.state && CallMachine.Allowed(c, e)
    ensures
      var moves := Moves(n, CallMachine.Path(c, e));
      AllowedRun(s, moves) && IsCall(Run(s, moves), n) && Run(s, moves).info[n].state == CallMachine.Step(c, e).state
  {
    hide Inv, CallMachine.Path, CallMachine.Step, CallMachine.Allowed;
    CallRuns.PathForward(c, e);
    ForwardMoves(s, n, CallMachine.Path(c, e));
  }

  /** From the empty model, every run reaches a forest with every live call in it. */
  lemma EveryRunIsAForest<N>(events: seq<Event<N>>)
    requires AllowedRun(NoCalls<N>(), events)
    ensures
      var r := Run(NoCalls<N>(), events);
      && NoDup(r.top)
      && (forall c, n :: c in r.top && n in Kids(r, c) ==> n !in r.top && n in r.par && r.par[n] == c)
      && (forall c, d, n :: c in r.top && d in r.top && n in Kids(r, c) && n in Kids(r, d) ==> c == d)
      && (forall c :: c in r.top ==> NoDup(Kids(r, c)) && (Kids(r, c) != [] ==> IsConference(r, c)))
      && (forall n :: n in r.top && n in r.par ==> r.par[n] !in r.top)
      && (forall n :: n in r.info && Alive(r, n) ==> Placed(r, n))
      && (forall n, m :: n in r.info && m in r.info && Creating(r, n) && Creating(r, m) ==> n == m)
  {
    assert Shape(Run(NoCalls<N>(), events));
  }
}
