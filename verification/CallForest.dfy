/**
  The call tree as a value: a top-level list, the children and the parent pointer of every node, and
  the daemon identifiers. Each operation of the model is a function on that value; the type of the
  nodes is a parameter.
 */
module CallForest {
  import opened Options
  import opened Lists
  import opened CallTables

  /** What the tree reads of a call. The changes of a watched call are reported to the tree. */
  datatype Info = Info(conference: bool, state: State, id: string, hasAccount: bool, watched: bool)

  datatype Forest<N(==)> = Forest(
    top: seq<N>,
    kids: map<N, seq<N>>,
    par: map<N, N>,             // a node without a parent is absent
    info: map<N, Info>,         // every node ever added
    ids: map<string, N>)

  function Kids<N>(s: Forest<N>, n: N): seq<N> {
    if n in s.kids then s.kids[n] else []
  }

  predicate IsConference<N>(s: Forest<N>, n: N) {
    n in s.info && s.info[n].conference
  }

  predicate IsCall<N>(s: Forest<N>, n: N) {
    n in s.info && !s.info[n].conference
  }

  /** A call that is not finished. */
  predicate Alive<N>(s: Forest<N>, n: N) {
    IsCall(s, n) && !LifeOf(s.info[n].state).Finished?
  }

  predicate Creating<N>(s: Forest<N>, n: N) {
    n in s.info && LifeOf(s.info[n].state).Creation?
  }

  /** The node is in the tree, at top level or under a top-level conference. */
  predicate Placed<N(==)>(s: Forest<N>, n: N) {
    n in s.top || exists c :: c in s.top && n in Kids(s, c)
  }

  // ----- Adding calls -----

  /** A call that is over when it is added is not watched. */
  function CallInfo(state: State, id: string, hasAccount: bool): Info {
    Info(false, state, id, hasAccount, !LifeOf(state).Finished?)
  }

  function AddCall<N>(s: Forest<N>, n: N, info: Info): Forest<N> {
    s.(kids := s.kids[n := []],
       info := s.info[n := info],
       top := if LifeOf(info.state).Finished? then s.top else s.top + [n],
       ids := if info.id == "" then s.ids else s.ids[info.id := n])
  }

  /** The first call in CREATION, in the order of the list of active calls. */
  function FirstCreating<N(==)>(s: Forest<N>, calls: seq<N>): (r: Option<N>)
    ensures r.Some? ==> r.value in calls && Creating(s, r.value)
    ensures r.None? ==> forall i :: 0 <= i < |calls| ==> !Creating(s, calls[i])
  {
    if calls == [] then None
    else if Creating(s, calls[0]) then Some(calls[0])
    else FirstCreating(s, calls[1..])
  }

  /** Top-level nodes, each followed by its children. */
  function ActiveCalls<N>(s: Forest<N>, nodes: seq<N>): seq<N> {
    if nodes == [] then [] else [nodes[0]] + Kids(s, nodes[0]) + ActiveCalls(s, nodes[1..])
  }

  // ----- Moving calls -----

  /** Leaves the old parent and the top level; the parent pointer names the conference. */
  function MoveUnder<N(==)>(s: Forest<N>, c: N, n: N): Forest<N> {
    var kids :=
      if n in s.par && s.par[n] != c then s.kids[s.par[n] := RemoveAll(Kids(s, s.par[n]), n)] else s.kids;
    s.(kids := kids, top := RemoveFirst(s.top, n), par := s.par[n := c])
  }

  function AppendChild<N>(s: Forest<N>, c: N, n: N): Forest<N> {
    s.(kids := s.kids[c := Kids(s, c) + [n]])
  }

  /** A participant of a new conference; one that is already a child is not added again. */
  function Adopt<N(==)>(s: Forest<N>, c: N, n: N): Forest<N> {
    var m := MoveUnder(s, c, n);
    if n in Kids(m, c) then m else AppendChild(m, c, n)
  }

  /** Unknown participants are skipped. */
  function AdoptKnown<N(==)>(s: Forest<N>, c: N, p: string): Forest<N> {
    if p in s.ids then Adopt(s, c, s.ids[p]) else s
  }

  function AdoptAll<N(==)>(s: Forest<N>, c: N, participants: seq<string>): Forest<N>
    decreases |participants|
  {
    if participants == [] then s else AdoptAll(AdoptKnown(s, c, participants[0]), c, participants[1..])
  }

  /** A participant of a changed conference, whose children have just been cleared. */
  function Readopt<N(==)>(s: Forest<N>, c: N, n: N): Forest<N> {
    AppendChild(MoveUnder(s, c, n), c, n)
  }

  /** Unknown participants are skipped. */
  function ReadoptKnown<N(==)>(s: Forest<N>, c: N, p: string): Forest<N> {
    if p in s.ids then Readopt(s, c, s.ids[p]) else s
  }

  function ReadoptAll<N(==)>(s: Forest<N>, c: N, participants: seq<string>): Forest<N>
    decreases |participants|
  {
    if participants == [] then s else ReadoptAll(ReadoptKnown(s, c, participants[0]), c, participants[1..])
  }

  // ----- Conferences -----

  /** A conference is created only around a known first participant that has an account. */
  predicate Joinable<N>(s: Forest<N>, participants: seq<string>) {
    && participants != [] && participants[0] in s.ids
    && s.ids[participants[0]] in s.info && s.info[s.ids[participants[0]]].hasAccount
  }

  function NewConference<N>(s: Forest<N>, c: N, id: string, state: State): Forest<N> {
    s.(top := s.top + [c],
       kids := s.kids[c := []],
       info := s.info[c := Info(true, state, id, true, true)],
       ids := s.ids[id := c])
  }

  function AddConference<N(==)>(s: Forest<N>, c: N, id: string, state: State, participants: seq<string>): Forest<N> {
    if Joinable(s, participants) then AdoptAll(NewConference(s, c, id, state), c, participants) else s
  }

  predicate Leaves<N>(info: map<N, Info>, n: N, participants: seq<string>) {
    n in info && info[n].id !in participants && !LifeOf(info[n].state).Finished?
  }

  /** The children that are no participants any more and not finished either. */
  function Leaving<N>(info: map<N, Info>, children: seq<N>, participants: seq<string>): seq<N> {
    if children == [] then []
    else
      (if Leaves(info, children[0], participants) then [children[0]] else []) +
      Leaving(info, children[1..], participants)
  }

  lemma {:induction false} LeavingAre<N>(info: map<N, Info>, children: seq<N>, participants: seq<string>)
    ensures
      var r := Leaving(info, children, participants);
      && (forall n :: n in r ==> n in children && Leaves(info, n, participants))
      && (forall n :: n in children && Leaves(info, n, participants) ==> n in r)
      && (NoDup(children) ==> NoDup(r))
  {
    if children != [] {
      LeavingAre(info, children[1..], participants);
    }
  }

  /** One child goes back to top level if it leaves. */
  function EvictOne<N(==)>(s: Forest<N>, n: N, participants: seq<string>): Forest<N> {
    if Leaves(s.info, n, participants) then s.(top := s.top + [n], par := s.par - {n}) else s
  }

  function EvictSome<N(==)>(s: Forest<N>, children: seq<N>, participants: seq<string>): Forest<N> {
    var out := Leaving(s.info, children, participants);
    s.(top := s.top + out, par := s.par - (set n | n in out))
  }

  lemma EvictStep<N>(s: Forest<N>, children: seq<N>, participants: seq<string>)
    requires children != []
    ensures EvictSome(s, children, participants)
         == EvictSome(EvictOne(s, children[0], participants), children[1..], participants)
  {
    var rest := Leaving(s.info, children[1..], participants);
    if Leaves(s.info, children[0], participants) {
      assert s.top + ([children[0]] + rest) == s.top + [children[0]] + rest;
    } else {
      assert [] + rest == rest;
    }
  }

  /** Leaving children go back to top level, then the children are cleared. */
  function Evict<N(==)>(s: Forest<N>, c: N, participants: seq<string>): Forest<N> {
    EvictSome(s, Kids(s, c), participants).(kids := s.kids[c := []])
  }

  function SetState<N>(s: Forest<N>, n: N, state: State): Forest<N> {
    if n in s.info then s.(info := s.info[n := s.info[n].(state := state)]) else s
  }

  // ----- Removing calls -----

  predicate Restored<N>(info: map<N, Info>, n: N) {
    n in info && !info[n].state.Over? && !info[n].state.Error?
  }

  /** The children that go back to top level when their conference is removed. */
  function Restorable<N>(info: map<N, Info>, children: seq<N>): seq<N> {
    if children == [] then []
    else (if Restored(info, children[0]) then [children[0]] else []) + Restorable(info, children[1..])
  }

  lemma {:induction false} RestorableAre<N>(info: map<N, Info>, children: seq<N>)
    ensures
      var r := Restorable(info, children);
      && (forall n :: n in r ==> n in children && Restored(info, n))
      && (forall n :: n in children && Restored(info, n) ==> n in r)
      && (NoDup(children) ==> NoDup(r))
  {
    if children != [] {
      RestorableAre(info, children[1..]);
    }
  }

  /** One removal: the node leaves the top level and its children take its place at the end. */
  function RemoveOne<N(==)>(s: Forest<N>, n: N): Forest<N> {
    s.(top := RemoveFirst(s.top, n) + Restorable(s.info, Kids(s, n)))
  }

  predicate InError<N>(s: Forest<N>, n: N) {
    n in s.info && s.info[n].state.Error?
  }

  predicate Empty<N>(s: Forest<N>, c: N) {
    IsConference(s, c) && Kids(s, c) == []
  }

  /** The conferences that a removal cleans up as well. */
  predicate Stale<N>(s: Forest<N>, c: N) {
    IsConference(s, c) &&
    (Kids(s, c) == [] || InError(s, Kids(s, c)[0]) || InError(s, Kids(s, c)[|Kids(s, c)| - 1]))
  }

  function FirstStale<N(==)>(s: Forest<N>, nodes: seq<N>): (r: Option<N>)
    ensures r.Some? ==> r.value in nodes && Stale(s, r.value)
    ensures r.None? ==> forall i :: 0 <= i < |nodes| ==> !Stale(s, nodes[i])
  {
    if nodes == [] then None
    else if Stale(s, nodes[0]) then Some(nodes[0])
    else FirstStale(s, nodes[1..])
  }

  function FirstEmpty<N(==)>(s: Forest<N>, nodes: seq<N>): (r: Option<N>)
    ensures r.Some? ==> r.value in nodes && Empty(s, r.value)
    ensures r.None? ==> forall i :: 0 <= i < |nodes| ==> !Empty(s, nodes[i])
  {
    if nodes == [] then None
    else if Empty(s, nodes[0]) then Some(nodes[0])
    else FirstEmpty(s, nodes[1..])
  }

  function Conferences<N>(s: Forest<N>, nodes: seq<N>): nat {
    if nodes == [] then 0 else (if IsConference(s, nodes[0]) then 1 else 0) + Conferences(s, nodes[1..])
  }

  /** No conference is a child: each removal takes one conference off the top level. */
  ghost predicate FlatTree<N>(s: Forest<N>) {
    forall c :: c in s.kids ==> forall n :: n in s.kids[c] ==> !IsConference(s, n)
  }

  lemma {:induction false} ConferencesAppend<N>(s: Forest<N>, a: seq<N>, b: seq<N>)
    ensures Conferences(s, a + b) == Conferences(s, a) + Conferences(s, b)
  {
    if a == [] {
      assert a + b == b;
    } else {
      assert (a + b)[1..] == a[1..] + b;
      ConferencesAppend(s, a[1..], b);
    }
  }

  lemma {:induction false} CallsOnly<N>(s: Forest<N>, nodes: seq<N>)
    requires forall n :: n in nodes ==> !IsConference(s, n)
    ensures Conferences(s, nodes) == 0
  {
    if nodes != [] {
      CallsOnly(s, nodes[1..]);
    }
  }

  lemma {:induction false} ConferencesWithout<N>(s: Forest<N>, nodes: seq<N>, n: N)
    ensures Conferences(s, RemoveFirst(nodes, n))
         == Conferences(s, nodes) - (if n in nodes && IsConference(s, n) then 1 else 0)
  {
    if nodes != [] && nodes[0] != n {
      ConferencesWithout(s, nodes[1..], n);
      ConferencesAppend(s, [nodes[0]], RemoveFirst(nodes[1..], n));
    }
  }

  /** The count depends on which nodes are conferences and on nothing else. */
  lemma {:induction false} SameConferences<N>(s: Forest<N>, t: Forest<N>, nodes: seq<N>)
    requires forall n :: n in nodes ==> IsConference(s, n) == IsConference(t, n)
    ensures Conferences(s, nodes) == Conferences(t, nodes)
  {
    if nodes != [] {
      SameConferences(s, t, nodes[1..]);
    }
  }

  /** Removing a top-level node never adds a conference, and takes one away if it was one. */
  lemma RemovalShrinks<N>(s: Forest<N>, n: N)
    requires FlatTree(s)
    ensures FlatTree(RemoveOne(s, n))
    ensures Conferences(RemoveOne(s, n), RemoveOne(s, n).top)
         == Conferences(s, s.top) - (if n in s.top && IsConference(s, n) then 1 else 0)
  {
    var back := Restorable(s.info, Kids(s, n));
    RestorableAre(s.info, Kids(s, n));
    CallsOnly(s, back);
    ConferencesWithout(s, s.top, n);
    ConferencesAppend(s, RemoveFirst(s.top, n), back);
    SameConferences(s, RemoveOne(s, n), RemoveOne(s, n).top);
  }

  /** Removals go on while a stale conference is left; each one ends in state OVER. */
  function Cleanup<N(==)>(s: Forest<N>): (r: Forest<N>)
    requires FlatTree(s)
    ensures FlatTree(r) && r.info.Keys == s.info.Keys
    ensures forall n :: n in s.info ==> r.info[n].conference == s.info[n].conference
    ensures Conferences(r, r.top) <= Conferences(s, s.top)
    decreases Conferences(s, s.top)
  {
    match FirstStale(s, s.top)
    case None => s
    case Some(c) =>
      RemovalShrinks(s, c);
      Retire(Cleanup(RemoveOne(s, c)), c)
  }

  /** changeCurrentState(OVER), seen from the tree. */
  function Retire<N(==)>(s: Forest<N>, c: N): (r: Forest<N>)
    ensures FlatTree(s) ==> FlatTree(r)
    ensures r.info.Keys == s.info.Keys
    ensures forall n :: n in s.info ==> r.info[n].conference == s.info[n].conference
    ensures Conferences(r, r.top) == Conferences(s, s.top)
  {
    SameConferences(s, SetState(s, c, Over), s.top);
    SetState(s, c, Over)
  }

  function RemoveCall<N(==)>(s: Forest<N>, n: N): (r: Forest<N>)
    requires FlatTree(s)
    ensures FlatTree(r)
  {
    RemovalShrinks(s, n);
    Cleanup(RemoveOne(s, n))
  }

  function RemoveConference<N(==)>(s: Forest<N>, c: N): (r: Forest<N>)
    requires FlatTree(s)
    ensures FlatTree(r)
    ensures Conferences(r, r.top) <= Conferences(s, s.top) - (if c in s.top && IsConference(s, c) then 1 else 0)
  {
    RemovalShrinks(s, c);
    Retire(RemoveCall(s, c), c)
  }

  function RemoveEmpty<N(==)>(s: Forest<N>): (r: Forest<N>)
    requires FlatTree(s)
    decreases Conferences(s, s.top)
  {
    match FirstEmpty(s, s.top)
    case None => s
    case Some(c) => RemoveEmpty(RemoveConference(s, c))
  }

  // ----- Reported changes -----

  /** A watched call or a conference that reports a change in state ERROR is removed at once. */
  predicate Reports<N>(s: Forest<N>, n: N) {
    InError(s, n) && (s.info[n].conference || s.info[n].watched)
  }

  function Reported<N(==)>(s: Forest<N>, n: N): (r: Forest<N>)
    requires FlatTree(s)
    ensures FlatTree(r)
  {
    if Reports(s, n) then RemoveCall(s, n) else s
  }

  lemma SetStateFlat<N>(s: Forest<N>, n: N, state: State)
    requires FlatTree(s)
    ensures FlatTree(SetState(s, n, state))
  {
  }

  /** A call changes its state, and reports the change. */
  function MoveCall<N(==)>(s: Forest<N>, n: N, state: State): (r: Forest<N>)
    requires FlatTree(s)
    ensures FlatTree(r)
  {
    SetStateFlat(s, n, state);
    if n in s.info && s.info[n].state == state then s else Reported(SetState(s, n, state), n)
  }

  // ----- Changing a conference -----

  /**
    The new state, which is reported before anything else; then the participants that left, and the
    participants that joined or stayed.
   */
  function Rejoined<N(==)>(s: Forest<N>, c: N, state: State, participants: seq<string>): Forest<N>
    requires FlatTree(s)
  {
    SetStateFlat(s, c, state);
    ReadoptAll(Evict(Reported(SetState(s, c, state), c), c, participants), c, participants)
  }

  /** Unknown conferences, and conferences that are not in the tree, are left alone. */
  predicate Changeable<N(==)>(s: Forest<N>, id: string) {
    id in s.ids && Placed(s, s.ids[id])
  }

  function ChangeConference<N(==)>(s: Forest<N>, id: string, state: State, participants: seq<string>): Forest<N>
    requires FlatTree(s)
    requires Changeable(s, id) ==> FlatTree(Rejoined(s, s.ids[id], state, participants))
  {
    if Changeable(s, id) then RemoveEmpty(Rejoined(s, s.ids[id], state, participants)) else s
  }

  // ----- Calls on their own -----

  /** A call is sent to the daemon through some account. */
  function SetId<N>(s: Forest<N>, n: N, id: string): Forest<N> {
    if n in s.info then s.(info := s.info[n := s.info[n].(id := id, hasAccount := true)]) else s
  }

  /** A placed call becomes reachable through the identifier the daemon gave it. */
  function RegisterCall<N>(s: Forest<N>, n: N, id: string): Forest<N> {
    SetId(s, n, id).(ids := s.ids[id := n])
  }
}
