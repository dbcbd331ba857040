/**
  Conferences that report an error. A conference state that is read as ERROR removes the conference
  before its participants are looked at, so the change goes on with a conference that is no longer in
  the tree. This module says exactly when the tree survives that.
 */
module CallForestErrors {
  import opened Lists
  import opened CallTables
  import opened CallForest
  import opened CallForestShape
  import opened CallForestRemoval

  /** Known participants are all over. */
  ghost predicate AllOver<N>(s: Forest<N>, participants: seq<string>) {
    forall i :: 0 <= i < |participants| && participants[i] in s.ids ==> !Alive(s, s.ids[participants[i]])
  }

  /** Nobody alive is in the conference or to join it. */
  ghost predicate Vacant<N>(s: Forest<N>, c: N, participants: seq<string>) {
    (forall x :: x in Kids(s, c) ==> !Alive(s, x)) && AllOver(s, participants)
  }

  // ----- Conferences off the tree -----

  lemma ClearedShape<N>(s: Forest<N>, c: N)
    requires Shape(s) && IsConference(s, c)
    ensures Shape(s.(kids := s.kids[c := []]))
  {
    hide NoDup;
    var t := s.(kids := s.kids[c := []]);
    EmptyDistinct<N>();
    assert Closed(t) && Linked(t);
    forall d, n | d in t.top && n in Kids(t, d) ensures n !in t.top {
      assert d in s.top && n in Kids(s, d);
    }
  }

  lemma ClearedPlaced<N>(s: Forest<N>, c: N)
    requires AllPlaced(s, {}) && c !in s.top
    ensures AllPlaced(s.(kids := s.kids[c := []]), {})
  {
    var t := s.(kids := s.kids[c := []]);
    forall n | n in t.info && Alive(t, n) ensures Placed(t, n) {
      assert Alive(s, n) && Placed(s, n);
      if n !in s.top {
        var d :| d in s.top && n in Kids(s, d);
        assert d in t.top && n in Kids(t, d);
      }
    }
  }

  lemma ClearedIndexed<N>(s: Forest<N>, c: N)
    requires Indexed(s)
    ensures Indexed(s.(kids := s.kids[c := []]))
  {
  }

  lemma ClearedKeeps<N>(s: Forest<N>, c: N)
    requires Inv(s) && IsConference(s, c) && c !in s.top
    ensures Inv(s.(kids := s.kids[c := []]))
  {
    hide Shape, Indexed, AllPlaced;
    ClearedShape(s, c);
    ClearedPlaced(s, c);
    ClearedIndexed(s, c);
    NoNewCreation(s, s.(kids := s.kids[c := []]));
  }

  lemma ReadoptOffShape<N>(s: Forest<N>, c: N, n: N)
    requires Shape(s) && Indexed(s) && IsConference(s, c) && c !in s.top
    requires IsCall(s, n) && n !in s.kids[c] && s.info[n].id != ""
    ensures
      var t := Readopt(s, c, n);
      && Shape(t) && Indexed(t) && Moved(s, c, n, t) && c !in t.top && n !in t.top
  {
    ReadoptMoves(s, c, n);
    ReadoptShape(s, c, n);
    MovedIndexed(s, c, n, Readopt(s, c, n));
  }

  /** Moving a call that is over under such a conference loses nothing. */
  lemma ReadoptOff<N>(s: Forest<N>, c: N, n: N)
    requires Inv(s) && IsConference(s, c) && c !in s.top
    requires IsCall(s, n) && !Alive(s, n) && n !in s.kids[c] && s.info[n].id != ""
    ensures Inv(Readopt(s, c, n)) && Readopt(s, c, n).info == s.info && Readopt(s, c, n).ids == s.ids
    ensures c !in Readopt(s, c, n).top
  {
    hide Readopt, Indexed;
    ReadoptOffShape(s, c, n);
    var t := Readopt(s, c, n);
    forall m | m in t.info && Alive(t, m) ensures Placed(t, m) {
      assert Alive(s, m) && Placed(s, m) && m != n;
      if m !in s.top {
        var d :| d in s.top && m in Kids(s, d);
        assert d in t.top && m in Kids(t, d);
      }
    }
    NoNewCreation(s, t);
  }

  lemma {:induction false} ReadoptAllOff<N>(s: Forest<N>, c: N, participants: seq<string>)
    requires Inv(s) && IsConference(s, c) && c !in s.top && CallsOnlyIds(s, participants) && NoDup(participants)
    requires Absent(s, c, participants) && AllOver(s, participants)
    ensures Inv(ReadoptAll(s, c, participants))
    decreases |participants|
  {
    hide Shape, Indexed, AllPlaced, OneCreation, Absent, NoDup;
    if participants != [] {
      var p := participants[0];
      RestOnlyCalls(s, c, participants);
      AbsentRest(s, c, participants);
      if p in s.ids {
        ReadoptOff(s, c, s.ids[p]);
        ReadoptAllOff(Readopt(s, c, s.ids[p]), c, participants[1..]);
      } else {
        ReadoptAllOff(s, c, participants[1..]);
      }
    }
  }

  // ----- The removal inside a change -----

  /** A removed conference has gone, and its live children are at top level and still listed under it. */
  lemma RemovalLeaves<N>(s: Forest<N>, c: N)
    requires Inv(s) && FlatTree(s) && IsConference(s, c) && c in s.top
    ensures
      var t := RemoveCall(s, c);
      && c !in t.top && t.kids == s.kids && t.ids == s.ids && IsConference(t, c) && SameCalls(s, t)
      && (forall x :: x in s.kids[c] && Alive(s, x) ==> x in t.top)
  {
    hide Linked, Separate, Indexed, AllPlaced, OneCreation, Cleanup;
    var one := RemoveOne(s, c);
    RemovalShrinks(s, c);
    RemoveOneTop(s, c);
    RemoveOneGone(s, c);
    CleanupTop(one);
    CleanupSameCalls(one);
    CleanupIds(one);
    CleanupConference(one, c);
    hide RemoveOne;
    forall x | x in s.kids[c] && Alive(s, x) ensures x in Cleanup(one).top {
      assert x in one.top && IsCall(one, x);
    }
  }

  lemma RemoveOneGone<N>(s: Forest<N>, c: N)
    requires Inv(s) && IsConference(s, c) && c in s.top
    ensures c !in RemoveOne(s, c).top && RemoveOne(s, c).ids == s.ids
    ensures c in s.kids && forall x :: x in s.kids[c] && Alive(s, x) ==> x in RemoveOne(s, c).top
  {
    hide Separate, Indexed, AllPlaced, OneCreation, Restorable;
    RemovalFacts(s, c);
    RestorableAre(s.info, Kids(s, c));
  }

  lemma ErrorRemoves<N>(s: Forest<N>, c: N)
    requires Inv(s) && FlatTree(s) && IsConference(s, c) && c in s.top
    ensures FlatTree(SetState(s, c, Error))
    ensures
      var t := Reported(SetState(s, c, Error), c);
      && Inv(t) && c !in t.top && t.kids == s.kids && t.ids == s.ids && IsConference(t, c) && SameCalls(s, t)
      && (forall x :: x in s.kids[c] && Alive(s, x) ==> x in t.top)
  {
    hide Shape, Indexed, AllPlaced, OneCreation, RemoveCall;
    SetStateFlat(s, c, Error);
    SetConferenceState(s, c, Error);
    ReportedKeeps(SetState(s, c, Error), c);
    RemovalLeaves(SetState(s, c, Error), c);
  }

  lemma ChildrenAreCalls<N>(s: Forest<N>, c: N)
    requires Inv(s) && IsConference(s, c)
    ensures c in s.kids && forall x :: x in s.kids[c] ==> IsCall(s, x)
  {
  }

  lemma {:induction false} CleanupIds<N>(s: Forest<N>)
    requires FlatTree(s)
    ensures Cleanup(s).ids == s.ids && Cleanup(s).par == s.par
    decreases Conferences(s, s.top)
  {
    var stale := FirstStale(s, s.top);
    if stale.Some? {
      RemovalShrinks(s, stale.value);
      CleanupIds(RemoveOne(s, stale.value));
    }
  }

  lemma CleanupConference<N>(s: Forest<N>, c: N)
    requires FlatTree(s) && IsConference(s, c)
    ensures IsConference(Cleanup(s), c)
  {
  }

  /** With nobody alive in it, an eviction only clears the children. */
  lemma EvictNobody<N>(s: Forest<N>, c: N, participants: seq<string>)
    requires c in s.kids && forall x :: x in s.kids[c] ==> !Leaves(s.info, x, participants)
    ensures Evict(s, c, participants) == s.(kids := s.kids[c := []])
  {
    NobodyLeaves(s.info, s.kids[c], participants);
    assert s.top + [] == s.top;
    assert s.par - {} == s.par;
    assert (set n | n in Leaving(s.info, s.kids[c], participants)) == {};
  }

  lemma {:induction false} NobodyLeaves<N>(info: map<N, Info>, children: seq<N>, participants: seq<string>)
    requires forall x :: x in children ==> !Leaves(info, x, participants)
    ensures Leaving(info, children, participants) == []
  {
    if children != [] {
      NobodyLeaves(info, children[1..], participants);
    }
  }

  lemma VacantKeeps<N>(s: Forest<N>, c: N, participants: seq<string>)
    requires Inv(s) && FlatTree(s) && IsConference(s, c) && c in s.top && Vacant(s, c, participants)
    requires NoDup(participants) && CallsOnlyIds(s, participants)
    ensures Inv(Rejoined(s, c, Error, participants))
  {
    hide Shape, Indexed, AllPlaced, OneCreation, Reported, SetState, NoDup;
    ErrorRemoves(s, c);
    ChildrenAreCalls(s, c);
    var t := Reported(SetState(s, c, Error), c);
    EvictNobody(t, c, participants);
    ClearedKeeps(t, c);
    var e := Evict(t, c, participants);
    assert AllOver(e, participants) && Absent(e, c, participants) && CallsOnlyIds(e, participants);
    ReadoptAllOff(e, c, participants);
  }

  // ----- A live participant is lost -----

  /** A call under a conference that is not in the tree, and nowhere else. */
  ghost predicate Lost<N>(s: Forest<N>, c: N, n: N) {
    IsConference(s, c) && IsCall(s, n) && c !in s.top && n !in s.top && n in Kids(s, c) && Linked(s)
  }

  lemma LostIsNotPlaced<N>(s: Forest<N>, c: N, n: N)
    requires Lost(s, c, n)
    ensures !Placed(s, n)
  {
  }

  /** Either the call is lost already, or its turn is still to come. */
  ghost predicate Losing<N>(s: Forest<N>, c: N, participants: seq<string>, n: N) {
    || (n in Kids(s, c) && n !in s.top)
    || exists i :: 0 <= i < |participants| && participants[i] in s.ids && s.ids[participants[i]] == n
  }

  lemma {:induction false} ReadoptAllLoses<N>(s: Forest<N>, c: N, participants: seq<string>, n: N)
    requires Shape(s) && Indexed(s) && IsConference(s, c) && c !in s.top && IsCall(s, n)
    requires CallsOnlyIds(s, participants) && NoDup(participants) && Absent(s, c, participants)
    requires Losing(s, c, participants, n)
    ensures Lost(ReadoptAll(s, c, participants), c, n) && ReadoptAll(s, c, participants).info == s.info
    decreases |participants|
  {
    hide Linked, Separate, Indexed, Absent, NoDup;
    if participants == [] {
    } else {
      var p := participants[0];
      RestOnlyCalls(s, c, participants);
      AbsentRest(s, c, participants);
      LosingRest(s, c, participants, n);
      if p in s.ids {
        ReadoptOffShape(s, c, s.ids[p]);
        ReadoptAllLoses(Readopt(s, c, s.ids[p]), c, participants[1..], n);
      } else {
        ReadoptAllLoses(s, c, participants[1..], n);
      }
    }
  }

  lemma NotAChildYet<N>(s: Forest<N>, c: N, participants: seq<string>)
    requires Closed(s) && Indexed(s) && IsConference(s, c) && participants != [] && participants[0] in s.ids
    requires CallsOnlyIds(s, participants) && Absent(s, c, participants)
    ensures
      var n := s.ids[participants[0]];
      c in s.kids && IsCall(s, n) && n !in s.kids[c] && s.info[n].id != ""
  {
  }

  lemma LosingRest<N>(s: Forest<N>, c: N, participants: seq<string>, n: N)
    requires Shape(s) && Indexed(s) && IsConference(s, c) && c !in s.top && IsCall(s, n)
    requires participants != [] && CallsOnlyIds(s, participants) && Absent(s, c, participants)
    requires Losing(s, c, participants, n)
    ensures
      var p := participants[0];
      Losing(if p in s.ids then Readopt(s, c, s.ids[p]) else s, c, participants[1..], n)
  {
    hide Linked, Separate, Closed;
    var p := participants[0];
    if p in s.ids {
      NotAChildYet(s, c, participants);
      ReadoptOffShape(s, c, s.ids[p]);
      hide Indexed, Readopt;
    }
    if !(n in Kids(s, c) && n !in s.top) {
      var i :| 0 <= i < |participants| && participants[i] in s.ids && s.ids[participants[i]] == n;
      if i > 0 {
        assert participants[1..][i - 1] == participants[i];
      }
    }
  }

  lemma RemoveOneLost<N>(s: Forest<N>, c: N, n: N, d: N)
    requires Lost(s, c, n) && FlatTree(s) && d in s.top
    ensures Lost(RemoveOne(s, d), c, n)
  {
    RestorableAre(s.info, Kids(s, d));
    assert forall x :: x in Restorable(s.info, Kids(s, d)) ==> x in Kids(s, d) && !IsConference(s, x);
  }

  lemma {:induction false} CleanupLost<N>(s: Forest<N>, c: N, n: N)
    requires Lost(s, c, n) && FlatTree(s)
    ensures Lost(Cleanup(s), c, n)
    decreases Conferences(s, s.top)
  {
    hide Lost, RemoveOne;
    var stale := FirstStale(s, s.top);
    if stale.Some? {
      RemovalShrinks(s, stale.value);
      RemoveOneLost(s, c, n, stale.value);
      CleanupLost(RemoveOne(s, stale.value), c, n);
      RetireLost(Cleanup(RemoveOne(s, stale.value)), c, n, stale.value);
    }
  }

  lemma RetireLost<N>(s: Forest<N>, c: N, n: N, d: N)
    requires Lost(s, c, n)
    ensures Lost(Retire(s, d), c, n)
  {
  }

  lemma {:induction false} RemoveEmptyLost<N>(s: Forest<N>, c: N, n: N)
    requires Lost(s, c, n) && FlatTree(s)
    ensures Lost(RemoveEmpty(s), c, n)
    decreases Conferences(s, s.top)
  {
    hide Lost, RemoveOne;
    var empty := FirstEmpty(s, s.top);
    if empty.Some? {
      var d := empty.value;
      RemovalShrinks(s, d);
      RemoveOneLost(s, c, n, d);
      CleanupLost(RemoveOne(s, d), c, n);
      RetireLost(RemoveCall(s, d), c, n, d);
      RemoveEmptyLost(RemoveConference(s, d), c, n);
    }
  }

  // ----- A live child that leaves is there twice -----

  lemma {:induction false} ReadoptAllTwice<N>(s: Forest<N>, c: N, participants: seq<string>, x: N)
    requires multiset(s.top)[x] >= 2
    requires forall i :: 0 <= i < |participants| && participants[i] in s.ids ==> s.ids[participants[i]] != x
    ensures multiset(ReadoptAll(s, c, participants).top)[x] >= 2
    decreases |participants|
  {
    if participants != [] {
      var p := participants[0];
      if p in s.ids {
        RemoveFirstKeepsOthers(s.top, s.ids[p], x);
      }
      ReadoptAllTwice(ReadoptKnown(s, c, p), c, participants[1..], x);
    }
  }

  lemma {:induction false} RemoveEmptyTwice<N>(s: Forest<N>, x: N)
    requires FlatTree(s) && IsCall(s, x) && multiset(s.top)[x] >= 2
    ensures multiset(RemoveEmpty(s).top)[x] >= 2
    decreases Conferences(s, s.top)
  {
    var empty := FirstEmpty(s, s.top);
    if empty.Some? {
      var d := empty.value;
      RemovalShrinks(s, d);
      RemoveFirstKeepsOthers(s.top, d, x);
      CleanupKeepsTwice(RemoveOne(s, d), x);
      RemoveEmptyTwice(RemoveConference(s, d), x);
    }
  }

  // ----- The exact condition -----

  lemma ReadoptFlat<N>(s: Forest<N>, c: N, p: string)
    requires FlatTree(s) && (p in s.ids ==> IsCall(s, s.ids[p]))
    ensures FlatTree(ReadoptKnown(s, c, p))
  {
  }

  lemma {:induction false} ReadoptAllFlat<N>(s: Forest<N>, c: N, participants: seq<string>)
    requires FlatTree(s) && CallsOnlyIds(s, participants)
    ensures FlatTree(ReadoptAll(s, c, participants))
    decreases |participants|
  {
    if participants != [] {
      hide FlatTree;
      ReadoptFlat(s, c, participants[0]);
      ReadoptAllFlat(ReadoptKnown(s, c, participants[0]), c, participants[1..]);
    }
  }

  /** Whatever the state, children stay calls. */
  lemma RejoinedFlat<N>(s: Forest<N>, c: N, state: State, participants: seq<string>)
    requires Inv(s) && FlatTree(s) && IsConference(s, c) && c in s.top && CallsOnlyIds(s, participants)
    ensures FlatTree(Rejoined(s, c, state, participants))
  {
    hide Shape, Indexed, AllPlaced, OneCreation;
    SetStateFlat(s, c, state);
    var t := Reported(SetState(s, c, state), c);
    if state.Error? {
      hide Reported, SetState;
      ErrorRemoves(s, c);
      assert CallsOnlyIds(t, participants);
    }
    ReadoptAllFlat(Evict(t, c, participants), c, participants);
  }

  /** A live participant that is not left behind ends up nowhere in the tree. */
  lemma ErrorLoses<N>(s: Forest<N>, c: N, participants: seq<string>, n: N)
    requires Inv(s) && FlatTree(s) && IsConference(s, c) && c in s.top
    requires NoDup(participants) && CallsOnlyIds(s, participants)
    requires forall x :: x in Kids(s, c) ==> !Leaves(s.info, x, participants)
    requires exists i :: 0 <= i < |participants| && participants[i] in s.ids && s.ids[participants[i]] == n
    requires Alive(s, n)
    ensures FlatTree(Rejoined(s, c, Error, participants))
    ensures
      var t := RemoveEmpty(Rejoined(s, c, Error, participants));
      Alive(t, n) && !Placed(t, n)
  {
    hide Linked, Separate, Indexed, AllPlaced, OneCreation, Reported, SetState, Lost, NoDup;
    RejoinedFlat(s, c, Error, participants);
    ErrorRemoves(s, c);
    ChildrenAreCalls(s, c);
    var t := Reported(SetState(s, c, Error), c);
    forall x | x in t.kids[c] ensures !Leaves(t.info, x, participants) {
      assert x in Kids(s, c) && IsCall(s, x) && t.info[x] == s.info[x];
    }
    EvictNobody(t, c, participants);
    ClearedKeeps(t, c);
    var e := Evict(t, c, participants);
    assert Losing(e, c, participants, n) && Absent(e, c, participants) && CallsOnlyIds(e, participants);
    ReadoptAllLoses(e, c, participants, n);
    var r := ReadoptAll(e, c, participants);
    RemoveEmptyLost(r, c, n);
    RemoveEmptySameCalls(r);
    LostIsNotPlaced(RemoveEmpty(r), c, n);
  }

  /** A live child that leaves is put back twice. */
  lemma ErrorDuplicates<N>(s: Forest<N>, c: N, participants: seq<string>, x: N)
    requires Inv(s) && FlatTree(s) && IsConference(s, c) && c in s.top && CallsOnlyIds(s, participants)
    requires x in s.kids[c] && Alive(s, x) && s.info[x].id !in participants
    ensures FlatTree(Rejoined(s, c, Error, participants))
    ensures !NoDup(RemoveEmpty(Rejoined(s, c, Error, participants)).top)
  {
    hide Linked, Separate, AllPlaced, OneCreation, Reported, SetState, NoDup, Leaving;
    RejoinedFlat(s, c, Error, participants);
    ErrorRemoves(s, c);
    var t := Reported(SetState(s, c, Error), c);
    LeavingAre(t.info, t.kids[c], participants);
    var e := Evict(t, c, participants);
    var out := Leaving(t.info, t.kids[c], participants);
    assert x in t.top && x in out && e.top == t.top + out;
    OnceEach(t.top, out, x);
    forall i | 0 <= i < |participants| && participants[i] in e.ids ensures e.ids[participants[i]] != x {
      assert s.info[s.ids[participants[i]]].id == participants[i];
    }
    ReadoptAllTwice(e, c, participants, x);
    ReadoptAllCalls(e, c, participants, x);
    var r := ReadoptAll(e, c, participants);
    RemoveEmptyTwice(r, x);
    TwiceIsDuplicate(RemoveEmpty(r).top, x);
  }

  lemma OnceEach<T>(a: seq<T>, b: seq<T>, x: T)
    requires x in a && x in b
    ensures multiset(a + b)[x] >= 2
  {
    assert x in multiset(a) && x in multiset(b);
  }

  lemma {:induction false} ReadoptAllCalls<N>(s: Forest<N>, c: N, participants: seq<string>, x: N)
    requires IsCall(s, x)
    ensures IsCall(ReadoptAll(s, c, participants), x)
    decreases |participants|
  {
    if participants != [] {
      ReadoptAllCalls(ReadoptKnown(s, c, participants[0]), c, participants[1..], x);
    }
  }

  lemma OccupiedBreaks<N>(s: Forest<N>, c: N, participants: seq<string>)
    requires Inv(s) && FlatTree(s) && IsConference(s, c) && c in s.top && !Vacant(s, c, participants)
    requires NoDup(participants) && CallsOnlyIds(s, participants)
    ensures FlatTree(Rejoined(s, c, Error, participants))
    ensures !Inv(RemoveEmpty(Rejoined(s, c, Error, participants)))
  {
    hide Linked, OneCreation, Rejoined, RemoveEmpty, NoDup;
    RejoinedFlat(s, c, Error, participants);
    ChildrenAreCalls(s, c);
    if x :| x in s.kids[c] && Alive(s, x) && s.info[x].id !in participants {
      ErrorDuplicates(s, c, participants, x);
    } else {
      LiveParticipant(s, c, participants);
      var i :| 0 <= i < |participants| && participants[i] in s.ids && Alive(s, s.ids[participants[i]]);
      ErrorLoses(s, c, participants, s.ids[participants[i]]);
    }
  }

  /** A live child that does not leave is a known participant. */
  lemma LiveParticipant<N>(s: Forest<N>, c: N, participants: seq<string>)
    requires Indexed(s) && c in s.kids && !Vacant(s, c, participants)
    requires forall x :: x in s.kids[c] && Alive(s, x) ==> s.info[x].id in participants
    ensures exists i :: 0 <= i < |participants| && participants[i] in s.ids && Alive(s, s.ids[participants[i]])
  {
    if x :| x in s.kids[c] && Alive(s, x) {
      var i :| 0 <= i < |participants| && participants[i] == s.info[x].id;
      assert participants[i] in s.ids && s.ids[participants[i]] == x;
    }
  }

  /** What the daemon may say of a conference without harm: no error, or an error of one nobody is in. */
  ghost predicate Harmless<N>(s: Forest<N>, id: string, state: State, participants: seq<string>) {
    state.Error? && Changeable(s, id) ==> Vacant(s, s.ids[id], participants)
  }

  /** A change of a conference keeps the tree if and only if it is no error, or nobody alive is concerned. */
  lemma ChangeKeepsExactly<N>(s: Forest<N>, id: string, state: State, participants: seq<string>)
    requires Inv(s) && FlatTree(s) && !LifeOf(state).Creation?
    requires NoDup(participants) && CallsOnlyIds(s, participants)
    requires id in s.ids ==> IsConference(s, s.ids[id])
    ensures Changeable(s, id) ==> FlatTree(Rejoined(s, s.ids[id], state, participants))
    ensures Inv(ChangeConference(s, id, state, participants)) <==> Harmless(s, id, state, participants)
  {
    hide Linked, Separate, Indexed, AllPlaced, OneCreation, Rejoined, RemoveEmpty;
    hide Vacant, NoDup, CallsOnlyIds, FlatTree;
    if Changeable(s, id) {
      var c := s.ids[id];
      PlacedConference(s, c);
      RejoinedFlat(s, c, state, participants);
      if !state.Error? {
        RejoinedKeeps(s, c, state, participants);
        RemoveEmptyKeeps(Rejoined(s, c, state, participants));
      } else if Vacant(s, c, participants) {
        VacantKeeps(s, c, participants);
        RemoveEmptyKeeps(Rejoined(s, c, Error, participants));
      } else {
        OccupiedBreaks(s, c, participants);
      }
    }
  }

  lemma ExampleFacts()
    ensures
      var s := OneInConference();
      && "conf" in s.ids && s.ids["conf"] == true && Changeable(s, "conf") && IsConference(s, true) && true in s.top
      && Kids(s, true) == [false] && "a" in s.ids && s.ids["a"] == false && s.info[false].id == "a" && Alive(s, false)
  {
    var s := OneInConference();
    assert true in s.top;
  }

  lemma ExampleHolds()
    ensures Inv(OneInConference()) && FlatTree(OneInConference()) && CallsOnlyIds(OneInConference(), ["a"])
    ensures ConferenceState("ACTIVE_ATTACHED_REC") == Error
  {
    hide Shape, Indexed, AllPlaced, OneCreation, FlatTree, OneInConference;
    ExampleFacts();
    ExampleShape();
    ExampleCalls();
    ExamplePlaced();
    Flat(OneInConference());
  }

  /** A recorded conference with one talking call: the call is lost. */
  lemma ErrorExample()
    ensures
      var s := OneInConference();
      && Inv(s) && FlatTree(s) && Changeable(s, "conf") && CallsOnlyIds(s, ["a"])
      && FlatTree(Rejoined(s, s.ids["conf"], ConferenceState("ACTIVE_ATTACHED_REC"), ["a"]))
      && var t := ChangeConference(s, "conf", ConferenceState("ACTIVE_ATTACHED_REC"), ["a"]);
      && Alive(t, false) && !Placed(t, false) && !Inv(t)
  {
    hide Inv, Shape, FlatTree, Rejoined, RemoveEmpty, ConferenceState, OneInConference, Placed;
    var s := OneInConference();
    ExampleFacts();
    ExampleHolds();
    assert s.ids[["a"][0]] == false;
    ErrorLoses(s, true, ["a"], false);
    ChangeKeepsExactly(s, "conf", Error, ["a"]);
  }

  // ----- Calls that report an error -----

  /** A call in ERROR is never put back. */
  lemma {:induction false} CleanupStaysOut<N>(s: Forest<N>, n: N)
    requires FlatTree(s) && IsCall(s, n) && InError(s, n) && n !in s.top
    ensures n !in Cleanup(s).top && InError(Cleanup(s), n)
    decreases Conferences(s, s.top)
  {
    var stale := FirstStale(s, s.top);
    if stale.Some? {
      RemovalShrinks(s, stale.value);
      RestorableAre(s.info, Kids(s, stale.value));
      CleanupStaysOut(RemoveOne(s, stale.value), n);
    }
  }

  /** Several reports of the same call in ERROR are as good as one. */
  lemma ReportOnce<N>(s: Forest<N>, n: N)
    requires Shape(s) && FlatTree(s) && IsCall(s, n)
    ensures Reported(Reported(s, n), n) == Reported(s, n)
  {
    hide Linked;
    if Reports(s, n) {
      CallRemoval(s, n);
      var one := RemoveOne(s, n);
      RemovalShrinks(s, n);
      CleanupStaysOut(one, n);
      CleanupDone(one);
      CleanupTop(one);
      var t := Cleanup(one);
      assert RemoveOne(t, n) == t by { assert t.top + [] == t.top; }
    }
  }

  lemma CallRemoval<N>(s: Forest<N>, n: N)
    requires Shape(s) && IsCall(s, n)
    ensures Kids(s, n) == [] && n !in RemoveOne(s, n).top
  {
    CallRemovable(s, n);
    RemovalFacts(s, n);
  }
}
