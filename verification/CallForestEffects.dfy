/**
  Where every node is after a change to the tree, written down without the steps that lead there: the
  participants of a conference, the calls that leave it, and what the removal of conferences leaves.
 */
module CallForestEffects {
  import opened Options
  import opened Lists
  import opened CallTables
  import opened CallForest
  import opened CallForestShape
  import opened CallForestRemoval
  import opened CallForestErrors
  import R = CallForestRuns

  // ----- Gathering participants -----

  /** The known participants, in the order of the daemon. */
  function Members<N>(ids: map<string, N>, participants: seq<string>): seq<N> {
    if participants == [] then []
    else (if participants[0] in ids then [ids[participants[0]]] else []) + Members(ids, participants[1..])
  }

  /** The members are the last children of the conference, and nowhere else. */
  ghost function Gathered<N>(s: Forest<N>, c: N, members: seq<N>): Forest<N> {
    var all := Elements(members);
    s.(top := Without(s.top, all),
       kids := map d | d in s.kids :: if d == c then s.kids[d] + members else Without(s.kids[d], all),
       par := map n | n in s.par.Keys + all :: if n in all then c else s.par[n])
  }

  lemma {:induction false} MembersAre<N>(s: Forest<N>, participants: seq<string>)
    ensures
      var members := Members(s.ids, participants);
      && (forall n :: n in members ==> exists i :: 0 <= i < |participants| && participants[i] in s.ids
                                                   && s.ids[participants[i]] == n)
      && (forall i :: 0 <= i < |participants| && participants[i] in s.ids ==> s.ids[participants[i]] in members)
      && |members| <= |participants|
  {
    if participants != [] {
      MembersAre(s, participants[1..]);
      var rest := participants[1..];
      forall n | n in Members(s.ids, rest)
        ensures exists i :: 0 <= i < |participants| && participants[i] in s.ids && s.ids[participants[i]] == n
      {
        var i :| 0 <= i < |rest| && rest[i] in s.ids && s.ids[rest[i]] == n;
        assert participants[i + 1] == rest[i];
      }
      forall i | 0 <= i < |participants| && participants[i] in s.ids
        ensures s.ids[participants[i]] in Members(s.ids, participants)
      {
        if i > 0 {
          assert rest[i - 1] == participants[i];
        }
      }
    }
  }

  /** Identifiers lead to different calls, so nobody is named twice. */
  lemma {:induction false} MembersDistinct<N>(s: Forest<N>, participants: seq<string>)
    requires Indexed(s) && NoDup(participants)
    ensures NoDup(Members(s.ids, participants))
    ensures forall n :: n in Members(s.ids, participants) ==> n in s.info && s.info[n].id in participants
  {
    if participants != [] {
      var p, rest := participants[0], participants[1..];
      MembersDistinct(s, rest);
      assert participants == [p] + rest && p !in rest;
    }
  }

  lemma GatherNobody<N>(s: Forest<N>, c: N)
    ensures Gathered(s, c, []) == s
  {
    forall d | d in s.kids ensures Without(s.kids[d], {}) == s.kids[d] && s.kids[d] + [] == s.kids[d] {
      WithoutNone(s.kids[d], {});
    }
    WithoutNone(s.top, {});
    assert Elements<N>([]) == {};
  }

  lemma FirstMore<T>(n: T, rest: seq<T>)
    ensures Elements([n] + rest) == {n} + Elements(rest)
  {
    ElementsSplit([n] + rest);
    assert ([n] + rest)[1..] == rest;
  }

  lemma GatheredFrom<N>(s: Forest<N>, c: N, n: N, t: Forest<N>, rest: seq<N>)
    requires t.info == s.info && t.ids == s.ids && t.par == s.par[n := c] && t.kids.Keys == s.kids.Keys && n !in rest
    requires c in s.kids && t.kids[c] + rest == s.kids[c] + ([n] + rest)
    requires Elements([n] + rest) == {n} + Elements(rest)
    requires Without(t.top, Elements(rest)) == Without(s.top, Elements([n] + rest))
    requires forall d :: d in s.kids && d != c ==>
               Without(t.kids[d], Elements(rest)) == Without(s.kids[d], Elements([n] + rest))
    ensures Gathered(t, c, rest) == Gathered(s, c, [n] + rest)
  {
    hide Without, Elements;
  }

  /** Gathering one member and then the others. */
  lemma GatherStep<N>(s: Forest<N>, c: N, n: N, t: Forest<N>, rest: seq<N>)
    requires Moved(s, c, n, t) && NoDup(s.top) && n !in rest
    ensures Gathered(t, c, rest) == Gathered(s, c, [n] + rest)
  {
    hide NoDup, RemoveFirst, RemoveAll, Without;
    var more := Elements(rest);
    FirstMore(n, rest);
    RemoveFirstIsAll(s.top, n);
    WithoutMore(s.top, n, more);
    forall d | d in s.kids && d != c ensures Without(t.kids[d], more) == Without(s.kids[d], {n} + more) {
      WithoutMore(s.kids[d], n, more);
    }
    Assoc(s.kids[c], [n], rest);
    hide Elements;
    GatheredFrom(s, c, n, t, rest);
  }

  lemma {:induction false} ReadoptAllGathers<N>(s: Forest<N>, c: N, participants: seq<string>)
    requires Shape(s) && Indexed(s) && IsConference(s, c)
    requires CallsOnlyIds(s, participants) && NoDup(participants) && Absent(s, c, participants)
    ensures ReadoptAll(s, c, participants) == Gathered(s, c, Members(s.ids, participants))
    decreases |participants|
  {
    hide Shape, Indexed, Absent, NoDup, Gathered, Moved;
    if participants == [] {
      GatherNobody(s, c);
    } else {
      var p, rest := participants[0], participants[1..];
      RestOnlyCalls(s, c, participants);
      AbsentRest(s, c, participants);
      if p in s.ids {
        var n := s.ids[p];
        var t := Readopt(s, c, n);
        OneMore(s, c, n);
        HeadApart(s, participants);
        ReadoptAllGathers(t, c, rest);
        GatherStep(s, c, n, t, Members(s.ids, rest));
      } else {
        ReadoptAllGathers(s, c, rest);
        assert [] + Members(s.ids, rest) == Members(s.ids, rest);
      }
    }
  }

  lemma OneMore<N>(s: Forest<N>, c: N, n: N)
    requires Shape(s) && Indexed(s) && IsConference(s, c) && IsCall(s, n) && n !in s.kids[c] && s.info[n].id != ""
    ensures
      var t := Readopt(s, c, n);
      && Moved(s, c, n, t) && NoDup(s.top) && Shape(t) && Indexed(t) && IsConference(t, c)
      && t.ids == s.ids && t.info == s.info
  {
    ReadoptMoves(s, c, n);
    ReadoptShape(s, c, n);
    MovedIndexed(s, c, n, Readopt(s, c, n));
  }

  lemma HeadApart<N>(s: Forest<N>, participants: seq<string>)
    requires Indexed(s) && NoDup(participants) && participants != [] && participants[0] in s.ids
    ensures s.ids[participants[0]] !in Members(s.ids, participants[1..])
  {
    MembersDistinct(s, participants);
    var n, rest := s.ids[participants[0]], Members(s.ids, participants[1..]);
    assert Members(s.ids, participants) == [n] + rest;
    forall i | 0 <= i < |rest| ensures rest[i] != n {
      assert ([n] + rest)[0] != ([n] + rest)[i + 1];
    }
  }

  /** A participant of a new conference is not a child of it yet. */
  lemma {:induction false} AdoptAllGathers<N>(s: Forest<N>, c: N, participants: seq<string>)
    requires Shape(s) && Indexed(s) && IsConference(s, c)
    requires CallsOnlyIds(s, participants) && NoDup(participants) && Absent(s, c, participants)
    ensures AdoptAll(s, c, participants) == Gathered(s, c, Members(s.ids, participants))
    decreases |participants|
  {
    hide Shape, Indexed, Absent, NoDup, Gathered, Moved;
    if participants == [] {
      GatherNobody(s, c);
    } else {
      var p, rest := participants[0], participants[1..];
      RestOnlyCalls(s, c, participants);
      AbsentRest(s, c, participants);
      if p in s.ids {
        var n := s.ids[p];
        var t := Readopt(s, c, n);
        OneMore(s, c, n);
        AdoptIs(s, c, n);
        HeadApart(s, participants);
        AdoptAllGathers(t, c, rest);
        GatherStep(s, c, n, t, Members(s.ids, rest));
      } else {
        AdoptAllGathers(s, c, rest);
        assert [] + Members(s.ids, rest) == Members(s.ids, rest);
      }
    }
  }

  lemma AdoptIs<N>(s: Forest<N>, c: N, n: N)
    requires c in s.kids && n !in s.kids[c]
    ensures Adopt(s, c, n) == Readopt(s, c, n)
  {
    assert n !in Kids(MoveUnder(s, c, n), c);
  }

  // ----- What a conference ends up with -----

  /** The children that stay below the list of calls: participants, and those that are over. */
  ghost function Staying<N>(s: Forest<N>, c: N, participants: seq<string>): set<N> {
    set x | x in Kids(s, c) && !(Alive(s, x) && s.info[x].id !in participants)
  }

  /** The participants are the children, the calls that left are at the end of the list. */
  ghost function Regrouped<N>(s: Forest<N>, c: N, state: State, participants: seq<string>): Forest<N>
    requires c in s.info
  {
    var members := Members(s.ids, participants);
    var all := Elements(members);
    var left := Without(Kids(s, c), Staying(s, c, participants));
    s.(top := Without(s.top, all) + left,
       kids := map d | d in s.kids :: if d == c then members else Without(s.kids[d], all),
       par := map n | n in s.par.Keys + all && n !in left :: if n in all then c else s.par[n],
       info := s.info[c := s.info[c].(state := state)])
  }

  lemma {:induction false} LeavingIs<N>(s: Forest<N>, children: seq<N>, participants: seq<string>, staying: set<N>)
    requires forall x :: x in children ==> IsCall(s, x)
    requires forall x :: x in children ==> (x in staying <==> !(Alive(s, x) && s.info[x].id !in participants))
    ensures Leaving(s.info, children, participants) == Without(children, staying)
  {
    if children != [] {
      LeavingIs(s, children[1..], participants, staying);
    }
  }

  lemma EvictIs<N>(s: Forest<N>, c: N, participants: seq<string>)
    requires Shape(s) && IsConference(s, c)
    ensures
      var left := Without(Kids(s, c), Staying(s, c, participants));
      Evict(s, c, participants)
      == s.(top := s.top + left, par := s.par - Elements(left), kids := s.kids[c := []])
  {
    LeavingIs(s, Kids(s, c), participants, Staying(s, c, participants));
    var left := Without(Kids(s, c), Staying(s, c, participants));
    assert (set n | n in left) == Elements(left);
  }

  /** Nobody who leaves is a participant. */
  lemma LeftApart<N>(s: Forest<N>, c: N, participants: seq<string>)
    requires Shape(s) && Indexed(s) && NoDup(participants) && IsConference(s, c)
    ensures
      var left := Without(Kids(s, c), Staying(s, c, participants));
      forall x :: x in left ==>
        x !in Members(s.ids, participants) && x in s.kids[c] && Alive(s, x) && s.info[x].id !in participants
  {
    MembersDistinct(s, participants);
    var children, staying := s.kids[c], Staying(s, c, participants);
    assert forall x :: x in children ==> IsCall(s, x);
    hide Closed, Linked, Separate, Indexed;
    WithoutAre(children, staying);
    assert forall x :: x in Without(children, staying) ==> x in children && x !in staying;
  }

  /** The steps of the daemon signal, up to the removal of empty conferences, amount to this. */
  lemma RejoinedRegroups<N>(s: Forest<N>, c: N, state: State, participants: seq<string>)
    requires Inv(s) && FlatTree(s) && IsConference(s, c) && c in s.top && !LifeOf(state).Creation? && !state.Error?
    requires NoDup(participants) && CallsOnlyIds(s, participants)
    ensures Rejoined(s, c, state, participants) == Regrouped(s, c, state, participants)
  {
    hide Linked, Separate, Indexed, AllPlaced, OneCreation, NoDup, Gathered, Members, ReadoptAll;
    var a := SetState(s, c, state);
    SetConferenceState(s, c, state);
    SetStateFlat(s, c, state);
    EvictIs(a, c, participants);
    EvictShape(a, c, participants);
    EvictRest(a, c, participants);
    LeftApart(s, c, participants);
    assert Staying(a, c, participants) == Staying(s, c, participants);
    var e := Evict(a, c, participants);
    ReadoptAllGathers(e, c, participants);
    EvictGathered(s, c, state, participants);
  }

  lemma EvictGathered<N>(s: Forest<N>, c: N, state: State, participants: seq<string>)
    requires IsConference(s, c) && c in s.kids
    requires
      var left := Without(Kids(s, c), Staying(s, c, participants));
      forall x :: x in left ==> x !in Members(s.ids, participants)
    ensures
      var left := Without(Kids(s, c), Staying(s, c, participants));
      var e := SetState(s, c, state).(top := s.top + left, par := s.par - Elements(left), kids := s.kids[c := []]);
      Gathered(e, c, Members(s.ids, participants)) == Regrouped(s, c, state, participants)
  {
    hide Members, Without, Staying, Elements;
    var left := Without(Kids(s, c), Staying(s, c, participants));
    var members := Members(s.ids, participants);
    NobodyLost(members, left);
    WithoutAppend(s.top, left, Elements(members));
    WithoutNone(left, Elements(members));
    ParentsAfter(s.par, c, Elements(members), left);
    assert [] + members == members;
    hide Kids;
    KidsAfter(s.kids, c, members);
  }

  lemma NobodyLost<N>(members: seq<N>, left: seq<N>)
    requires forall x :: x in left ==> x !in members
    ensures forall x :: x in left ==> x !in Elements(members)
  {
  }

  lemma ParentsAfter<N>(par: map<N, N>, c: N, all: set<N>, left: seq<N>)
    requires forall x :: x in left ==> x !in all
    ensures
      var less := par - Elements(left);
      (map n | n in less.Keys + all :: if n in all then c else less[n])
      == (map n | n in par.Keys + all && n !in left :: if n in all then c else par[n])
  {
  }

  lemma KidsAfter<N>(kids: map<N, seq<N>>, c: N, members: seq<N>)
    requires c in kids
    ensures
      var cleared := kids[c := []];
      (map d | d in cleared :: if d == c then cleared[d] + members else Without(cleared[d], Elements(members)))
      == (map d | d in kids :: if d == c then members else Without(kids[d], Elements(members)))
  {
    hide Without, Elements;
    assert [] + members == members;
  }

  // ----- What the removal of conferences leaves -----

  /** The nodes that are not removed. */
  function Kept<N>(s: Forest<N>, nodes: seq<N>): seq<N> {
    if nodes == [] then []
    else (if Stale(s, nodes[0]) then [] else [nodes[0]]) + Kept(s, nodes[1..])
  }

  /** The children of the removed ones that go back to the list. */
  function PutBack<N>(s: Forest<N>, nodes: seq<N>): seq<N> {
    if nodes == [] then []
    else (if Stale(s, nodes[0]) then Restorable(s.info, Kids(s, nodes[0])) else []) + PutBack(s, nodes[1..])
  }

  /** Every stale conference has been removed at once, in the order of the list. */
  ghost function Cleaned<N>(s: Forest<N>): Forest<N> {
    s.(top := Kept(s, s.top) + PutBack(s, s.top),
       info := map n | n in s.info ::
         if n in s.top && Stale(s, n) then s.info[n].(state := Over) else s.info[n])
  }

  lemma {:induction false} KeptAppend<N>(s: Forest<N>, a: seq<N>, b: seq<N>)
    ensures Kept(s, a + b) == Kept(s, a) + Kept(s, b) && PutBack(s, a + b) == PutBack(s, a) + PutBack(s, b)
  {
    if a == [] {
      assert a + b == b;
    } else {
      assert (a + b)[1..] == a[1..] + b;
      KeptAppend(s, a[1..], b);
    }
  }

  lemma {:induction false} KeptCalls<N>(s: Forest<N>, nodes: seq<N>)
    requires forall n :: n in nodes ==> !Stale(s, n)
    ensures Kept(s, nodes) == nodes && PutBack(s, nodes) == []
  {
    if nodes != [] {
      KeptCalls(s, nodes[1..]);
    }
  }

  lemma KeptCons<N>(s: Forest<N>, x: N, rest: seq<N>)
    requires !Stale(s, x)
    ensures Kept(s, [x] + rest) == [x] + Kept(s, rest) && PutBack(s, [x] + rest) == PutBack(s, rest)
  {
    KeptAppend(s, [x], rest);
    KeptCalls(s, [x]);
  }

  /** The first stale conference puts its children back before any other. */
  lemma {:induction false} FirstStaleSplits<N>(s: Forest<N>, nodes: seq<N>)
    ensures
      match FirstStale(s, nodes)
      case None => Kept(s, nodes) == nodes && PutBack(s, nodes) == []
      case Some(c) =>
        && Kept(s, nodes) == Kept(s, RemoveFirst(nodes, c))
        && PutBack(s, nodes) == Restorable(s.info, Kids(s, c)) + PutBack(s, RemoveFirst(nodes, c))
  {
    if nodes != [] && !Stale(s, nodes[0]) {
      var x, rest := nodes[0], nodes[1..];
      FirstStaleSplits(s, rest);
      hide Stale, Restorable;
      assert nodes == [x] + rest;
      KeptCons(s, x, rest);
      match FirstStale(s, rest)
      case None =>
      case Some(c) =>
        assert RemoveFirst(nodes, c) == [x] + RemoveFirst(rest, c);
        hide RemoveFirst;
        KeptCons(s, x, RemoveFirst(rest, c));
    }
  }

  /** A conference without children can go at any time. */
  lemma {:induction false} EmptySplits<N>(s: Forest<N>, nodes: seq<N>, c: N)
    requires Empty(s, c)
    ensures Kept(s, nodes) == Kept(s, RemoveFirst(nodes, c)) && PutBack(s, nodes) == PutBack(s, RemoveFirst(nodes, c))
  {
    if nodes != [] && nodes[0] != c {
      EmptySplits(s, nodes[1..], c);
      assert RemoveFirst(nodes, c)[1..] == RemoveFirst(nodes[1..], c);
    }
  }

  /** Staleness and what is put back do not depend on the list. */
  lemma {:induction false} KeptSame<N>(s: Forest<N>, t: Forest<N>, nodes: seq<N>)
    requires s.kids == t.kids && s.info == t.info
    ensures Kept(s, nodes) == Kept(t, nodes) && PutBack(s, nodes) == PutBack(t, nodes)
  {
    if nodes != [] {
      KeptSame(s, t, nodes[1..]);
    }
  }

  /** One removal, and then all the others, is all of them at once. */
  lemma {:induction false} CleanupCleans<N>(s: Forest<N>)
    requires FlatTree(s)
    ensures Cleanup(s) == Cleaned(s)
    decreases Conferences(s, s.top)
  {
    hide RemoveOne;
    FirstStaleSplits(s, s.top);
    var stale := FirstStale(s, s.top);
    if stale.None? {
      assert s.top + [] == s.top;
    } else {
      RemovalShrinks(s, stale.value);
      CleanupCleans(RemoveOne(s, stale.value));
      OneThenRest(s, stale.value);
    }
  }

  lemma OneThenRest<N>(s: Forest<N>, c: N)
    requires FlatTree(s) && FirstStale(s, s.top) == Some(c)
    ensures Retire(Cleaned(RemoveOne(s, c)), c) == Cleaned(s)
  {
    hide Stale, Restorable, RemoveFirst, Kept, PutBack, FlatTree;
    OneThenRestTop(s, c);
    OneThenRestInfo(s, c);
    hide FirstStale;
    assert RemoveOne(s, c).kids == s.kids && RemoveOne(s, c).par == s.par && RemoveOne(s, c).ids == s.ids;
  }

  lemma OneThenRestInfo<N>(s: Forest<N>, c: N)
    requires FlatTree(s) && c in s.top && Stale(s, c)
    ensures SetState(Cleaned(RemoveOne(s, c)), c, Over).info == Cleaned(s).info
  {
    ConferenceStaysOut(s, c);
    SameStale(s, RemoveOne(s, c));
    hide Stale, Restorable, RemoveFirst, Kept, PutBack, FlatTree;
    var t := RemoveOne(s, c);
    forall n | n in s.info && n != c && Stale(s, n) ensures n in t.top <==> n in s.top {
    }
  }

  lemma SameStale<N>(s: Forest<N>, t: Forest<N>)
    requires s.kids == t.kids && s.info == t.info
    ensures forall n :: Stale(s, n) == Stale(t, n)
  {
  }

  /** What is put back are calls, so the same conferences are left in the list. */
  lemma ConferenceStaysOut<N>(s: Forest<N>, c: N)
    requires FlatTree(s) && c in s.top && Stale(s, c)
    ensures c in s.info
    ensures forall n :: n != c && Stale(s, n) ==> (n in RemoveOne(s, c).top <==> n in s.top)
  {
    RestorableAre(s.info, Kids(s, c));
    forall n | n != c && Stale(s, n) ensures n in RemoveOne(s, c).top <==> n in s.top {
      assert n !in Restorable(s.info, Kids(s, c));
    }
  }

  lemma OneThenRestTop<N>(s: Forest<N>, c: N)
    requires FlatTree(s) && FirstStale(s, s.top) == Some(c)
    ensures Cleaned(RemoveOne(s, c)).top == Cleaned(s).top
  {
    hide FirstStale, RemoveFirst, FlatTree;
    var t := RemoveOne(s, c);
    var back, rest := Restorable(s.info, Kids(s, c)), RemoveFirst(s.top, c);
    FirstStaleSplits(s, s.top);
    BackAreCalls(s, c);
    hide Stale, Restorable;
    KeptAppend(s, rest, back);
    KeptCalls(s, back);
    KeptSame(s, t, t.top);
    hide Kept, PutBack;
    assert PutBack(s, rest) + [] == PutBack(s, rest);
    Assoc(Kept(s, rest), back, PutBack(s, rest));
  }

  lemma BackAreCalls<N>(s: Forest<N>, c: N)
    requires FlatTree(s)
    ensures forall x :: x in Restorable(s.info, Kids(s, c)) ==> !Stale(s, x)
  {
    RestorableAre(s.info, Kids(s, c));
  }

  /** One empty conference calls for the removal of all stale ones; without it nothing happens. */
  lemma RemoveEmptyCleans<N>(s: Forest<N>)
    requires FlatTree(s)
    ensures RemoveEmpty(s) == if FirstEmpty(s, s.top).Some? then Cleaned(s) else s
  {
    var empty := FirstEmpty(s, s.top);
    if empty.Some? {
      var e := empty.value;
      RemovalShrinks(s, e);
      CleanupCleans(RemoveOne(s, e));
      EmptyThenRest(s, e);
      assert RemoveConference(s, e) == Cleaned(s);
      NoneLeft(s, e);
    }
  }

  lemma EmptyThenRest<N>(s: Forest<N>, e: N)
    requires FlatTree(s) && Empty(s, e) && e in s.top
    ensures Retire(Cleaned(RemoveOne(s, e)), e) == Cleaned(s)
  {
    var t := RemoveOne(s, e);
    EmptyOne(s, e);
    OneThenRestInfo(s, e);
    hide RemoveOne, Stale, RemoveFirst, Kept, PutBack, FlatTree, Restorable;
    EmptySplits(s, s.top, e);
    KeptSame(s, t, t.top);
  }

  lemma EmptyOne<N>(s: Forest<N>, e: N)
    requires Empty(s, e)
    ensures RemoveOne(s, e) == s.(top := RemoveFirst(s.top, e)) && Stale(s, e) && e in s.info
  {
    assert Restorable(s.info, Kids(s, e)) == [];
    assert RemoveFirst(s.top, e) + [] == RemoveFirst(s.top, e);
  }

  lemma NoneLeft<N>(s: Forest<N>, e: N)
    requires FlatTree(s) && IsConference(s, e)
    ensures
      var t := RemoveConference(s, e);
      FirstEmpty(t, t.top).None?
  {
    RemovalShrinks(s, e);
    var t := Cleanup(RemoveOne(s, e));
    CleanupDone(RemoveOne(s, e));
    forall d | d in t.top ensures !Stale(Retire(t, e), d) {
      RetireStale(t, e, d);
    }
  }

  lemma {:induction false} KeptAre<N>(s: Forest<N>, nodes: seq<N>)
    ensures forall x :: x in Kept(s, nodes) ==> x in nodes && !Stale(s, x)
    ensures forall x :: x in nodes && !Stale(s, x) ==> x in Kept(s, nodes)
  {
    if nodes != [] {
      KeptAre(s, nodes[1..]);
      assert nodes == [nodes[0]] + nodes[1..];
    }
  }

  lemma {:induction false} PutBackAre<N>(s: Forest<N>, nodes: seq<N>)
    ensures
      forall x :: x in PutBack(s, nodes) ==>
        Restored(s.info, x) && exists d :: d in nodes && Stale(s, d) && x in Kids(s, d)
    ensures
      forall d, x :: d in nodes && Stale(s, d) && x in Kids(s, d) && Restored(s.info, x) ==> x in PutBack(s, nodes)
  {
    if nodes != [] {
      PutBackAre(s, nodes[1..]);
      RestorableAre(s.info, Kids(s, nodes[0]));
      assert nodes == [nodes[0]] + nodes[1..];
    }
  }

  // ----- The whole signal of a changed conference -----

  /** The change has left some conference without children. */
  ghost predicate Emptied<N>(s: Forest<N>, c: N, participants: seq<string>) {
    var members := Members(s.ids, participants);
    members == [] ||
    exists d :: d in s.top && d != c && IsConference(s, d) && forall x :: x in Kids(s, d) ==> x in members
  }

  lemma EmptiedIs<N>(s: Forest<N>, c: N, state: State, participants: seq<string>)
    requires Shape(s) && IsConference(s, c) && c in s.top && CallsOnlyIds(s, participants)
    ensures
      var r := Regrouped(s, c, state, participants);
      FirstEmpty(r, r.top).Some? <==> Emptied(s, c, participants)
  {
    hide Shape, Regrouped, Members, CallsOnlyIds, Empty;
    var r := Regrouped(s, c, state, participants);
    SameConferencesAfter(s, c, state, participants);
    forall d | d in s.top && IsConference(s, d)
      ensures Empty(r, d) <==>
              if d == c then Members(s.ids, participants) == []
              else forall x :: x in Kids(s, d) ==> x in Members(s.ids, participants)
    {
      EmptyAfter(s, c, state, participants, d);
    }
    if FirstEmpty(r, r.top).None? {
      assert forall d :: d in r.top ==> !Empty(r, d);
    }
  }

  /** Calls come and go; the conferences in the list are the same. */
  lemma SameConferencesAfter<N>(s: Forest<N>, c: N, state: State, participants: seq<string>)
    requires Shape(s) && IsConference(s, c) && c in s.top && CallsOnlyIds(s, participants)
    ensures
      var r := Regrouped(s, c, state, participants);
      && (forall d :: d in s.top && IsConference(s, d) ==> d in r.top)
      && (forall d :: d in r.top && Empty(r, d) ==> d in s.top && IsConference(s, d))
  {
    var all := Elements(Members(s.ids, participants));
    MembersAre(s, participants);
    WithoutAre(s.top, all);
    WithoutAre(Kids(s, c), Staying(s, c, participants));
    hide Separate, Without, Members, Staying;
  }

  lemma EmptyAfter<N>(s: Forest<N>, c: N, state: State, participants: seq<string>, d: N)
    requires Shape(s) && IsConference(s, c) && IsConference(s, d)
    ensures Empty(Regrouped(s, c, state, participants), d) <==>
            if d == c then Members(s.ids, participants) == []
            else forall x :: x in Kids(s, d) ==> x in Members(s.ids, participants)
  {
    hide Linked, Separate, Without, Members;
    EmptyWithout(Kids(s, d), Elements(Members(s.ids, participants)));
  }

  lemma EmptyWithout<T>(s: seq<T>, out: set<T>)
    ensures Without(s, out) == [] <==> forall x :: x in s ==> x in out
  {
    WithoutAre(s, out);
    if Without(s, out) != [] {
      assert Without(s, out)[0] in Without(s, out);
    }
  }

  /** A changed conference has regrouped its calls; if that empties a conference, all stale ones are removed. */
  lemma ChangeRegroups<N>(s: Forest<N>, id: string, state: State, participants: seq<string>)
    requires Inv(s) && FlatTree(s) && !LifeOf(state).Creation? && !state.Error?
    requires NoDup(participants) && CallsOnlyIds(s, participants)
    requires Changeable(s, id) && IsConference(s, s.ids[id])
    ensures FlatTree(Rejoined(s, s.ids[id], state, participants))
    ensures
      var r := Regrouped(s, s.ids[id], state, participants);
      ChangeConference(s, id, state, participants)
      == if Emptied(s, s.ids[id], participants) then Cleaned(r) else r
  {
    hide Linked, Separate, Indexed, AllPlaced, OneCreation, NoDup, Regrouped, Rejoined, RemoveEmpty, Emptied, Cleaned;
    hide CallsOnlyIds, FlatTree;
    var c := s.ids[id];
    PlacedConference(s, c);
    RejoinedFlat(s, c, state, participants);
    RejoinedRegroups(s, c, state, participants);
    RemoveEmptyCleans(Rejoined(s, c, state, participants));
    EmptiedIs(s, c, state, participants);
  }

  /** The first or the last member is in ERROR, which makes the conference stale. */
  ghost predicate ErrorAtEnds<N>(s: Forest<N>, members: seq<N>) {
    members != [] && (InError(s, members[0]) || InError(s, members[|members| - 1]))
  }

  /**
    After a change, the children of the conference are the known participants in the order of the daemon;
    they point to it, no other conference has them, and the calls that left are at top level. The
    conference itself stays in the list unless another one was emptied while its own first or last member
    is in ERROR; only then are its members put back.
   */
  lemma ChangeGathers<N>(s: Forest<N>, id: string, state: State, participants: seq<string>)
    requires Inv(s) && FlatTree(s) && !LifeOf(state).Creation? && !state.Error?
    requires NoDup(participants) && CallsOnlyIds(s, participants)
    requires Changeable(s, id) && IsConference(s, s.ids[id]) && Members(s.ids, participants) != []
    ensures FlatTree(Rejoined(s, s.ids[id], state, participants))
    ensures
      var c, members := s.ids[id], Members(s.ids, participants);
      var t := ChangeConference(s, id, state, participants);
      && c in t.kids && t.kids[c] == members
      && (forall n :: n in members ==> n in t.par && t.par[n] == c)
      && (forall n, d :: n in members && d in t.kids && d != c ==> n !in t.kids[d])
      && (forall x :: x in Kids(s, c) && Alive(s, x) && s.info[x].id !in participants ==> x in t.top && x !in t.par)
      && (c in t.top <==> !(Emptied(s, c, participants) && ErrorAtEnds(s, members)))
      && (forall n :: n in members ==> (n in t.top <==> c !in t.top && Restored(s.info, n)))
  {
    hide Shape, Indexed, AllPlaced, OneCreation, NoDup, Regrouped, Rejoined, RemoveEmpty, Emptied, Cleaned;
    hide Placed, CallsOnlyIds, FlatTree, ErrorAtEnds;
    var c := s.ids[id];
    ChangeRegroups(s, id, state, participants);
    ConferenceAtTop(s, c);
    RegroupedIs(s, c, state, participants);
    if Emptied(s, c, participants) {
      RejoinedRegroups(s, c, state, participants);
      CleanedRegrouped(s, c, state, participants);
    }
  }

  lemma ConferenceAtTop<N>(s: Forest<N>, c: N)
    requires Inv(s) && IsConference(s, c) && Placed(s, c)
    ensures c in s.top && c in s.kids
  {
    PlacedConference(s, c);
  }

  /** The same before any conference is removed. */
  lemma RegroupedIs<N>(s: Forest<N>, c: N, state: State, participants: seq<string>)
    requires Inv(s) && IsConference(s, c) && c in s.top && CallsOnlyIds(s, participants) && NoDup(participants)
    ensures
      var members := Members(s.ids, participants);
      var r := Regrouped(s, c, state, participants);
      && c in r.kids && r.kids[c] == members && c in r.top
      && (forall n :: n in members ==> n in r.par && r.par[n] == c && n !in r.top && IsCall(s, n))
      && (forall n, d :: n in members && d in r.kids && d != c ==> n !in r.kids[d])
      && (forall x :: x in Kids(s, c) && Alive(s, x) && s.info[x].id !in participants ==> x in r.top && x !in r.par)
  {
    hide Linked, Separate, AllPlaced, OneCreation, NoDup;
    var members := Members(s.ids, participants);
    var all := Elements(members);
    var r := Regrouped(s, c, state, participants);
    MembersAre(s, participants);
    LeftApart(s, c, participants);
    MembersDistinct(s, participants);
    WithoutAre(s.top, all);
    WithoutAre(Kids(s, c), Staying(s, c, participants));
    hide Members, Without, Indexed;
    forall n, d | n in members && d in r.kids && d != c ensures n !in r.kids[d] {
      WithoutAre(s.kids[d], all);
    }
  }

  /** With a conference to remove, this one goes too exactly if it is stale, and its members come back. */
  lemma CleanedFrees<N>(r: Forest<N>, c: N)
    requires FlatTree(r) && IsConference(r, c) && c in r.top && c in r.kids
    requires forall n :: n in r.kids[c] ==> n !in r.top
    requires forall n, d :: n in r.kids[c] && d in r.kids && d != c ==> n !in r.kids[d]
    ensures
      var t := Cleaned(r);
      && t.kids == r.kids && t.par == r.par
      && (forall x :: x in r.top && !IsConference(r, x) ==> x in t.top)
      && (c in t.top <==> !Stale(r, c))
      && (forall n :: n in r.kids[c] ==> (n in t.top <==> c !in t.top && Restored(r.info, n)))
  {
    KeptAre(r, r.top);
    PutBackAre(r, r.top);
    assert c !in PutBack(r, r.top);
    hide Stale, Kept, PutBack, FlatTree;
    forall n | n in r.kids[c] && n in PutBack(r, r.top) ensures Stale(r, c) {
      var d :| d in r.top && Stale(r, d) && n in Kids(r, d);
      assert d == c;
    }
  }

  lemma StaleAfter<N>(s: Forest<N>, c: N, state: State, participants: seq<string>)
    requires IsConference(s, c) && c in s.kids && forall n :: n in Members(s.ids, participants) ==> IsCall(s, n)
    requires Members(s.ids, participants) != []
    ensures Stale(Regrouped(s, c, state, participants), c) <==> ErrorAtEnds(s, Members(s.ids, participants))
    ensures forall n :: n in Members(s.ids, participants) ==>
              Restored(Regrouped(s, c, state, participants).info, n) == Restored(s.info, n)
    ensures forall x :: IsConference(Regrouped(s, c, state, participants), x) == IsConference(s, x)
  {
    hide Members, Without;
    var members := Members(s.ids, participants);
    assert members[0] in members && members[|members| - 1] in members;
  }

  lemma CleanedRegrouped<N>(s: Forest<N>, c: N, state: State, participants: seq<string>)
    requires Inv(s) && IsConference(s, c) && c in s.top && FlatTree(Regrouped(s, c, state, participants))
    requires CallsOnlyIds(s, participants) && NoDup(participants) && Members(s.ids, participants) != []
    ensures
      var members := Members(s.ids, participants);
      var r := Regrouped(s, c, state, participants);
      var t := Cleaned(r);
      && t.kids == r.kids && t.par == r.par
      && (forall x :: x in r.top && IsCall(s, x) ==> x in t.top)
      && (c in t.top <==> !ErrorAtEnds(s, members))
      && (forall n :: n in members ==> (n in t.top <==> c !in t.top && Restored(s.info, n)))
  {
    hide Shape, Indexed, AllPlaced, OneCreation, NoDup, Regrouped, Members, Cleaned, FlatTree, Stale, ErrorAtEnds;
    hide Restored, CallsOnlyIds;
    RegroupedIs(s, c, state, participants);
    ConferenceAtTop(s, c);
    StaleAfter(s, c, state, participants);
    CleanedFrees(Regrouped(s, c, state, participants), c);
  }

  // ----- A new conference -----

  /** A new conference has the known participants as its children, in the order of the daemon. */
  lemma ConferenceGathers<N>(s: Forest<N>, c: N, id: string, state: State, participants: seq<string>)
    requires Inv(s) && c !in s.info && id != "" && id !in s.ids && !LifeOf(state).Creation?
    requires NoDup(participants) && CallsOnlyIds(s, participants) && id !in participants && Joinable(s, participants)
    ensures
      var members := Members(s.ids, participants);
      var all := Elements(members);
      var t := AddConference(s, c, id, state, participants);
      && t.top == Without(s.top, all) + [c]
      && t.kids == (map d | d in s.kids :: Without(s.kids[d], all))[c := members]
      && t.par == (map n | n in s.par.Keys + all :: if n in all then c else s.par[n])
      && t.info == s.info[c := Info(true, state, id, true, true)] && t.ids == s.ids[id := c]
  {
    hide Linked, Separate, Indexed, AllPlaced, OneCreation, NoDup, AdoptAll;
    var n := NewConference(s, c, id, state);
    var members := Members(s.ids, participants);
    NewConferenceKeeps(s, c, id, state);
    SameMembers(s.ids, n.ids, participants);
    MembersAre(s, participants);
    assert c !in members;
    AdoptAllGathers(n, c, participants);
    WithoutAppend(s.top, [c], Elements(members));
    WithoutNone([c], Elements(members));
    hide Members, Without;
    assert [] + members == members;
  }

  lemma {:induction false} SameMembers<N>(a: map<string, N>, b: map<string, N>, participants: seq<string>)
    requires forall p :: p in participants ==> (p in a <==> p in b) && (p in a ==> a[p] == b[p])
    ensures Members(a, participants) == Members(b, participants)
  {
    if participants != [] {
      assert participants[0] in participants;
      SameMembers(a, b, participants[1..]);
    }
  }

  /** Each member points to the new conference, and has left the list and its old conference. */
  lemma ConferenceOwns<N>(s: Forest<N>, c: N, id: string, state: State, participants: seq<string>)
    requires Inv(s) && c !in s.info && id != "" && id !in s.ids && !LifeOf(state).Creation?
    requires NoDup(participants) && CallsOnlyIds(s, participants) && id !in participants && Joinable(s, participants)
    ensures
      var members := Members(s.ids, participants);
      var t := AddConference(s, c, id, state, participants);
      && c in t.top && c in t.kids && t.kids[c] == members && s.ids[participants[0]] in members
      && (forall n :: n in members ==> n in t.par && t.par[n] == c && n !in t.top)
      && (forall n, d :: n in members && d in t.kids && d != c ==> n !in t.kids[d])
      && (forall n :: n in s.top && n !in members ==> n in t.top)
  {
    var members := Members(s.ids, participants);
    hide Indexed, Linked, Separate, AllPlaced, OneCreation, NoDup, AdoptAll;
    ConferenceGathers(s, c, id, state, participants);
    MembersAre(s, participants);
    hide Members, Without, AddConference, CallsOnlyIds, Closed;
    WithoutAre(s.top, Elements(members));
    var t := AddConference(s, c, id, state, participants);
    forall d, n | d in t.kids && d != c && n in members ensures n !in t.kids[d] {
      WithoutAre(s.kids[d], Elements(members));
    }
  }

  // ----- A joined call that comes out again -----

  /** Two conferences; the only call of the first is in ERROR, that of the second one talks. */
  function TwoConferences(): Forest<char> {
    Forest(['c', 'd'],
           map['a' := [], 'b' := [], 'c' := ['a'], 'd' := ['b']],
           map['a' := 'c', 'b' := 'd'],
           map['a' := CallInfo(Current, "a", true).(state := Error), 'b' := CallInfo(Current, "b", true),
               'c' := Info(true, State.Conference, "c", true, true),
               'd' := Info(true, State.Conference, "d", true, true)],
           map["a" := 'a', "b" := 'b', "c" := 'c', "d" := 'd'])
  }

  lemma TwoNodes()
    ensures
      var s := TwoConferences();
      && s.info.Keys == {'a', 'b', 'c', 'd'} && s.kids.Keys == s.info.Keys && s.par.Keys == {'a', 'b'}
      && s.ids.Keys == {"a", "b", "c", "d"} && s.top == ['c', 'd']
      && s.kids['a'] == [] && s.kids['b'] == [] && s.kids['c'] == ['a'] && s.kids['d'] == ['b']
      && s.par['a'] == 'c' && s.par['b'] == 'd'
      && IsCall(s, 'a') && IsCall(s, 'b') && IsConference(s, 'c') && IsConference(s, 'd')
      && (forall n :: n in s.info ==> !Creating(s, n) && s.info[n].id in s.ids && s.ids[s.info[n].id] == n)
      && (forall k :: k in s.ids ==> k != "" && s.ids[k] in s.info && s.info[s.ids[k]].id == k)
  {
    var s := TwoConferences();
    assert s.info.Keys == {'a', 'b', 'c', 'd'} && s.ids.Keys == {"a", "b", "c", "d"};
  }

  lemma TwoClosed()
    ensures Closed(TwoConferences())
  {
    TwoNodes();
    hide TwoConferences;
  }

  lemma TwoLinked()
    ensures Linked(TwoConferences())
  {
    TwoNodes();
    var s := TwoConferences();
    hide TwoConferences;
    forall c | c in s.kids
      ensures NoDup(s.kids[c]) && (s.kids[c] != [] ==> IsConference(s, c))
      ensures forall n :: n in s.kids[c] ==> IsCall(s, n) && n in s.par && s.par[n] == c
    {
      assert c == 'a' || c == 'b' || c == 'c' || c == 'd';
    }
  }

  lemma TwoSeparate()
    ensures Separate(TwoConferences())
  {
    TwoNodes();
    hide TwoConferences;
  }

  lemma TwoCalls()
    ensures Indexed(TwoConferences()) && OneCreation(TwoConferences())
  {
    TwoNodes();
    var s := TwoConferences();
    hide TwoConferences;
    forall c, n | c in s.kids && n in s.kids[c] ensures n in s.info && s.info[n].id != "" {
      assert c == 'c' || c == 'd';
      assert n in s.info && s.info[n].id in s.ids;
    }
  }

  lemma TwoPlaced()
    ensures AllPlaced(TwoConferences(), {}) && Placed(TwoConferences(), 'c') && Changeable(TwoConferences(), "c")
  {
    var s := TwoConferences();
    assert s.top[0] == 'c' && s.top[1] == 'd';
    assert 'd' in s.top && 'b' in Kids(s, 'd') && 'c' in s.top;
  }

  lemma TwoMembers()
    ensures
      var s := TwoConferences();
      && Members(s.ids, ["a", "b"]) == ['a', 'b'] && NoDup(["a", "b"]) && CallsOnlyIds(s, ["a", "b"])
      && Emptied(s, 'c', ["a", "b"]) && ErrorAtEnds(s, ['a', 'b']) && Restored(s.info, 'b')
      && s.ids["c"] == 'c' && IsConference(s, 'c')
  {
    var s := TwoConferences();
    assert Members(s.ids, ["b"]) == ['b'] by { assert ["b"][1..] == []; }
    assert ["a", "b"][1..] == ["b"];
    assert s.top[1] == 'd' && Kids(s, 'd') == ['b'];
  }

  /** The talking call joins the first conference, which empties the second one: both go, and it is at top level. */
  lemma JoinedCallComesOut()
    ensures
      var s := TwoConferences();
      && Inv(s) && FlatTree(s) && Changeable(s, "c")
      && FlatTree(Rejoined(s, s.ids["c"], State.Conference, ["a", "b"]))
      && var t := ChangeConference(s, "c", State.Conference, ["a", "b"]);
      'b' in t.top && 'c' !in t.top
  {
    hide TwoConferences, Closed, Linked, Separate, Indexed, AllPlaced, OneCreation, Rejoined, FlatTree, Members;
    hide Emptied, ErrorAtEnds, Restored, CallsOnlyIds, NoDup, Placed;
    TwoClosed();
    TwoLinked();
    TwoSeparate();
    TwoCalls();
    TwoPlaced();
    TwoMembers();
    Flat(TwoConferences());
    ChangeGathers(TwoConferences(), "c", State.Conference, ["a", "b"]);
    assert 'b' in ['a', 'b'];
  }

  // ----- What a removal leaves -----

  /** Over or in ERROR, a child is not put back. */
  predicate Ended<N>(s: Forest<N>, x: N) {
    x in s.info && (s.info[x].state == Over || s.info[x].state == Error)
  }

  /** The removed node, and the conferences with a child in ERROR at either end. */
  ghost predicate Dissolved<N>(s: Forest<N>, n: N, d: N) {
    d == n || (d in s.top && IsConference(s, d) && ErrorAtEnds(s, Kids(s, d)))
  }

  /**
    After a removal, the conferences in the list are those that were there, without the removed node and
    without those that have no children or one in ERROR at either end; the calls in the list are those that
    were there and the children of all conferences removed, unless these have ended.
   */
  lemma RemovalLeavesList<N>(s: Forest<N>, n: N)
    requires Inv(s) && FlatTree(s) && n in s.info && Removable(s, n)
    ensures
      var t := RemoveCall(s, n);
      && t.kids == s.kids && t.par == s.par && t.ids == s.ids
      && (forall d :: IsConference(s, d) ==>
            (d in t.top <==> d in s.top && Kids(s, d) != [] && !Dissolved(s, n, d)))
      && (forall x :: IsCall(s, x) && x in t.top ==>
            (x in s.top && x != n) || (!Ended(s, x) && exists d :: Dissolved(s, n, d) && x in Kids(s, d)))
      && (forall x :: IsCall(s, x) && x in s.top && x != n ==> x in t.top)
      && (forall d, x :: Dissolved(s, n, d) && x in Kids(s, d) && !Ended(s, x) ==> x in t.top)
  {
    hide Linked, Separate, Indexed, AllPlaced, OneCreation, Cleanup, Cleaned, Closed, Removable, FlatTree;
    RemovalShrinks(s, n);
    var one := RemoveOne(s, n);
    CleanupCleans(one);
    OneIs(s, n);
    ChildrenCalls(s);
    CleanedList(one);
    SameStale(s, one);
    assert one.kids == s.kids && one.info == s.info && one.par == s.par && one.ids == s.ids;
    hide RemoveOne, ErrorAtEnds, Stale;
    forall x | IsCall(s, x) && x in Cleaned(one).top
      ensures (x in s.top && x != n) || (!Ended(s, x) && exists d :: Dissolved(s, n, d) && x in Kids(s, d))
    {
      if x in one.top {
        if x in Kids(s, n) { assert Dissolved(s, n, n); }
      } else {
        var d :| d in one.top && Stale(one, d) && x in Kids(one, d);
        assert Kids(s, d) != [] && Dissolved(s, n, d) && x in Kids(s, d);
      }
    }
    forall d, x | Dissolved(s, n, d) && x in Kids(s, d) && !Ended(s, x) ensures x in Cleaned(one).top {
      assert IsCall(s, x);
      if d != n {
        assert d in one.top && Stale(one, d) && x in Kids(one, d);
      }
    }
  }

  /** The list after all stale conferences have gone. */
  lemma CleanedList<N>(r: Forest<N>)
    requires FlatTree(r)
    ensures
      var t := Cleaned(r);
      && t.kids == r.kids && t.par == r.par && t.ids == r.ids
      && (forall d :: IsConference(r, d) ==> (d in t.top <==> d in r.top && !Stale(r, d)))
      && (forall x :: x in t.top && x !in r.top ==>
            !Ended(r, x) && exists d :: d in r.top && Stale(r, d) && x in Kids(r, d))
      && (forall x :: IsCall(r, x) && x in r.top ==> x in t.top)
      && (forall d, x :: d in r.top && Stale(r, d) && x in Kids(r, d) && x in r.info && !Ended(r, x) ==> x in t.top)
  {
    KeptAre(r, r.top);
    PutBackAre(r, r.top);
    assert forall x :: x in PutBack(r, r.top) ==> !IsConference(r, x);
    hide FlatTree, Kept, PutBack, Kids;
  }

  lemma ChildrenCalls<N>(s: Forest<N>)
    requires Inv(s)
    ensures forall d, x :: x in Kids(s, d) ==> IsCall(s, x) && IsConference(s, d)
    ensures forall d :: IsConference(s, d) ==> (Stale(s, d) <==> Kids(s, d) == [] || ErrorAtEnds(s, Kids(s, d)))
  {
    hide Indexed, AllPlaced, OneCreation, Separate;
    forall d, x | x in Kids(s, d) ensures IsCall(s, x) && IsConference(s, d) {
      assert d in s.kids && x in s.kids[d] && s.kids[d] != [];
    }
    hide Linked, Closed;
    forall d | IsConference(s, d) ensures Stale(s, d) <==> Kids(s, d) == [] || ErrorAtEnds(s, Kids(s, d)) {
    }
  }

  ghost function EndedKids<N>(s: Forest<N>, n: N): set<N> {
    set x | x in Kids(s, n) && Ended(s, x)
  }

  lemma {:induction false} RestorableIs<N>(s: Forest<N>, children: seq<N>, ended: set<N>)
    requires forall x :: x in children ==> x in s.info && (x in ended <==> Ended(s, x))
    ensures Restorable(s.info, children) == Without(children, ended)
  {
    if children != [] {
      RestorableIs(s, children[1..], ended);
    }
  }

  lemma {:induction false} RemoveFirstIsWithout<T>(s: seq<T>, x: T)
    requires NoDup(s)
    ensures RemoveFirst(s, x) == Without(s, {x})
  {
    if s != [] {
      if s[0] == x {
        assert forall y :: y in s[1..] ==> y != x;
        WithoutNone(s[1..], {x});
      } else {
        RemoveFirstIsWithout(s[1..], x);
      }
    }
  }

  /**
    The order of the list after a removal: what was there without the removed node, then its children that
    have not ended, and from these the stale conferences are taken out and their children appended.
   */
  lemma RemovalOrder<N>(s: Forest<N>, n: N)
    requires Inv(s) && FlatTree(s) && n in s.info
    ensures
      var rest := Without(s.top, {n}) + Without(Kids(s, n), EndedKids(s, n));
      RemoveCall(s, n).top == Kept(s, rest) + PutBack(s, rest)
  {
    hide Linked, Indexed, AllPlaced, OneCreation, Cleanup;
    RemovalShrinks(s, n);
    var one := RemoveOne(s, n);
    CleanupCleans(one);
    ChildrenCalls(s);
    assert forall x :: x in Kids(s, n) ==> IsCall(s, x);
    RestorableIs(s, Kids(s, n), EndedKids(s, n));
    RemoveFirstIsWithout(s.top, n);
    hide Without, Kept, PutBack, Stale;
    KeptSame(s, one, one.top);
  }

  lemma OneIs<N>(s: Forest<N>, n: N)
    requires Inv(s) && FlatTree(s) && n in s.info && Removable(s, n)
    ensures
      var one := RemoveOne(s, n);
      && (forall d :: IsConference(s, d) ==> (d in one.top <==> d in s.top && d != n))
      && (forall x :: IsCall(s, x) ==> (x in one.top <==> (x in s.top && x != n) || (x in Kids(s, n) && !Ended(s, x))))
  {
    hide Indexed, AllPlaced, OneCreation;
    RemovalFacts(s, n);
    RestorableAre(s.info, Kids(s, n));
  }

  // ----- The events of a conference -----

  /** The calls that the daemon names are the children of the conference, and are nowhere else. */
  ghost predicate Owns<N>(t: Forest<N>, c: N, members: seq<N>) {
    && c in t.kids && t.kids[c] == members
    && (forall n :: n in members ==> n in t.par && t.par[n] == c)
    && (forall n, d :: n in members && d in t.kids && d != c ==> n !in t.kids[d])
  }

  lemma ChangedStep<N>(s: Forest<N>, id: string, name: string, participants: seq<string>)
    requires Inv(s) && R.Allowed(s, R.ConferenceChanged(id, name, participants))
    requires !ConferenceState(name).Error? && Changeable(s, id) && Members(s.ids, participants) != []
    ensures
      var c, members := s.ids[id], Members(s.ids, participants);
      var t := R.Step(s, R.ConferenceChanged(id, name, participants));
      && Owns(t, c, members)
      && (c in t.top <==> !(Emptied(s, c, participants) && ErrorAtEnds(s, members)))
      && (forall n :: n in members ==> (n in t.top <==> c !in t.top && Restored(s.info, n)))
      && (forall x :: x in Kids(s, c) && Alive(s, x) && s.info[x].id !in participants ==> x in t.top && x !in t.par)
  {
    hide Inv, Rejoined, ChangeConference, Members, Emptied, ErrorAtEnds, NoDup, CallsOnlyIds, FlatTree;
    FlatInv(s);
    ChangeGathers(s, id, ConferenceState(name), participants);
  }

  lemma NewOwns<N>(s: Forest<N>, c: N, id: string, state: State, participants: seq<string>)
    requires Inv(s) && c !in s.info && id != "" && id !in s.ids && !LifeOf(state).Creation?
    requires R.Participants(s, participants) && id !in participants && Joinable(s, participants)
    ensures
      var t := AddConference(s, c, id, state, participants);
      Owns(t, c, Members(s.ids, participants)) && c in t.top
  {
    hide Inv, AddConference, Members, Joinable, NoDup, CallsOnlyIds;
    ConferenceOwns(s, c, id, state, participants);
  }

  lemma CreatedStep<N>(s: Forest<N>, c: N, id: string, name: string, participants: seq<string>)
    requires Inv(s) && R.Allowed(s, R.ConferenceCreated(c, id, name, participants))
    requires id !in s.ids && Joinable(s, participants)
    ensures
      var members := Members(s.ids, participants);
      var t := R.Step(s, R.ConferenceCreated(c, id, name, participants));
      && Owns(t, c, members) && c in t.top && s.ids[participants[0]] in members
      && (forall n :: n in members ==> n !in t.top)
      && (forall n :: n in s.top && n !in members ==> n in t.top)
  {
    hide Inv, AddConference, Members, Joinable, NoDup, CallsOnlyIds;
    ConferenceOwns(s, c, id, ConferenceState(name), participants);
  }

  // ----- Calls that arrive -----

  /** A new call is at the end of the list unless it is over, and its identifier leads to it; nothing else changes. */
  lemma ArrivedStep<N>(s: Forest<N>, e: R.Event<N>)
    requires Inv(s) && R.Allowed(s, e) && (e.Incoming? || e.Existing? || e.History?)
    requires e.id !in s.ids
    ensures
      var t := R.Step(s, e);
      && e.n in t.info && t.info[e.n].id == e.id && t.info[e.n].hasAccount == e.hasAccount && IsCall(t, e.n)
      && (t.info[e.n].watched <==> !LifeOf(t.info[e.n].state).Finished?)
      && t.info[e.n].state == (if e.Incoming? then State.Incoming
                               else if e.History? then Over else StartState(e.name, e.outgoing))
      && t.top == (if LifeOf(t.info[e.n].state).Finished? then s.top else s.top + [e.n])
      && (e.id != "" ==> e.id in t.ids && t.ids[e.id] == e.n)
      && t.par == s.par && t.kids == s.kids[e.n := []]
      && (forall m :: m in s.info ==> m in t.info && t.info[m] == s.info[m])
      && (forall k :: k in s.ids ==> k in t.ids && t.ids[k] == s.ids[k])
  {
    hide Shape, Indexed, AllPlaced, OneCreation;
  }
}
