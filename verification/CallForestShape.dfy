/** The invariant of the call tree, and the operations that keep it. */
module CallForestShape {
  import opened Lists
  import opened CallTables
  import opened CallForest

  // ----- The invariant -----

  ghost predicate Closed<N>(s: Forest<N>) {
    && s.kids.Keys == s.info.Keys && s.par.Keys <= s.info.Keys
    && (forall n :: n in s.top ==> n in s.info)
    && (forall k :: k in s.ids ==> s.ids[k] in s.info)
    && (forall n :: n in s.par ==> IsConference(s, s.par[n]))
  }

  /** Only conferences have children; children are calls that point back, and occur once. */
  ghost predicate Linked<N>(s: Forest<N>) {
    forall c :: c in s.kids ==>
      && NoDup(s.kids[c])
      && (s.kids[c] != [] ==> IsConference(s, c))
      && forall n :: n in s.kids[c] ==> IsCall(s, n) && n in s.par && s.par[n] == c
  }

  /** Each node occurs once, and no top-level node names a top-level parent. */
  ghost predicate Separate<N>(s: Forest<N>) {
    && NoDup(s.top)
    && (forall c :: c in s.top ==> forall n :: n in Kids(s, c) ==> n !in s.top)
    && (forall n :: n in s.top && n in s.par ==> s.par[n] !in s.top)
    && (forall n :: n in s.par ==> IsCall(s, n))
  }

  ghost predicate Shape<N>(s: Forest<N>) {
    Closed(s) && Linked(s) && Separate(s)
  }

  /** Daemon identifiers lead to the call they name, and every child has one. */
  ghost predicate Indexed<N>(s: Forest<N>) {
    && (forall k :: k in s.ids ==> k != "" && s.ids[k] in s.info && s.info[s.ids[k]].id == k)
    && (forall n :: n in s.info && Alive(s, n) && s.info[n].id != "" ==>
          s.info[n].id in s.ids && s.ids[s.info[n].id] == n)
    && (forall c :: c in s.kids ==> forall n :: n in s.kids[c] ==> n in s.info && s.info[n].id != "")
  }

  /** Every live call is in the tree, except those that are being moved. */
  ghost predicate AllPlaced<N>(s: Forest<N>, moving: set<N>) {
    forall n :: n in s.info && Alive(s, n) ==> Placed(s, n) || n in moving
  }

  /** A call in CREATION is unknown to the daemon, and there is at most one. */
  ghost predicate OneCreation<N>(s: Forest<N>) {
    && (forall n :: n in s.info && Creating(s, n) ==> IsCall(s, n) && s.info[n].id == "")
    && (forall n, m :: n in s.info && m in s.info && Creating(s, n) && Creating(s, m) ==> n == m)
  }

  ghost predicate Inv<N>(s: Forest<N>) {
    Shape(s) && Indexed(s) && AllPlaced(s, {}) && OneCreation(s)
  }

  ghost function LiveCalls<N>(s: Forest<N>): set<N> {
    set n | n in s.info && Alive(s, n) && Placed(s, n)
  }

  // ----- Moving one call under a conference -----

  /** Only the old and the new parent change their children. */
  ghost predicate Moved<N>(s: Forest<N>, c: N, n: N, t: Forest<N>) {
    && t.info == s.info && t.ids == s.ids
    && t.top == RemoveFirst(s.top, n)
    && t.par == s.par[n := c]
    && t.kids.Keys == s.kids.Keys
    && c in s.kids && t.kids[c] == s.kids[c] + [n]
    && forall d :: d in s.kids && d != c ==> t.kids[d] == RemoveAll(s.kids[d], n)
  }

  lemma ReadoptMoves<N>(s: Forest<N>, c: N, n: N)
    requires Shape(s) && IsConference(s, c) && IsCall(s, n) && n !in s.kids[c]
    ensures Moved(s, c, n, Readopt(s, c, n))
  {
  }

  lemma MovedLinked<N>(s: Forest<N>, c: N, n: N, t: Forest<N>)
    requires Shape(s) && IsConference(s, c) && IsCall(s, n) && n !in s.kids[c] && Moved(s, c, n, t)
    ensures Closed(t) && Linked(t)
  {
    hide Separate, RemoveFirst, RemoveAll;
    MovedClosed(s, c, n, t);
    forall d | d in t.kids
      ensures NoDup(t.kids[d]) && (t.kids[d] != [] ==> IsConference(t, d))
      ensures forall m :: m in t.kids[d] ==> IsCall(t, m) && m in t.par && t.par[m] == d
    {
      MovedLinkedAt(s, c, n, t, d);
    }
  }

  lemma MovedClosed<N>(s: Forest<N>, c: N, n: N, t: Forest<N>)
    requires Closed(s) && IsConference(s, c) && IsCall(s, n) && Moved(s, c, n, t)
    ensures Closed(t)
  {
    hide RemoveAll;
  }

  lemma MovedLinkedAt<N>(s: Forest<N>, c: N, n: N, t: Forest<N>, d: N)
    requires Linked(s) && IsConference(s, c) && IsCall(s, n) && Moved(s, c, n, t) && n !in s.kids[c] && d in t.kids
    ensures NoDup(t.kids[d]) && (t.kids[d] != [] ==> IsConference(t, d))
    ensures forall m :: m in t.kids[d] ==> IsCall(t, m) && m in t.par && t.par[m] == d
  {
    hide RemoveFirst;
    if d == c {
      NoDupAppend(s.kids[c], [n]);
    } else {
      var rest := RemoveAll(s.kids[d], n);
      assert t.kids[d] == rest && n !in rest;
      forall m | m in rest ensures m in s.kids[d] {
        var i :| 0 <= i < |rest| && rest[i] == m;
      }
    }
  }

  lemma MovedSeparate<N>(s: Forest<N>, c: N, n: N, t: Forest<N>)
    requires Shape(s) && IsConference(s, c) && IsCall(s, n) && n !in s.kids[c] && Moved(s, c, n, t)
    ensures Separate(t)
  {
    forall d, m | d in t.top && m in Kids(t, d) ensures m !in t.top {
      assert d in s.top;
      if d != c {
        assert m in s.kids[d];
      }
    }
    forall m | m in t.top && m in t.par ensures t.par[m] !in t.top {
      assert m in s.top && m in s.par && t.par[m] == s.par[m];
    }
  }

  lemma ReadoptShape<N>(s: Forest<N>, c: N, n: N)
    requires Shape(s) && IsConference(s, c) && IsCall(s, n) && n !in s.kids[c]
    ensures Shape(Readopt(s, c, n))
  {
    ReadoptMoves(s, c, n);
    MovedLinked(s, c, n, Readopt(s, c, n));
    MovedSeparate(s, c, n, Readopt(s, c, n));
  }

  lemma ReadoptPlaced<N>(s: Forest<N>, c: N, n: N, moving: set<N>)
    requires Shape(s) && IsConference(s, c) && c in s.top && IsCall(s, n) && n !in s.kids[c]
    requires AllPlaced(s, moving)
    ensures AllPlaced(Readopt(s, c, n), moving - {n})
  {
    ReadoptMoves(s, c, n);
    var t := Readopt(s, c, n);
    forall m | m in t.info && Alive(t, m) ensures Placed(t, m) || m in moving - {n} {
      assert Alive(s, m);
      if m == n {
        assert c in t.top && n in Kids(t, c);
      } else if m in moving || m in s.top {
      } else {
        var d :| d in s.top && m in Kids(s, d);
        assert d in t.top && m in Kids(t, d);
      }
    }
  }

  lemma MovedIndexed<N>(s: Forest<N>, c: N, n: N, t: Forest<N>)
    requires Shape(s) && IsConference(s, c) && IsCall(s, n) && Moved(s, c, n, t)
    requires Indexed(s) && s.info[n].id != ""
    ensures Indexed(t)
  {
    hide Closed, Linked, Separate, RemoveFirst;
    forall d, m | d in t.kids && m in t.kids[d] ensures m in t.info && t.info[m].id != "" {
      assert m == n || m in s.kids[d];
    }
  }

  // ----- A new conference -----

  /** Nothing enters CREATION. */
  lemma NoNewCreation<N>(s: Forest<N>, t: Forest<N>)
    requires OneCreation(s)
    requires forall n :: n in t.info && Creating(t, n) ==> Creating(s, n) && t.info[n] == s.info[n]
    ensures OneCreation(t)
  {
  }

  /** A new node without children, at top level or not in the tree at all. */
  ghost predicate Extended<N>(s: Forest<N>, n: N, t: Forest<N>) {
    && n !in s.info && n in t.info && t.info == s.info[n := t.info[n]]
    && t.kids == s.kids[n := []] && t.par == s.par && (t.top == s.top || t.top == s.top + [n])
    && forall k :: k in t.ids ==> t.ids[k] == n || (k in s.ids && t.ids[k] == s.ids[k])
  }

  lemma ExtendedLinked<N>(s: Forest<N>, n: N, t: Forest<N>)
    requires Closed(s) && Linked(s) && Extended(s, n, t)
    ensures Closed(t) && Linked(t)
  {
    hide NoDup;
    EmptyDistinct<N>();
  }

  lemma ExtendedSeparate<N>(s: Forest<N>, n: N, t: Forest<N>)
    requires Closed(s) && Linked(s) && Separate(s) && Extended(s, n, t)
    ensures Separate(t)
  {
    NoDupAppend(s.top, [n]);
    forall d, m | d in t.top && m in Kids(t, d) ensures m !in t.top {
      assert d in s.top && m in s.kids[d];
    }
  }

  lemma ExtendedShape<N>(s: Forest<N>, n: N, t: Forest<N>)
    requires Shape(s) && Extended(s, n, t)
    ensures Shape(t)
  {
    hide Closed, Linked, Separate, Extended;
    ExtendedLinked(s, n, t);
    ExtendedSeparate(s, n, t);
  }

  /** The shape depends on which nodes are conferences, and on nothing else that is known of them. */
  lemma SameShape<N>(s: Forest<N>, t: Forest<N>)
    requires Shape(s) && t.top == s.top && t.kids == s.kids && t.par == s.par && t.info.Keys == s.info.Keys
    requires forall n :: n in s.info ==> t.info[n].conference == s.info[n].conference
    requires forall k :: k in t.ids ==> t.ids[k] in t.info
    ensures Shape(t)
  {
    hide NoDup;
    assert forall n :: (IsCall(t, n) <==> IsCall(s, n)) && (IsConference(t, n) <==> IsConference(s, n));
    assert Closed(t);
    assert Linked(t);
    assert Separate(t);
  }

  lemma NewConferenceIndexed<N>(s: Forest<N>, c: N, id: string, state: State)
    requires Shape(s) && Indexed(s) && c !in s.info && id != "" && id !in s.ids
    ensures Indexed(NewConference(s, c, id, state))
  {
    var t := NewConference(s, c, id, state);
    forall n | n in t.info && Alive(t, n) && t.info[n].id != ""
      ensures t.info[n].id in t.ids && t.ids[t.info[n].id] == n
    {
      assert Alive(s, n);
    }
  }

  lemma NewConferencePlaced<N>(s: Forest<N>, c: N, id: string, state: State)
    requires Shape(s) && AllPlaced(s, {}) && c !in s.info
    ensures AllPlaced(NewConference(s, c, id, state), {})
  {
    var t := NewConference(s, c, id, state);
    forall n | n in t.info && Alive(t, n) ensures Placed(t, n) {
      assert Alive(s, n);
      if n !in s.top {
        var d :| d in s.top && n in Kids(s, d);
        assert d in t.top && n in Kids(t, d);
      }
    }
  }

  lemma NewConferenceIs<N>(s: Forest<N>, c: N, id: string, state: State)
    ensures IsConference(NewConference(s, c, id, state), c)
  {
  }

  lemma NewConferenceKeeps<N>(s: Forest<N>, c: N, id: string, state: State)
    requires Inv(s) && c !in s.info && id != "" && id !in s.ids && !LifeOf(state).Creation?
    ensures Inv(NewConference(s, c, id, state))
  {
    hide Shape, Indexed, AllPlaced, OneCreation;
    ExtendedShape(s, c, NewConference(s, c, id, state));
    NewConferenceIndexed(s, c, id, state);
    NewConferencePlaced(s, c, id, state);
    NoNewCreation(s, NewConference(s, c, id, state));
  }

  /** What the daemon promises of a participant list: calls only. */
  ghost predicate CallsOnlyIds<N>(s: Forest<N>, participants: seq<string>) {
    forall i :: 0 <= i < |participants| && participants[i] in s.ids ==> IsCall(s, s.ids[participants[i]])
  }

  lemma MoveClosed<N>(s: Forest<N>, c: N, p: string)
    requires Closed(s) && IsConference(s, c)
    ensures Closed(AdoptKnown(s, c, p)) && IsConference(AdoptKnown(s, c, p), c)
    ensures Closed(ReadoptKnown(s, c, p)) && IsConference(ReadoptKnown(s, c, p), c)
  {
    hide RemoveFirst, RemoveAll;
  }

  lemma EvictKnown<N>(s: Forest<N>, c: N, participants: seq<string>)
    requires Inv(s) && IsConference(s, c)
    ensures Closed(Evict(s, c, participants)) && IsConference(Evict(s, c, participants), c)
  {
    hide Linked, Separate, Indexed, AllPlaced, OneCreation;
    KidsKnown(s, c);
    var out := Leaving(s.info, s.kids[c], participants);
    LeavingAre(s.info, s.kids[c], participants);
    assert forall n :: n in out ==> n in s.kids[c] && n in s.info;
  }

  /** Adopting a child again changes nothing. */
  lemma AdoptChild<N>(s: Forest<N>, c: N, n: N)
    requires Shape(s) && IsConference(s, c) && c in s.top && n in s.kids[c]
    ensures Adopt(s, c, n) == s
  {
    assert s.par[n] == c && n !in s.top;
    assert s.par[n := c] == s.par;
  }

  lemma AdoptKeeps<N>(s: Forest<N>, c: N, n: N)
    requires Inv(s) && IsConference(s, c) && c in s.top && IsCall(s, n) && s.info[n].id != ""
    ensures Inv(Adopt(s, c, n))
    ensures c in Adopt(s, c, n).top && Adopt(s, c, n).info == s.info && Adopt(s, c, n).ids == s.ids
  {
    if n in s.kids[c] {
      AdoptChild(s, c, n);
    } else {
      var t := Readopt(s, c, n);
      assert Adopt(s, c, n) == t by { assert n !in Kids(MoveUnder(s, c, n), c); }
      ReadoptKeeps(s, c, n, {});
      assert AllPlaced(t, {}) by { assert {} - {n} == {}; }
    }
  }

  lemma {:induction false} AdoptAllKeeps<N>(s: Forest<N>, c: N, participants: seq<string>)
    requires Inv(s) && IsConference(s, c) && c in s.top && CallsOnlyIds(s, participants)
    ensures Inv(AdoptAll(s, c, participants))
    ensures AdoptAll(s, c, participants).info == s.info
    decreases |participants|
  {
    if participants != [] {
      var p := participants[0];
      if p in s.ids {
        AdoptKeeps(s, c, s.ids[p]);
        AdoptAllKeeps(Adopt(s, c, s.ids[p]), c, participants[1..]);
      } else {
        AdoptAllKeeps(s, c, participants[1..]);
      }
    }
  }

  // ----- Removals -----

  /** Nothing that a removal puts back is at top level already. */
  ghost predicate Removable<N>(s: Forest<N>, n: N) {
    n in s.top || forall x :: x in Kids(s, n) && Restored(s.info, x) ==> x !in s.top
  }

  /** Calls have no children, so removing one puts nothing back. */
  lemma CallRemovable<N>(s: Forest<N>, n: N)
    requires Shape(s) && IsCall(s, n)
    ensures Removable(s, n)
  {
  }

  lemma Flat<N>(s: Forest<N>)
    requires Shape(s)
    ensures FlatTree(s)
  {
  }

  lemma KidsKnown<N>(s: Forest<N>, c: N)
    requires Inv(s) && c in s.info
    ensures c in s.kids && forall i :: 0 <= i < |s.kids[c]| ==> s.kids[c][i] in s.info
  {
    forall i | 0 <= i < |s.kids[c]| ensures s.kids[c][i] in s.info {
      assert s.kids[c][i] in s.kids[c];
    }
  }

  lemma {:induction false} ActiveKnown<N>(s: Forest<N>, nodes: seq<N>, n: N)
    requires Inv(s) && (forall c :: c in nodes ==> c in s.info) && n in ActiveCalls(s, nodes)
    ensures n in s.info
  {
    if n != nodes[0] {
      if n in Kids(s, nodes[0]) {
        KidsKnown(s, nodes[0]);
      } else {
        ActiveKnown(s, nodes[1..], n);
      }
    }
  }

  lemma CreatingIs<N>(s: Forest<N>, n: N)
    requires n in s.info
    ensures Creating(s, n) == LifeOf(s.info[n].state).Creation?
  {
  }

  lemma TopKnown<N>(s: Forest<N>)
    requires Inv(s)
    ensures Closed(s)
  {
  }

  lemma FlatInv<N>(s: Forest<N>)
    requires Inv(s)
    ensures FlatTree(s) && Shape(s)
  {
    Flat(s);
  }

  /** All that a removal needs to run: known nodes, and children that are calls. */
  ghost predicate Grounded<N>(s: Forest<N>) {
    Closed(s) && FlatTree(s) && forall c :: c in s.kids ==> forall n :: n in s.kids[c] ==> n in s.info
  }

  lemma GroundedInv<N>(s: Forest<N>)
    requires Inv(s)
    ensures Grounded(s)
  {
    Flat(s);
  }

  lemma GroundedIs<N>(s: Forest<N>)
    requires Grounded(s)
    ensures FlatTree(s) && Closed(s)
    ensures forall c, i :: c in s.kids && 0 <= i < |s.kids[c]| ==> s.kids[c][i] in s.info
  {
    hide Closed, FlatTree;
    forall c, i | c in s.kids && 0 <= i < |s.kids[c]| ensures s.kids[c][i] in s.info {
      assert s.kids[c][i] in s.kids[c];
    }
  }

  lemma GroundedTop<N>(s: Forest<N>)
    requires Grounded(s)
    ensures forall i :: 0 <= i < |s.top| ==> s.top[i] in s.info
  {
    hide FlatTree;
    forall i | 0 <= i < |s.top| ensures s.top[i] in s.info {
      assert s.top[i] in s.top;
    }
  }

  lemma RemoveOneGrounded<N>(s: Forest<N>, n: N)
    requires Grounded(s) && n in s.info
    ensures Grounded(RemoveOne(s, n))
  {
    RestorableAre(s.info, Kids(s, n));
    hide Restorable, RemoveFirst;
  }

  lemma RetireGrounded<N>(s: Forest<N>, c: N)
    requires Grounded(s)
    ensures Grounded(SetState(s, c, Over))
  {
  }

  /** What a removal puts back, and that the removed node is gone. */
  lemma RemovalFacts<N>(s: Forest<N>, n: N)
    requires Shape(s) && n in s.info && Removable(s, n)
    ensures
      var back := Restorable(s.info, s.kids[n]);
      && NoDup(back) && n !in back && n !in RemoveFirst(s.top, n)
      && forall x :: x in back ==> IsCall(s, x) && x in s.par && s.par[x] == n && x !in s.top
  {
    RestorableAre(s.info, s.kids[n]);
  }

  lemma RemoveOneShape<N>(s: Forest<N>, n: N)
    requires Shape(s) && n in s.info && Removable(s, n)
    ensures Shape(RemoveOne(s, n))
  {
    RemovalFacts(s, n);
    var t := RemoveOne(s, n);
    var back := Restorable(s.info, s.kids[n]);
    assert Closed(t) && Linked(t);
    NoDupAppend(RemoveFirst(s.top, n), back);
    forall d, x | d in t.top && x in Kids(t, d) ensures x !in t.top {
      assert d in s.top && d != n;
    }
    forall m | m in t.top && m in t.par ensures t.par[m] !in t.top {
      assert t.par[m] !in back;
    }
  }

  lemma RemoveOnePlaced<N>(s: Forest<N>, n: N)
    requires Shape(s) && n in s.info && !Alive(s, n) && AllPlaced(s, {})
    ensures AllPlaced(RemoveOne(s, n), {})
  {
    hide Closed, Linked, Separate;
    var t := RemoveOne(s, n);
    RestorableAre(s.info, Kids(s, n));
    forall m | m in t.info && Alive(t, m) ensures Placed(t, m) {
      assert Alive(s, m);
      if m in s.top {
        assert m in t.top;
      } else {
        var d :| d in s.top && m in Kids(s, d);
        if d == n {
          assert Restored(s.info, m);
          assert m in t.top;
        } else {
          assert d in t.top && m in Kids(t, d);
        }
      }
    }
  }

  lemma RemoveOneKeeps<N>(s: Forest<N>, n: N)
    requires Inv(s) && n in s.info && !Alive(s, n) && Removable(s, n)
    ensures Inv(RemoveOne(s, n))
  {
    RemoveOneShape(s, n);
    RemoveOnePlaced(s, n);
    NoNewCreation(s, RemoveOne(s, n));
  }

  /** Ending a conference touches nothing else. */
  lemma RetireKeeps<N>(s: Forest<N>, c: N)
    requires Inv(s) && IsConference(s, c)
    ensures Inv(Retire(s, c))
  {
    SetConferenceState(s, c, Over);
  }

  /** With the same tree, a live call stays where it is. */
  lemma SamePlaced<N>(s: Forest<N>, t: Forest<N>)
    requires AllPlaced(s, {}) && t.top == s.top && t.kids == s.kids
    requires forall n :: n in t.info && Alive(t, n) ==> Alive(s, n)
    ensures AllPlaced(t, {})
  {
    forall n | n in t.info && Alive(t, n) ensures Placed(t, n) {
      assert Alive(s, n) && Placed(s, n);
      if n !in s.top {
        var d :| d in s.top && n in Kids(s, d);
        assert d in t.top && n in Kids(t, d);
      }
    }
  }

  /** The tree does not depend on states, as long as no finished call comes back to life. */
  lemma SetStateTree<N>(s: Forest<N>, n: N, state: State)
    requires Shape(s) && Indexed(s) && AllPlaced(s, {}) && n in s.info
    requires IsConference(s, n) || Alive(s, n) || LifeOf(state).Finished?
    ensures Shape(SetState(s, n, state)) && Indexed(SetState(s, n, state)) && AllPlaced(SetState(s, n, state), {})
  {
    hide Closed, Linked, Separate;
    var t := SetState(s, n, state);
    SetStateShape(s, n, state);
    SamePlaced(s, t);
    hide AllPlaced;
    forall m | m in t.info && Alive(t, m) && t.info[m].id != ""
      ensures t.info[m].id in t.ids && t.ids[t.info[m].id] == m
    {
      assert Alive(s, m) && t.info[m].id == s.info[m].id;
    }
  }

  lemma SetStateShape<N>(s: Forest<N>, n: N, state: State)
    requires Shape(s) && n in s.info
    ensures Shape(SetState(s, n, state))
  {
    hide Linked, Separate;
    SameShape(s, SetState(s, n, state));
  }

  lemma SetConferenceState<N>(s: Forest<N>, c: N, state: State)
    requires Inv(s) && IsConference(s, c) && !LifeOf(state).Creation?
    ensures Inv(SetState(s, c, state))
  {
    SetStateTree(s, c, state);
    NoNewCreation(s, SetState(s, c, state));
  }

  /** Whatever the daemon calls the state of a conference, the conference can report it. */
  lemma ConferenceMoves<N>(s: Forest<N>, c: N, name: string)
    requires Inv(s) && IsConference(s, c) && c in s.top
    ensures Inv(SetState(s, c, ConferenceState(name))) && Removable(SetState(s, c, ConferenceState(name)), c)
  {
    hide Shape, Indexed, AllPlaced, OneCreation;
    SetConferenceState(s, c, ConferenceState(name));
  }

  lemma {:induction false} CleanupKeeps<N>(s: Forest<N>)
    requires Inv(s) && FlatTree(s)
    ensures Inv(Cleanup(s))
    decreases Conferences(s, s.top)
  {
    var stale := FirstStale(s, s.top);
    if stale.Some? {
      var c := stale.value;
      RemovalShrinks(s, c);
      RemoveOneKeeps(s, c);
      CleanupKeeps(RemoveOne(s, c));
      RetireKeeps(Cleanup(RemoveOne(s, c)), c);
    }
  }

  lemma RemoveCallKeeps<N>(s: Forest<N>, n: N)
    requires Inv(s) && FlatTree(s) && n in s.info && !Alive(s, n) && Removable(s, n)
    ensures Inv(RemoveCall(s, n))
  {
    RemovalShrinks(s, n);
    RemoveOneKeeps(s, n);
    CleanupKeeps(RemoveOne(s, n));
  }

  lemma ReportedKeeps<N>(s: Forest<N>, n: N)
    requires Inv(s) && FlatTree(s) && n in s.info && Removable(s, n)
    ensures Inv(Reported(s, n))
  {
    hide Shape, Indexed, AllPlaced, OneCreation, Removable, RemoveCall;
    if Reports(s, n) {
      RemoveCallKeeps(s, n);
    }
  }

  lemma RemoveConferenceKeeps<N>(s: Forest<N>, c: N)
    requires Inv(s) && FlatTree(s) && IsConference(s, c) && Removable(s, c)
    ensures Inv(RemoveConference(s, c))
  {
    RemoveCallKeeps(s, c);
    RetireKeeps(RemoveCall(s, c), c);
  }

  lemma {:induction false} RemoveEmptyKeeps<N>(s: Forest<N>)
    requires Inv(s) && FlatTree(s)
    ensures Inv(RemoveEmpty(s))
    decreases Conferences(s, s.top)
  {
    var empty := FirstEmpty(s, s.top);
    if empty.Some? {
      RemoveConferenceKeeps(s, empty.value);
      RemoveEmptyKeeps(RemoveConference(s, empty.value));
    }
  }

  // ----- Changing a conference -----

  lemma LeavingFacts<N>(s: Forest<N>, c: N, participants: seq<string>)
    requires Shape(s) && IsConference(s, c)
    ensures
      var out := Leaving(s.info, s.kids[c], participants);
      NoDup(out) && forall n :: n in out ==> n in s.kids[c] && IsCall(s, n) && n in s.par && s.par[n] == c
  {
    LeavingAre(s.info, s.kids[c], participants);
  }

  lemma EvictClosedLinked<N>(s: Forest<N>, c: N, participants: seq<string>)
    requires Shape(s) && IsConference(s, c)
    ensures Closed(Evict(s, c, participants)) && Linked(Evict(s, c, participants))
  {
    hide Leaving, Separate, NoDup;
    LeavingFacts(s, c, participants);
    var t := Evict(s, c, participants);
    forall d | d in t.kids
      ensures NoDup(t.kids[d]) && (t.kids[d] != [] ==> IsConference(t, d))
      ensures forall m :: m in t.kids[d] ==> IsCall(t, m) && m in t.par && t.par[m] == d
    {
      if d == c {
        EmptyDistinct<N>();
      } else {
        assert t.kids[d] == s.kids[d];
      }
    }
  }

  lemma EmptyDistinct<N>()
    ensures NoDup<N>([])
  {
  }

  lemma EvictShape<N>(s: Forest<N>, c: N, participants: seq<string>)
    requires Shape(s) && IsConference(s, c) && c in s.top
    ensures Shape(Evict(s, c, participants))
  {
    LeavingFacts(s, c, participants);
    hide Leaving;
    var t := Evict(s, c, participants);
    var out := Leaving(s.info, s.kids[c], participants);
    EvictClosedLinked(s, c, participants);
    NoDupAppend(s.top, out);
    forall d, n | d in t.top && n in Kids(t, d) ensures n !in t.top {
      assert d in s.top && d != c;
    }
    forall n | n in t.top && n in t.par ensures t.par[n] !in t.top {
      assert n in s.top && t.par[n] !in out;
    }
  }

  lemma EvictPlaced<N>(s: Forest<N>, c: N, participants: seq<string>)
    requires Shape(s) && IsConference(s, c) && c in s.top && AllPlaced(s, {})
    ensures AllPlaced(Evict(s, c, participants), set n | n in s.kids[c] && n in s.info && s.info[n].id in participants)
  {
    LeavingAre(s.info, s.kids[c], participants);
    var t := Evict(s, c, participants);
    var moving := set n | n in s.kids[c] && n in s.info && s.info[n].id in participants;
    forall m | m in t.info && Alive(t, m) ensures Placed(t, m) || m in moving {
      assert Alive(s, m);
      if m in s.top {
        assert m in t.top;
      } else {
        var d :| d in s.top && m in Kids(s, d);
        if d == c {
          assert m in moving || Leaves(s.info, m, participants);
        } else {
          assert d in t.top && m in Kids(t, d);
        }
      }
    }
  }

  /** Every live call still to be moved is named by a participant. */
  ghost predicate Awaited<N>(s: Forest<N>, participants: seq<string>, moving: set<N>) {
    forall n :: n in moving && Alive(s, n) ==> s.info[n].id != "" && s.info[n].id in participants
  }

  /** No participant is a child yet. */
  ghost predicate Absent<N>(s: Forest<N>, c: N, participants: seq<string>) {
    forall i :: 0 <= i < |participants| && participants[i] in s.ids ==> s.ids[participants[i]] !in Kids(s, c)
  }

  lemma AwaitedRest<N>(s: Forest<N>, participants: seq<string>, moving: set<N>)
    requires Indexed(s) && participants != [] && Awaited(s, participants, moving)
    ensures
      var p := participants[0];
      Awaited(s, participants[1..], if p in s.ids then moving - {s.ids[p]} else moving)
  {
    var p, rest := participants[0], participants[1..];
    forall n | n in moving && Alive(s, n) && (p in s.ids ==> n != s.ids[p]) ensures s.info[n].id in rest {
      assert s.info[n].id in s.ids && s.ids[s.info[n].id] == n;
    }
  }

  lemma AbsentRest<N>(s: Forest<N>, c: N, participants: seq<string>)
    requires Shape(s) && Indexed(s) && IsConference(s, c) && CallsOnlyIds(s, participants)
    requires participants != [] && NoDup(participants) && Absent(s, c, participants)
    ensures
      var p := participants[0];
      Absent(if p in s.ids then Readopt(s, c, s.ids[p]) else s, c, participants[1..])
  {
    var p := participants[0];
    if p in s.ids {
      ReadoptMoves(s, c, s.ids[p]);
      var t := Readopt(s, c, s.ids[p]);
      forall i | 0 <= i < |participants[1..]| && participants[1..][i] in t.ids
        ensures t.ids[participants[1..][i]] !in Kids(t, c)
      {
        assert participants[1..][i] == participants[i + 1];
      }
    }
  }

  lemma ReadoptKeeps<N>(s: Forest<N>, c: N, n: N, moving: set<N>)
    requires Shape(s) && Indexed(s) && AllPlaced(s, moving) && OneCreation(s)
    requires IsConference(s, c) && c in s.top && IsCall(s, n) && n !in s.kids[c] && s.info[n].id != ""
    ensures
      var t := Readopt(s, c, n);
      && Shape(t) && Indexed(t) && AllPlaced(t, moving - {n}) && OneCreation(t)
      && t.info == s.info && t.ids == s.ids && c in t.top
  {
    ReadoptMoves(s, c, n);
    ReadoptShape(s, c, n);
    ReadoptPlaced(s, c, n, moving);
    MovedIndexed(s, c, n, Readopt(s, c, n));
    NoNewCreation(s, Readopt(s, c, n));
  }

  lemma NobodyAwaited<N>(s: Forest<N>, moving: set<N>)
    requires Shape(s) && Indexed(s) && AllPlaced(s, moving) && OneCreation(s) && Awaited(s, [], moving)
    ensures Inv(s)
  {
    hide Shape, Indexed, OneCreation;
  }

  /** The participant at the head is a call that is not a child yet. */
  lemma RestOnlyCalls<N>(s: Forest<N>, c: N, participants: seq<string>)
    requires Shape(s) && Indexed(s) && IsConference(s, c) && CallsOnlyIds(s, participants)
    requires participants != [] && NoDup(participants) && Absent(s, c, participants)
    ensures c in s.kids && NoDup(participants[1..]) && CallsOnlyIds(s, participants[1..])
    ensures
      participants[0] in s.ids ==>
        var n := s.ids[participants[0]];
        IsCall(s, n) && n !in s.kids[c] && s.info[n].id != ""
  {
  }

  lemma {:induction false} ReadoptAllKeeps<N>(s: Forest<N>, c: N, participants: seq<string>, moving: set<N>)
    requires Shape(s) && Indexed(s) && AllPlaced(s, moving) && OneCreation(s)
    requires IsConference(s, c) && c in s.top && CallsOnlyIds(s, participants)
    requires NoDup(participants) && Awaited(s, participants, moving) && Absent(s, c, participants)
    ensures Inv(ReadoptAll(s, c, participants))
    ensures ReadoptAll(s, c, participants).info == s.info
    decreases |participants|
  {
    hide Shape, OneCreation, Indexed, AllPlaced, Absent, NoDup;
    if participants == [] {
      NobodyAwaited(s, moving);
    } else {
      var p := participants[0];
      RestOnlyCalls(s, c, participants);
      AwaitedRest(s, participants, moving);
      AbsentRest(s, c, participants);
      if p in s.ids {
        var n := s.ids[p];
        var t := Readopt(s, c, n);
        ReadoptKeeps(s, c, n, moving);
        ReadoptAllKeeps(t, c, participants[1..], moving - {n});
      } else {
        ReadoptAllKeeps(s, c, participants[1..], moving);
      }
    }
  }

  /** A conference of the tree is at top level: children are calls. */
  lemma PlacedConference<N>(s: Forest<N>, c: N)
    requires Shape(s) && IsConference(s, c) && Placed(s, c)
    ensures c in s.top
  {
  }

  lemma RejoinedKeeps<N>(s: Forest<N>, c: N, state: State, participants: seq<string>)
    requires Inv(s) && FlatTree(s) && IsConference(s, c) && c in s.top && !LifeOf(state).Creation? && !state.Error?
    requires NoDup(participants) && CallsOnlyIds(s, participants)
    ensures Inv(Rejoined(s, c, state, participants))
  {
    hide Linked, Separate, Indexed, AllPlaced, OneCreation;
    var a := SetState(s, c, state);
    SetConferenceState(s, c, state);
    var b := Evict(a, c, participants);
    EvictShape(a, c, participants);
    EvictPlaced(a, c, participants);
    var moving := set n | n in a.kids[c] && n in a.info && a.info[n].id in participants;
    EvictRest(a, c, participants);
    ReadoptAllKeeps(b, c, participants, moving);
  }

  lemma EvictRest<N>(s: Forest<N>, c: N, participants: seq<string>)
    requires Inv(s) && IsConference(s, c)
    ensures Indexed(Evict(s, c, participants)) && OneCreation(Evict(s, c, participants))
    ensures
      var moving := set n | n in s.kids[c] && n in s.info && s.info[n].id in participants;
      Awaited(Evict(s, c, participants), participants, moving) && Absent(Evict(s, c, participants), c, participants)
  {
    NoNewCreation(s, Evict(s, c, participants));
  }
}
