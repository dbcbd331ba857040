/**
  When removing a call keeps the tree: exactly when the node is still at top level, or none of the
  children it would put back is there already. A removal does not clear the children of the removed
  conference, so removing it again puts them back a second time.
 */
module CallForestRemoval {
  import opened Lists
  import opened CallTables
  import opened CallForest
  import opened CallForestShape

  lemma {:induction false} RemoveFirstKeepsOthers<T>(s: seq<T>, x: T, y: T)
    requires x != y
    ensures multiset(RemoveFirst(s, x))[y] == multiset(s)[y]
  {
    if s != [] {
      assert s == [s[0]] + s[1..];
      if s[0] != x {
        RemoveFirstKeepsOthers(s[1..], x, y);
      }
    }
  }

  lemma {:induction false} TwiceIsDuplicate<T>(s: seq<T>, x: T)
    requires multiset(s)[x] >= 2
    ensures !NoDup(s)
  {
    assert s == [s[0]] + s[1..];
    if s[0] == x {
      assert x in multiset(s[1..]);
      var j :| 0 <= j < |s[1..]| && s[1..][j] == x;
      assert s[0] == s[j + 1];
    } else {
      TwiceIsDuplicate(s[1..], x);
      var i, j :| 0 <= i < j < |s[1..]| && s[1..][i] == s[1..][j];
      assert s[i + 1] == s[j + 1];
    }
  }

  /** A call that occurs twice still does after any cleanup. */
  lemma {:induction false} CleanupKeepsTwice<N>(s: Forest<N>, x: N)
    requires FlatTree(s) && IsCall(s, x) && multiset(s.top)[x] >= 2
    ensures multiset(Cleanup(s).top)[x] >= 2
    decreases Conferences(s, s.top)
  {
    var stale := FirstStale(s, s.top);
    if stale.Some? {
      RemovalShrinks(s, stale.value);
      RemoveFirstKeepsOthers(s.top, stale.value, x);
      CleanupKeepsTwice(RemoveOne(s, stale.value), x);
    }
  }

  lemma RemovalDuplicates<N>(s: Forest<N>, n: N)
    requires Inv(s) && FlatTree(s) && n in s.info && !Removable(s, n)
    ensures !NoDup(RemoveCall(s, n).top)
  {
    hide Cleanup, NoDup, Linked, Separate, Indexed, AllPlaced, OneCreation;
    var x :| x in Kids(s, n) && Restored(s.info, x) && x in s.top;
    var t := RemoveOne(s, n);
    var back := Restorable(s.info, Kids(s, n));
    RestorableAre(s.info, Kids(s, n));
    assert t.top == s.top + back && x in back;
    RemovalShrinks(s, n);
    CleanupKeepsTwice(t, x);
    TwiceIsDuplicate(Cleanup(t).top, x);
  }

  /** The exact condition under which a removal keeps the tree a forest. */
  lemma RemovalKeepsExactly<N>(s: Forest<N>, n: N)
    requires Inv(s) && FlatTree(s) && n in s.info && !Alive(s, n)
    ensures Inv(RemoveCall(s, n)) <==> Removable(s, n)
  {
    if Removable(s, n) {
      RemoveCallKeeps(s, n);
    } else {
      RemovalDuplicates(s, n);
    }
  }

  /** The same for the end of a conference, which is a removal and a state. */
  lemma ConferenceKeepsExactly<N>(s: Forest<N>, c: N)
    requires Inv(s) && FlatTree(s) && IsConference(s, c)
    ensures Inv(RemoveConference(s, c)) <==> Removable(s, c)
  {
    hide RemoveCall;
    if Removable(s, c) {
      RemoveConferenceKeeps(s, c);
    } else {
      RemovalDuplicates(s, c);
    }
  }

  // ----- Removals and calls -----

  /** Everything that is known of the ordinary calls is as before. */
  ghost predicate SameCalls<N>(s: Forest<N>, t: Forest<N>) {
    && (forall n :: n in s.info && !s.info[n].conference ==> n in t.info && t.info[n] == s.info[n])
    && (forall n :: n in t.info && !t.info[n].conference ==> n in s.info && s.info[n] == t.info[n])
  }

  lemma {:induction false} CleanupSameCalls<N>(s: Forest<N>)
    requires FlatTree(s)
    ensures SameCalls(s, Cleanup(s))
    decreases Conferences(s, s.top)
  {
    var stale := FirstStale(s, s.top);
    if stale.Some? {
      RemovalShrinks(s, stale.value);
      CleanupSameCalls(RemoveOne(s, stale.value));
    }
  }

  lemma RemoveConferenceSameCalls<N>(s: Forest<N>, c: N)
    requires FlatTree(s) && IsConference(s, c)
    ensures SameCalls(s, RemoveConference(s, c))
  {
    RemovalShrinks(s, c);
    CleanupSameCalls(RemoveOne(s, c));
  }

  lemma {:induction false} RemoveEmptySameCalls<N>(s: Forest<N>)
    requires FlatTree(s)
    ensures SameCalls(s, RemoveEmpty(s))
    decreases Conferences(s, s.top)
  {
    var empty := FirstEmpty(s, s.top);
    if empty.Some? {
      RemoveConferenceSameCalls(s, empty.value);
      RemoveEmptySameCalls(RemoveConference(s, empty.value));
    }
  }

  // ----- A removal leaves nothing to clean up -----

  lemma {:induction false} StaleWherever<N>(s: Forest<N>, t: Forest<N>, nodes: seq<N>)
    requires forall c :: c in nodes ==> Stale(s, c) == Stale(t, c)
    ensures FirstStale(s, nodes) == FirstStale(t, nodes)
  {
    if nodes != [] {
      StaleWherever(s, t, nodes[1..]);
    }
  }

  /** Children are calls, so ending a conference makes no other conference stale. */
  lemma RetireStale<N>(s: Forest<N>, c: N, d: N)
    requires FlatTree(s) && IsConference(s, c)
    ensures Stale(Retire(s, c), d) == Stale(s, d)
  {
    if Kids(s, d) != [] {
      assert Kids(s, d)[0] in Kids(s, d) && Kids(s, d)[|Kids(s, d)| - 1] in Kids(s, d);
    }
  }

  lemma {:induction false} CleanupDone<N>(s: Forest<N>)
    requires FlatTree(s)
    ensures FirstStale(Cleanup(s), Cleanup(s).top).None?
    decreases Conferences(s, s.top)
  {
    var stale := FirstStale(s, s.top);
    if stale.Some? {
      var c := stale.value;
      RemovalShrinks(s, c);
      var t := Cleanup(RemoveOne(s, c));
      CleanupDone(RemoveOne(s, c));
      forall d | d in t.top ensures Stale(t, d) == Stale(Retire(t, c), d) {
        RetireStale(t, c, d);
      }
      StaleWherever(t, Retire(t, c), t.top);
    }
  }

  // ----- The second removal -----

  lemma RemoveOneTop<N>(s: Forest<N>, c: N)
    requires FlatTree(s) && IsConference(s, c)
    ensures
      var t := RemoveOne(s, c);
      && t.kids == s.kids && t.info == s.info
      && (forall x :: x in s.top && IsCall(s, x) ==> x in t.top)
      && (forall d :: d in t.top && IsConference(s, d) ==> d in s.top)
  {
    RestorableAre(s.info, Kids(s, c));
    assert forall x :: x in Restorable(s.info, Kids(s, c)) ==> x in Kids(s, c) && !IsConference(s, x);
  }

  /** Removals leave the child lists alone and never bring a conference back. */
  lemma {:induction false} CleanupTop<N>(s: Forest<N>)
    requires FlatTree(s)
    ensures Cleanup(s).kids == s.kids
    ensures forall x :: x in s.top && IsCall(s, x) ==> x in Cleanup(s).top
    ensures forall c :: c in Cleanup(s).top && IsConference(s, c) ==> c in s.top
    decreases Conferences(s, s.top)
  {
    hide RemoveOne, FlatTree;
    var stale := FirstStale(s, s.top);
    if stale.Some? {
      RemovalShrinks(s, stale.value);
      RemoveOneTop(s, stale.value);
      CleanupTop(RemoveOne(s, stale.value));
    }
  }

  /**
    Every conference removal marks the conference as OVER, which schedules a removal of the same call.
    If one of its participants was put back, that second removal always breaks the forest.
   */
  lemma SecondRemovalBreaks<N>(s: Forest<N>, c: N, x: N)
    requires Inv(s) && FlatTree(s) && IsConference(s, c) && c in s.top
    requires x in s.kids[c] && Restored(s.info, x)
    ensures FlatTree(RemoveConference(s, c)) && Inv(RemoveConference(s, c))
    ensures !Inv(RemoveCall(RemoveConference(s, c), c))
  {
    hide Shape, Indexed, AllPlaced, OneCreation, Cleanup, RemoveConference;
    RemoveConferenceKeeps(s, c);
    ConferenceLeavesChildren(s, c, x);
    RestoredAgain(s, c, x);
    RemovalKeepsExactly(RemoveConference(s, c), c);
  }

  lemma RestoredAgain<N>(s: Forest<N>, c: N, x: N)
    requires Inv(s) && FlatTree(s) && IsConference(s, c) && x in s.kids[c] && Restored(s.info, x)
    ensures Restored(RemoveConference(s, c).info, x)
  {
    hide Indexed, AllPlaced, OneCreation, Separate, Restored;
    RestoredKept(s, c, x);
  }

  /** The children of a removed conference are at top level, and still listed under it. */
  lemma ConferenceLeavesChildren<N>(s: Forest<N>, c: N, x: N)
    requires Inv(s) && FlatTree(s) && IsConference(s, c) && c in s.top
    requires x in s.kids[c] && Restored(s.info, x)
    ensures
      var t := RemoveConference(s, c);
      && c in t.info && IsConference(t, c) && c !in t.top && x in Kids(t, c) && x in t.top
  {
    hide Separate, Indexed, AllPlaced, OneCreation, Cleanup;
    RemovalShrinks(s, c);
    RestorableAre(s.info, Kids(s, c));
    CleanupTop(RemoveOne(s, c));
    RemovalFacts(s, c);
  }

  lemma RestoredKept<N>(s: Forest<N>, c: N, x: N)
    requires FlatTree(s) && IsConference(s, c) && IsCall(s, x) && Restored(s.info, x)
    ensures Restored(RemoveConference(s, c).info, x)
  {
    RemovalShrinks(s, c);
    CleanupInfo(RemoveOne(s, c), x);
  }

  lemma {:induction false} CleanupInfo<N>(s: Forest<N>, x: N)
    requires FlatTree(s) && IsCall(s, x)
    ensures x in Cleanup(s).info && Cleanup(s).info[x] == s.info[x]
    decreases Conferences(s, s.top)
  {
    var stale := FirstStale(s, s.top);
    if stale.Some? {
      RemovalShrinks(s, stale.value);
      CleanupInfo(RemoveOne(s, stale.value), x);
    }
  }

  /** A talking call in a conference, as the daemon reports them. */
  function OneInConference(): Forest<bool> {
    Forest([true], map[false := [], true := [false]], map[false := true],
           map[false := CallInfo(Current, "a", true), true := Info(true, State.Conference, "conf", true, true)],
           map["a" := false, "conf" := true])
  }

  lemma ExampleShape()
    ensures Shape(OneInConference())
    ensures IsConference(OneInConference(), true) && true in OneInConference().top
    ensures false in OneInConference().kids[true] && Restored(OneInConference().info, false)
  {
    var s := OneInConference();
    assert s.kids[true] == [false];
    assert Closed(s);
    assert Linked(s);
    assert Separate(s);
  }

  lemma ExampleCalls()
    ensures Indexed(OneInConference()) && OneCreation(OneInConference())
  {
    var s := OneInConference();
    assert s.info.Keys == {false, true} && s.ids.Keys == {"a", "conf"};
  }

  lemma ExamplePlaced()
    ensures AllPlaced(OneInConference(), {})
  {
    var s := OneInConference();
    assert s.kids[true] == [false] && true in s.top;
    assert false in Kids(s, true);
  }

  lemma SecondRemovalExample()
    ensures Inv(OneInConference()) && FlatTree(OneInConference())
    ensures FlatTree(RemoveConference(OneInConference(), true))
    ensures !Inv(RemoveCall(RemoveConference(OneInConference(), true), true))
  {
    hide OneInConference, Shape, Indexed, AllPlaced, OneCreation, RemoveConference, RemoveCall;
    ExampleShape();
    ExampleCalls();
    ExamplePlaced();
    Flat(OneInConference());
    SecondRemovalBreaks(OneInConference(), true, false);
  }
}
