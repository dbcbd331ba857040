/**
  Contact methods are handles on a private object that duplicates come to share. A world maps every
  handle to its object and every object that has not been deleted to its data.
 */
module Merging {
  import opened Options
  import opened Lists

  /** The parents are the handles that the object knows of. */
  datatype Data<H(==)> = Data(
    parents: set<H>, uri: string, otherUris: seq<string>, tracked: bool, present: bool, temporary: bool,
    account: Option<nat>)

  datatype World<H(==), D(==)> = World(d: map<H, D>, data: map<D, Data<H>>)

  predicate Known<H, D>(w: World<H, D>, h: H) {
    h in w.d && w.d[h] in w.data
  }

  function DataOf<H, D>(w: World<H, D>, h: H): Data<H>
    requires Known(w, h)
  {
    w.data[w.d[h]]
  }

  /** What merge refuses: the same object twice, different accounts and temporary numbers. */
  predicate Mergeable<H, D>(w: World<H, D>, a: H, b: H)
    requires Known(w, a) && Known(w, b)
  {
    var x, y := DataOf(w, a), DataOf(w, b);
    && a != b && w.d[a] != w.d[b]
    && !(x.account.Some? && y.account.Some? && x.account != y.account)
    && !x.temporary && !y.temporary
  }

  /** The surviving object gets the flags and the longer URI; the other URI is kept beside it. */
  function Absorb<H>(x: Data<H>, y: Data<H>): Data<H> {
    y.(tracked := x.tracked || y.tracked,
       present := x.present || y.present,
       uri := if |x.uri| > |y.uri| then x.uri else y.uri,
       otherUris := y.otherUris + [if |x.uri| > |y.uri| then y.uri else x.uri])
  }

  function AddParent<H, D>(w: World<H, D>, o: D, p: H): World<H, D> {
    if o in w.data then w.(data := w.data[o := w.data[o].(parents := w.data[o].parents + {p})]) else w
  }

  /**
    The handles of the absorbed object are redirected one by one, and entered as parents through the
    object of a itself. Up to and including a, that is still the absorbed object.
   */
  function Redirected<H, D>(w: World<H, D>, a: H, order: seq<H>, to: D): World<H, D>
    decreases |order|
  {
    if order == [] then w
    else
      var u := if a in w.d then AddParent(w, w.d[a], order[0]) else w;
      Redirected(u.(d := u.d[order[0] := to]), a, order[1..], to)
  }

  /** As the documentation has it: every redirected handle becomes a parent of the surviving object. */
  function RedirectedAll<H, D>(w: World<H, D>, order: seq<H>, to: D): World<H, D>
    decreases |order|
  {
    if order == [] then w
    else
      var u := AddParent(w, to, order[0]);
      RedirectedAll(u.(d := u.d[order[0] := to]), order[1..], to)
  }

  /** The parents of an object, in the order in which its set is visited. */
  predicate Order<H>(parents: set<H>, order: seq<H>) {
    NoDup(order) && Elements(order) == parents
  }

  function WithAbsorbed<H, D>(w: World<H, D>, a: H, b: H): World<H, D>
    requires Known(w, a) && Known(w, b)
  {
    w.(data := w.data[w.d[b] := Absorb(DataOf(w, a), DataOf(w, b))])
  }

  /** The code as written; the object of a is deleted at the end. */
  function Merged<H, D>(w: World<H, D>, a: H, b: H, order: seq<H>): World<H, D>
    requires Known(w, a) && Known(w, b)
  {
    if !Mergeable(w, a, b) then w
    else
      var u := Redirected(WithAbsorbed(w, a, b), a, order, w.d[b]);
      u.(data := u.data - {w.d[a]})
  }

  /** The documented intent. */
  function MergedAsIntended<H, D>(w: World<H, D>, a: H, b: H, order: seq<H>): World<H, D>
    requires Known(w, a) && Known(w, b)
  {
    if !Mergeable(w, a, b) then w
    else
      var u := RedirectedAll(WithAbsorbed(w, a, b), order, w.d[b]);
      u.(data := u.data - {w.d[a]})
  }

  // ----- What one merge does -----

  /** All handles of one object are moved over to another one. */
  function Rebound<H, D>(d: map<H, D>, moved: set<H>, to: D): map<H, D> {
    map h | h in d.Keys + moved :: if h in moved then to else d[h]
  }

  /** The handles that are visited after a. */
  function Later<H(==)>(order: seq<H>, a: H): set<H> {
    if order == [] then {} else if order[0] == a then Elements(order[1..]) else Later(order[1..], a)
  }

  lemma {:induction false} RedirectedAllIs<H, D>(w: World<H, D>, order: seq<H>, to: D)
    requires to in w.data
    ensures
      var u := RedirectedAll(w, order, to);
      var moved := Elements(order);
      && u.d == Rebound(w.d, moved, to)
      && u.data == w.data[to := w.data[to].(parents := w.data[to].parents + moved)]
    decreases |order|
  {
    if order != [] {
      var v := AddParent(w, to, order[0]);
      v := v.(d := v.d[order[0] := to]);
      RedirectedAllIs(v, order[1..], to);
      ElementsSplit(order);
      var rest := Elements(order[1..]);
      assert Rebound(v.d, rest, to) == Rebound(w.d, {order[0]} + rest, to);
      assert v.data[to].parents + rest == w.data[to].parents + ({order[0]} + rest);
    } else {
      assert Elements(order) == {};
      assert Rebound(w.d, {}, to) == w.d;
      assert w.data[to].parents + {} == w.data[to].parents;
      assert w.data[to].(parents := w.data[to].parents + {}) == w.data[to];
    }
  }

  /** Once a itself has been redirected, its object is the surviving one. */
  lemma {:induction false} RedirectedAfter<H, D>(w: World<H, D>, a: H, order: seq<H>, to: D)
    requires a in w.d && w.d[a] == to
    ensures Redirected(w, a, order, to) == RedirectedAll(w, order, to)
    decreases |order|
  {
    if order != [] {
      var u := AddParent(w, to, order[0]);
      RedirectedAfter(u.(d := u.d[order[0] := to]), a, order[1..], to);
    }
  }

  /** Only the handles that are visited after a become parents of the surviving object. */
  lemma {:induction false} RedirectedIs<H, D>(w: World<H, D>, a: H, order: seq<H>, to: D)
    requires a in w.d && w.d[a] in w.data && to in w.data && w.d[a] != to
    requires NoDup(order)
    ensures
      var u := Redirected(w, a, order, to);
      && u.d == Rebound(w.d, Elements(order), to)
      && u.data - {w.d[a]} ==
         w.data[to := w.data[to].(parents := w.data[to].parents + Later(order, a))] - {w.d[a]}
    decreases |order|
  {
    if order == [] {
      assert Rebound(w.d, Elements(order), to) == w.d;
      assert w.data[to].(parents := w.data[to].parents + {}) == w.data[to];
    } else {
      var v := AddParent(w, w.d[a], order[0]);
      v := v.(d := v.d[order[0] := to]);
      var rest := order[1..];
      ElementsSplit(order);
      if order[0] == a {
        RedirectedAfter(v, a, rest, to);
        RedirectedAllIs(v, rest, to);
      } else {
        RedirectedIs(v, a, rest, to);
      }
    }
  }

  /** Redirecting handles changes nothing but the sets of parents. */
  lemma {:induction false} RedirectedKeeps<H, D>(w: World<H, D>, a: H, order: seq<H>, to: D, o: D)
    requires o in w.data
    ensures
      var u := Redirected(w, a, order, to);
      o in u.data && u.data[o] == w.data[o].(parents := u.data[o].parents)
    decreases |order|
  {
    if order != [] {
      var v := if a in w.d then AddParent(w, w.d[a], order[0]) else w;
      RedirectedKeeps(v.(d := v.d[order[0] := to]), a, order[1..], to, o);
    }
  }

  function WithFlags<H, D>(w: World<H, D>, o: D, x: D): World<H, D>
    requires o in w.data && x in w.data
  {
    w.(data := w.data[o := w.data[o].(tracked := w.data[x].tracked || w.data[o].tracked,
                                      present := w.data[x].present || w.data[o].present)])
  }

  function WithUri<H, D>(w: World<H, D>, o: D, x: D): World<H, D>
    requires o in w.data && x in w.data
  {
    var y := Absorb(w.data[x], w.data[o]);
    w.(data := w.data[o := w.data[o].(uri := y.uri, otherUris := y.otherUris)])
  }

  /** The flags are taken over before the handles are redirected, and the URI afterwards. */
  lemma MergedInSteps<H, D>(w: World<H, D>, a: H, b: H, order: seq<H>)
    requires Known(w, a) && Known(w, b) && Mergeable(w, a, b) && Order(DataOf(w, a).parents, order)
    ensures
      var x, y := w.d[a], w.d[b];
      var u := Redirected(WithFlags(w, y, x), a, order, y);
      && x in u.data && y in u.data
      && WithUri(u, y, x).(data := WithUri(u, y, x).data - {x}) == Merged(w, a, b, order)
  {
    hide Rebound, Later, Redirected;
    var x, y := w.d[a], w.d[b];
    var v := WithFlags(w, y, x);
    RedirectedIs(v, a, order, y);
    RedirectedKeeps(v, a, order, y, x);
    RedirectedKeeps(v, a, order, y, y);
    RedirectedIs(WithAbsorbed(w, a, b), a, order, y);
    var u := Redirected(v, a, order, y);
    assert WithUri(u, y, x).data - {x} == (u.data - {x})[y := WithUri(u, y, x).data[y]];
    assert (u.data - {x})[y] == u.data[y];
  }

  // ----- The code as written -----

  /** Every handle leads to an object that has not been deleted. */
  ghost predicate Live<H, D>(w: World<H, D>) {
    forall h :: h in w.d ==> w.d[h] in w.data
  }

  /** Objects know no other handles than their own. */
  ghost predicate OwnParents<H, D>(w: World<H, D>) {
    forall o :: o in w.data ==> forall p :: p in w.data[o].parents ==> p in w.d && w.d[p] == o
  }

  /** Every handle of the object is one that the object knows of. */
  ghost predicate AllRegistered<H, D>(w: World<H, D>, o: D) {
    o in w.data && forall h :: h in w.d && w.d[h] == o ==> h in w.data[o].parents
  }

  lemma MergedIs<H, D>(w: World<H, D>, a: H, b: H, order: seq<H>)
    requires Known(w, a) && Known(w, b) && Mergeable(w, a, b) && Order(DataOf(w, a).parents, order)
    ensures
      var u := Merged(w, a, b, order);
      var y := Absorb(DataOf(w, a), DataOf(w, b));
      && u.d == Rebound(w.d, DataOf(w, a).parents, w.d[b])
      && u.data == w.data[w.d[b] := y.(parents := y.parents + Later(order, a))] - {w.d[a]}
  {
    hide Absorb, Rebound, Later;
    RedirectedIs(WithAbsorbed(w, a, b), a, order, w.d[b]);
  }

  /**
    As written, a merge leaves every handle with a live object exactly if the absorbed object knew of
    all its handles.
   */
  lemma StaysLiveExactly<H, D>(w: World<H, D>, a: H, b: H, order: seq<H>)
    requires Live(w) && OwnParents(w) && a in w.d && b in w.d && Mergeable(w, a, b)
    requires Order(DataOf(w, a).parents, order)
    ensures Live(Merged(w, a, b, order)) <==> AllRegistered(w, w.d[a])
  {
    hide Absorb, Later, Merged;
    MergedIs(w, a, b, order);
    var u := Merged(w, a, b, order);
    if Live(u) {
      forall h | h in w.d && w.d[h] == w.d[a] ensures h in DataOf(w, a).parents {
        assert h in u.d && u.d[h] in u.data;
      }
    }
  }

  /** As written, the merged handle itself is not entered with the surviving object. */
  lemma MergedIsUnregistered<H, D>(w: World<H, D>, a: H, b: H, order: seq<H>)
    requires Live(w) && OwnParents(w) && a in w.d && b in w.d && Mergeable(w, a, b)
    requires Order(DataOf(w, a).parents, order)
    ensures
      var u := Merged(w, a, b, order);
      && OwnParents(u) && b in u.d && u.d[b] == w.d[b]
      && (AllRegistered(w, w.d[a]) ==> a in u.d && u.d[a] == u.d[b] && !AllRegistered(u, u.d[b]))
  {
    hide Merged;
    MergedIs(w, a, b, order);
    LaterIsOthers(order, a);
    assert a !in DataOf(w, b).parents;
  }

  lemma {:induction false} LaterIsOthers<H>(order: seq<H>, a: H)
    requires NoDup(order)
    ensures a !in Later(order, a) && Later(order, a) <= Elements(order)
  {
    if order != [] {
      LaterIsOthers(order[1..], a);
      ElementsSplit(order);
    }
  }

  /** A handle of a deleted object that no object knows of stays as it is. */
  lemma StaysDead<H, D>(w: World<H, D>, a: H, b: H, order: seq<H>)
    requires !Live(w) && OwnParents(w) && Known(w, a) && Known(w, b)
    requires Mergeable(w, a, b) ==> Order(DataOf(w, a).parents, order)
    ensures !Live(Merged(w, a, b, order)) && OwnParents(Merged(w, a, b, order))
  {
    hide Later, Merged;
    if Mergeable(w, a, b) {
      MergedIs(w, a, b, order);
      LaterIsOthers(order, a);
      var h :| h in w.d && w.d[h] !in w.data;
      assert h in Merged(w, a, b, order).d;
    } else {
      RefusedIs(w, a, b, order);
    }
  }

  lemma RefusedIs<H, D>(w: World<H, D>, a: H, b: H, order: seq<H>)
    requires Known(w, a) && Known(w, b) && !Mergeable(w, a, b)
    ensures Merged(w, a, b, order) == w && MergedAsIntended(w, a, b, order) == w
  {
  }

  // ----- Runs of the code as written -----

  /** One call of merge, with the order in which the parents are visited. */
  datatype Merge<H> = Merge(a: H, b: H, order: seq<H>)

  ghost predicate Allowed<H, D>(w: World<H, D>, m: Merge<H>) {
    Known(w, m.a) && Known(w, m.b) && (Mergeable(w, m.a, m.b) ==> Order(DataOf(w, m.a).parents, m.order))
  }

  ghost predicate AllowedRun<H, D>(w: World<H, D>, merges: seq<Merge<H>>)
    decreases |merges|
  {
    merges != [] ==>
      Allowed(w, merges[0]) && AllowedRun(Merged(w, merges[0].a, merges[0].b, merges[0].order), merges[1..])
  }

  ghost function Run<H, D>(w: World<H, D>, merges: seq<Merge<H>>): World<H, D>
    requires AllowedRun(w, merges)
    decreases |merges|
  {
    if merges == [] then w else Run(Merged(w, merges[0].a, merges[0].b, merges[0].order), merges[1..])
  }

  /** Some merge absorbs an object that has absorbed another one before. */
  ghost predicate AbsorbsSurvivor<H, D>(w: World<H, D>, merges: seq<Merge<H>>, survivors: set<D>)
    requires AllowedRun(w, merges)
    decreases |merges|
  {
    merges != [] &&
    var m, rest := merges[0], merges[1..];
    var u := Merged(w, m.a, m.b, m.order);
    if Mergeable(w, m.a, m.b) then w.d[m.a] in survivors || AbsorbsSurvivor(u, rest, survivors + {w.d[m.b]})
    else AbsorbsSurvivor(u, rest, survivors)
  }

  /** The objects that have absorbed another one are those that miss a handle. */
  ghost predicate MissHandles<H, D>(w: World<H, D>, survivors: set<D>) {
    forall o :: o in w.data ==> (o in survivors <==> !AllRegistered(w, o))
  }

  lemma MissHandlesStep<H, D>(w: World<H, D>, a: H, b: H, order: seq<H>, survivors: set<D>)
    requires Live(w) && OwnParents(w) && a in w.d && b in w.d && Mergeable(w, a, b)
    requires Order(DataOf(w, a).parents, order)
    requires MissHandles(w, survivors) && w.d[a] !in survivors
    ensures MissHandles(Merged(w, a, b, order), survivors + {w.d[b]})
  {
    hide Merged, Later;
    MergedIs(w, a, b, order);
    MergedIsUnregistered(w, a, b, order);
    var u := Merged(w, a, b, order);
    forall o | o in u.data && o != w.d[b] ensures AllRegistered(u, o) <==> AllRegistered(w, o) {
      assert u.data[o] == w.data[o];
    }
  }

  lemma {:induction false} DeadRun<H, D>(w: World<H, D>, merges: seq<Merge<H>>)
    requires !Live(w) && OwnParents(w) && AllowedRun(w, merges)
    ensures !Live(Run(w, merges))
    decreases |merges|
  {
    hide Merged;
    if merges != [] {
      StaysDead(w, merges[0].a, merges[0].b, merges[0].order);
      DeadRun(Merged(w, merges[0].a, merges[0].b, merges[0].order), merges[1..]);
    }
  }

  /**
    A run of merges as written leaves every handle with a live object exactly if no merge absorbs an
    object that has absorbed another one before.
   */
  lemma {:induction false} RunStaysLiveExactly<H, D>(w: World<H, D>, merges: seq<Merge<H>>, survivors: set<D>)
    requires Live(w) && OwnParents(w) && MissHandles(w, survivors) && AllowedRun(w, merges)
    ensures Live(Run(w, merges)) <==> !AbsorbsSurvivor(w, merges, survivors)
    decreases |merges|
  {
    hide Merged, Mergeable, MissHandles, OwnParents, AllRegistered;
    if merges != [] {
      var a, b, order := merges[0].a, merges[0].b, merges[0].order;
      var u := Merged(w, a, b, order);
      if Mergeable(w, a, b) {
        StaysLiveExactly(w, a, b, order);
        MergedIsUnregistered(w, a, b, order);
        RegisteredUnless(w, survivors, w.d[a]);
        if w.d[a] in survivors {
          DeadRun(u, merges[1..]);
        } else {
          MissHandlesStep(w, a, b, order, survivors);
          RunStaysLiveExactly(u, merges[1..], survivors + {w.d[b]});
        }
      } else {
        RefusedIs(w, a, b, order);
        RunStaysLiveExactly(u, merges[1..], survivors);
      }
    }
  }

  lemma RegisteredUnless<H, D>(w: World<H, D>, survivors: set<D>, o: D)
    requires MissHandles(w, survivors) && o in w.data
    ensures o in survivors <==> !AllRegistered(w, o)
  {
  }

  const NUMBER: Data<nat> := Data({}, "sip:a@example", [], false, false, false, None)

  function ThreeNumbers(): World<nat, nat> {
    World(map[0 := 0, 1 := 1, 2 := 2],
          map[0 := NUMBER.(parents := {0}), 1 := NUMBER.(parents := {1}), 2 := NUMBER.(parents := {2})])
  }

  /** Three fresh duplicates are enough. */
  lemma TwoMergesDangle()
    ensures
      var w := ThreeNumbers();
      && Live(w) && Mergeable(w, 0, 1) && Mergeable(Merged(w, 0, 1, [0]), 1, 2)
      && !Live(Merged(Merged(w, 0, 1, [0]), 1, 2, [1]))
  {
    var w := ThreeNumbers();
    MergedIs(w, 0, 1, [0]);
    var u := Merged(w, 0, 1, [0]);
    assert Elements([0]) == {0} && Elements([1]) == {1};
    assert u.data[1].parents == {1};
    MergedIs(u, 1, 2, [1]);
    assert 0 in Merged(u, 1, 2, [1]).d && Merged(u, 1, 2, [1]).d[0] == 1;
  }
}
