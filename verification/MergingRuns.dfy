/** Runs of merges that enter every redirected handle with the surviving object, as documented. */
module MergingRuns {
  import opened Merging

  /** Every handle leads to a live object, and the objects know exactly their own handles. */
  ghost predicate Exact<H, D>(w: World<H, D>) {
    Live(w) && OwnParents(w) && forall h :: h in w.d && w.d[h] in w.data ==> h in w.data[w.d[h]].parents
  }

  lemma MergedAsIntendedIs<H, D>(w: World<H, D>, a: H, b: H, order: seq<H>)
    requires Known(w, a) && Known(w, b) && Mergeable(w, a, b) && Order(DataOf(w, a).parents, order)
    ensures
      var u := MergedAsIntended(w, a, b, order);
      var x, y := DataOf(w, a), DataOf(w, b);
      && u.d == Rebound(w.d, x.parents, w.d[b])
      && u.data == w.data[w.d[b] := Absorb(x, y).(parents := y.parents + x.parents)] - {w.d[a]}
  {
    hide Rebound;
    RedirectedAllIs(WithAbsorbed(w, a, b), order, w.d[b]);
  }

  lemma MergedAsIntendedInSteps<H, D>(w: World<H, D>, a: H, b: H, order: seq<H>)
    requires Known(w, a) && Known(w, b) && Mergeable(w, a, b)
    ensures
      var x, y := w.d[a], w.d[b];
      var u := RedirectedAll(WithFlags(w, y, x), order, y);
      && x in u.data && y in u.data
      && WithUri(u, y, x).(data := WithUri(u, y, x).data - {x}) == MergedAsIntended(w, a, b, order)
  {
    hide Rebound, RedirectedAll;
    var x, y := w.d[a], w.d[b];
    var v := WithFlags(w, y, x);
    RedirectedAllIs(v, order, y);
    RedirectedAllIs(WithAbsorbed(w, a, b), order, y);
    var u := RedirectedAll(v, order, y);
    assert WithUri(u, y, x).data - {x} == (u.data - {x})[y := WithUri(u, y, x).data[y]];
  }

  lemma IntendedKeeps<H, D>(w: World<H, D>, a: H, b: H, order: seq<H>)
    requires Exact(w) && a in w.d && b in w.d && Mergeable(w, a, b) && Order(DataOf(w, a).parents, order)
    ensures
      var u := MergedAsIntended(w, a, b, order);
      && Exact(u) && u.d.Keys == w.d.Keys && u.data.Keys == w.data.Keys - {w.d[a]}
      && u.data[w.d[b]] == Absorb(DataOf(w, a), DataOf(w, b)).(parents := DataOf(w, b).parents + DataOf(w, a).parents)
      && (forall o :: o in u.data && o != w.d[b] ==> u.data[o] == w.data[o])
      && (forall h :: h in w.d ==> u.d[h] == if w.d[h] == w.d[a] then w.d[b] else w.d[h])
  {
    hide MergedAsIntended;
    MergedAsIntendedIs(w, a, b, order);
  }

  ghost predicate Allowed<H, D>(w: World<H, D>, m: Merge<H>) {
    m.a in w.d && m.b in w.d && Known(w, m.a) && Known(w, m.b)
    && (Mergeable(w, m.a, m.b) ==> Order(DataOf(w, m.a).parents, m.order))
  }

  ghost predicate AllowedRun<H, D>(w: World<H, D>, merges: seq<Merge<H>>)
    decreases |merges|
  {
    merges != [] ==>
      Allowed(w, merges[0]) && AllowedRun(MergedAsIntended(w, merges[0].a, merges[0].b, merges[0].order), merges[1..])
  }

  ghost function Run<H, D>(w: World<H, D>, merges: seq<Merge<H>>): World<H, D>
    requires AllowedRun(w, merges)
    decreases |merges|
  {
    if merges == [] then w else Run(MergedAsIntended(w, merges[0].a, merges[0].b, merges[0].order), merges[1..])
  }

  /** The merges of a run that are not refused, after those that came before. */
  ghost function Links<H, D>(w: World<H, D>, merges: seq<Merge<H>>, links: seq<(H, H)>): seq<(H, H)>
    requires AllowedRun(w, merges)
    decreases |merges|
  {
    if merges == [] then links
    else
      var m := merges[0];
      Links(MergedAsIntended(w, m.a, m.b, m.order), merges[1..],
            if Mergeable(w, m.a, m.b) then links + [(m.a, m.b)] else links)
  }

  // ----- Handles connected by merges -----

  /** A path of n merges, followed in either direction, leads from x to y. */
  ghost predicate Path<H>(links: seq<(H, H)>, x: H, y: H, n: nat)
    decreases n, 1
  {
    if n == 0 then x == y
    else exists i :: 0 <= i < |links| && Via(links, links[i], x, y, n)
  }

  ghost predicate Via<H>(links: seq<(H, H)>, link: (H, H), x: H, y: H, n: nat)
    requires n > 0
    decreases n, 0
  {
    (link.1 == y && Path(links, x, link.0, n - 1)) || (link.0 == y && Path(links, x, link.1, n - 1))
  }

  ghost predicate Connected<H>(links: seq<(H, H)>, x: H, y: H) {
    exists n: nat :: Path(links, x, y, n)
  }

  lemma {:induction false} PathAppend<H>(links: seq<(H, H)>, x: H, y: H, z: H, m: nat, n: nat)
    requires Path(links, x, y, m) && Path(links, y, z, n)
    ensures Path(links, x, z, m + n)
    decreases n
  {
    if n > 0 {
      var i :| 0 <= i < |links| && Via(links, links[i], y, z, n);
      if links[i].1 == z && Path(links, y, links[i].0, n - 1) {
        PathAppend(links, x, y, links[i].0, m, n - 1);
      } else {
        PathAppend(links, x, y, links[i].1, m, n - 1);
      }
      assert Via(links, links[i], x, z, m + n);
    }
  }

  lemma LinkConnects<H>(links: seq<(H, H)>, i: nat)
    requires i < |links|
    ensures Path(links, links[i].0, links[i].1, 1) && Path(links, links[i].1, links[i].0, 1)
  {
    assert Path(links, links[i].0, links[i].0, 0) && Path(links, links[i].1, links[i].1, 0);
    assert Via(links, links[i], links[i].0, links[i].1, 1);
    assert Via(links, links[i], links[i].1, links[i].0, 1);
  }

  lemma {:induction false} PathBack<H>(links: seq<(H, H)>, x: H, y: H, n: nat)
    requires Path(links, x, y, n)
    ensures Path(links, y, x, n)
    decreases n
  {
    if n > 0 {
      var i :| 0 <= i < |links| && Via(links, links[i], x, y, n);
      LinkConnects(links, i);
      if links[i].1 == y && Path(links, x, links[i].0, n - 1) {
        PathBack(links, x, links[i].0, n - 1);
        PathAppend(links, y, links[i].0, x, 1, n - 1);
      } else {
        PathBack(links, x, links[i].1, n - 1);
        PathAppend(links, y, links[i].1, x, 1, n - 1);
      }
    }
  }

  lemma {:induction false} PathMore<H>(links: seq<(H, H)>, more: seq<(H, H)>, x: H, y: H, n: nat)
    requires Path(links, x, y, n)
    ensures Path(links + more, x, y, n)
    decreases n
  {
    if n > 0 {
      var i :| 0 <= i < |links| && Via(links, links[i], x, y, n);
      assert (links + more)[i] == links[i];
      if links[i].1 == y && Path(links, x, links[i].0, n - 1) {
        PathMore(links, more, x, links[i].0, n - 1);
      } else {
        PathMore(links, more, x, links[i].1, n - 1);
      }
      assert Via(links + more, (links + more)[i], x, y, n);
    }
  }

  lemma Joined<H>(links: seq<(H, H)>, link: (H, H), x: H, y: H)
    requires Connected(links, x, link.0) && Connected(links, link.1, y)
    ensures Connected(links + [link], x, y) && Connected(links + [link], y, x)
  {
    var all := links + [link];
    var m: nat :| Path(links, x, link.0, m);
    var n: nat :| Path(links, link.1, y, n);
    PathMore(links, [link], x, link.0, m);
    PathMore(links, [link], link.1, y, n);
    assert all[|links|] == link;
    LinkConnects(all, |links|);
    PathAppend(all, x, link.0, link.1, m, 1);
    PathAppend(all, x, link.1, y, m + 1, n);
    PathBack(all, x, y, m + 1 + n);
  }

  /** Handles are equal exactly if merges connect them. */
  ghost predicate EqualIfConnected<H, D>(w: World<H, D>, links: seq<(H, H)>) {
    forall x, y :: x in w.d && y in w.d ==> (w.d[x] == w.d[y] <==> Connected(links, x, y))
  }

  ghost predicate LinksKnown<H, D>(w: World<H, D>, links: seq<(H, H)>) {
    forall i :: 0 <= i < |links| ==>
      links[i].0 in w.d && links[i].1 in w.d && w.d[links[i].0] == w.d[links[i].1]
  }

  /** Links never lead from one object to another. */
  lemma {:induction false} PathStays<H, D>(w: World<H, D>, links: seq<(H, H)>, x: H, y: H, n: nat)
    requires LinksKnown(w, links) && x in w.d && Path(links, x, y, n)
    ensures y in w.d && w.d[x] == w.d[y]
    decreases n
  {
    if n > 0 {
      var i :| 0 <= i < |links| && Via(links, links[i], x, y, n);
      if links[i].1 == y && Path(links, x, links[i].0, n - 1) {
        PathStays(w, links, x, links[i].0, n - 1);
      } else {
        PathStays(w, links, x, links[i].1, n - 1);
      }
    }
  }

  lemma ConnectedMore<H>(links: seq<(H, H)>, more: seq<(H, H)>, x: H, y: H)
    requires Connected(links, x, y)
    ensures Connected(links + more, x, y)
  {
    var n: nat :| Path(links, x, y, n);
    PathMore(links, more, x, y, n);
  }

  lemma EqualIfConnectedStep<H, D>(w: World<H, D>, a: H, b: H, order: seq<H>, links: seq<(H, H)>)
    requires Exact(w) && a in w.d && b in w.d && Mergeable(w, a, b) && Order(DataOf(w, a).parents, order)
    requires EqualIfConnected(w, links) && LinksKnown(w, links)
    ensures
      var u := MergedAsIntended(w, a, b, order);
      EqualIfConnected(u, links + [(a, b)]) && LinksKnown(u, links + [(a, b)])
  {
    hide MergedAsIntended, Connected, Mergeable;
    IntendedKeeps(w, a, b, order);
    var u := MergedAsIntended(w, a, b, order);
    assert LinksKnown(u, links + [(a, b)]);
    forall x, y | x in u.d && y in u.d ensures u.d[x] == u.d[y] <==> Connected(links + [(a, b)], x, y) {
      EqualIfConnectedPair(w, u, a, b, links, x, y);
    }
  }

  lemma EqualIfConnectedPair<H, D>(w: World<H, D>, u: World<H, D>, a: H, b: H, links: seq<(H, H)>, x: H, y: H)
    requires EqualIfConnected(w, links) && LinksKnown(u, links + [(a, b)])
    requires {a, b, x, y} <= w.d.Keys && w.d.Keys == u.d.Keys
    requires forall h :: h in w.d ==> u.d[h] == if w.d[h] == w.d[a] then w.d[b] else w.d[h]
    ensures u.d[x] == u.d[y] <==> Connected(links + [(a, b)], x, y)
  {
    var more := links + [(a, b)];
    if u.d[x] == u.d[y] {
      if w.d[x] == w.d[y] {
        ConnectedMore(links, [(a, b)], x, y);
      } else if w.d[x] == w.d[a] {
        Joined(links, (a, b), x, y);
      } else {
        Joined(links, (a, b), y, x);
      }
    }
    if Connected(more, x, y) {
      var n: nat :| Path(more, x, y, n);
      PathStays(u, more, x, y, n);
    }
  }

  /** No two handles share an object yet. */
  ghost predicate Initial<H, D>(w: World<H, D>) {
    Exact(w) && forall x, y :: x in w.d && y in w.d && w.d[x] == w.d[y] ==> x == y
  }

  /** A new contact method has an object of its own. */
  lemma InitialMore<H, D>(w: World<H, D>, h: H, o: D, data: Data<H>)
    requires Initial(w) && h !in w.d && o !in w.data && data.parents == {h}
    ensures Initial(World(w.d[h := o], w.data[o := data]))
  {
  }

  lemma InitialConnected<H, D>(w: World<H, D>)
    requires Initial(w)
    ensures EqualIfConnected(w, []) && LinksKnown(w, [])
  {
    forall x, y | x in w.d && y in w.d ensures w.d[x] == w.d[y] <==> Connected([], x, y) {
      if x == y {
        assert Path([], x, y, 0);
      }
    }
  }

  // ----- What the surviving objects hold -----

  predicate IsTracked<H>(x: Data<H>) {
    x.tracked
  }

  predicate IsPresent<H>(x: Data<H>) {
    x.present
  }

  function HasUri<H>(uri: string): Data<H> -> bool {
    (x: Data<H>) => x.uri == uri
  }

  function HasLonger<H>(uri: string): Data<H> -> bool {
    (x: Data<H>) => |x.uri| > |uri|
  }

  /** The objects that the handles of o came with satisfy p at least once. */
  ghost predicate FromOwn<H, D>(origin: World<H, D>, w: World<H, D>, o: D, p: Data<H> -> bool) {
    exists h :: h in w.d && w.d[h] == o && Known(origin, h) && p(DataOf(origin, h))
  }

  /** An object has the flags of all objects its handles came with, and a longest one of their URIs. */
  ghost predicate Summary<H, D>(origin: World<H, D>, w: World<H, D>, o: D)
    requires o in w.data
  {
    var x := w.data[o];
    && (x.tracked <==> FromOwn(origin, w, o, IsTracked))
    && (x.present <==> FromOwn(origin, w, o, IsPresent))
    && FromOwn(origin, w, o, HasUri(x.uri)) && !FromOwn(origin, w, o, HasLonger(x.uri))
  }

  ghost predicate Summaries<H, D>(origin: World<H, D>, w: World<H, D>) {
    forall o :: o in w.data && o in w.d.Values ==> Summary(origin, w, o)
  }

  /** After a merge, the surviving object has the handles of both. */
  lemma FromOwnMerged<H, D>(origin: World<H, D>, w: World<H, D>, a: H, b: H, order: seq<H>, p: Data<H> -> bool)
    requires Exact(w) && a in w.d && b in w.d && Mergeable(w, a, b) && Order(DataOf(w, a).parents, order)
    ensures
      var u := MergedAsIntended(w, a, b, order);
      FromOwn(origin, u, w.d[b], p) <==> FromOwn(origin, w, w.d[a], p) || FromOwn(origin, w, w.d[b], p)
  {
    hide MergedAsIntended;
    IntendedKeeps(w, a, b, order);
    var u := MergedAsIntended(w, a, b, order);
    if FromOwn(origin, w, w.d[a], p) || FromOwn(origin, w, w.d[b], p) {
      var h :| h in w.d && (w.d[h] == w.d[a] || w.d[h] == w.d[b]) && Known(origin, h) && p(DataOf(origin, h));
      assert h in u.d && u.d[h] == w.d[b];
    }
  }

  lemma FromOwnOther<H, D>(origin: World<H, D>, w: World<H, D>, a: H, b: H, order: seq<H>, o: D, p: Data<H> -> bool)
    requires Exact(w) && a in w.d && b in w.d && Mergeable(w, a, b) && Order(DataOf(w, a).parents, order)
    requires o != w.d[a] && o != w.d[b]
    ensures FromOwn(origin, MergedAsIntended(w, a, b, order), o, p) <==> FromOwn(origin, w, o, p)
  {
    hide MergedAsIntended;
    IntendedKeeps(w, a, b, order);
    var u := MergedAsIntended(w, a, b, order);
    if FromOwn(origin, w, o, p) {
      var h :| h in w.d && w.d[h] == o && Known(origin, h) && p(DataOf(origin, h));
      assert h in u.d && u.d[h] == o;
    }
  }

  lemma LongerThanLonger<H, D>(origin: World<H, D>, w: World<H, D>, o: D, short: string, long: string)
    requires |short| <= |long| && FromOwn(origin, w, o, HasLonger(long))
    ensures FromOwn(origin, w, o, HasLonger(short))
  {
    var h :| h in w.d && w.d[h] == o && Known(origin, h) && HasLonger<H>(long)(DataOf(origin, h));
    assert HasLonger<H>(short)(DataOf(origin, h));
  }

  lemma SummaryMerged<H, D>(origin: World<H, D>, w: World<H, D>, a: H, b: H, order: seq<H>)
    requires Exact(w) && a in w.d && b in w.d && Mergeable(w, a, b) && Order(DataOf(w, a).parents, order)
    requires Summary(origin, w, w.d[a]) && Summary(origin, w, w.d[b])
    ensures
      var u := MergedAsIntended(w, a, b, order);
      w.d[b] in u.data && Summary(origin, u, w.d[b])
  {
    hide MergedAsIntended, FromOwn, HasUri, HasLonger;
    IntendedKeeps(w, a, b, order);
    var x, y := DataOf(w, a), DataOf(w, b);
    var uri := Absorb(x, y).uri;
    FromOwnMerged(origin, w, a, b, order, IsTracked);
    FromOwnMerged(origin, w, a, b, order, IsPresent);
    FromOwnMerged(origin, w, a, b, order, HasUri(uri));
    FromOwnMerged(origin, w, a, b, order, HasLonger(uri));
    if FromOwn(origin, w, w.d[a], HasLonger(uri)) {
      LongerThanLonger(origin, w, w.d[a], x.uri, uri);
    }
    if FromOwn(origin, w, w.d[b], HasLonger(uri)) {
      LongerThanLonger(origin, w, w.d[b], y.uri, uri);
    }
  }

  lemma SummaryOther<H, D>(origin: World<H, D>, w: World<H, D>, a: H, b: H, order: seq<H>, o: D)
    requires Exact(w) && a in w.d && b in w.d && Mergeable(w, a, b) && Order(DataOf(w, a).parents, order)
    requires o in w.data && o != w.d[a] && o != w.d[b] && Summary(origin, w, o)
    ensures
      var u := MergedAsIntended(w, a, b, order);
      o in u.data && Summary(origin, u, o)
  {
    hide MergedAsIntended, FromOwn, HasUri, HasLonger;
    IntendedKeeps(w, a, b, order);
    FromOwnOther(origin, w, a, b, order, o, IsTracked);
    FromOwnOther(origin, w, a, b, order, o, IsPresent);
    FromOwnOther(origin, w, a, b, order, o, HasUri(w.data[o].uri));
    FromOwnOther(origin, w, a, b, order, o, HasLonger(w.data[o].uri));
  }

  lemma SummariesStep<H, D>(origin: World<H, D>, w: World<H, D>, a: H, b: H, order: seq<H>)
    requires Exact(w) && a in w.d && b in w.d && Mergeable(w, a, b) && Order(DataOf(w, a).parents, order)
    requires Summaries(origin, w)
    ensures Summaries(origin, MergedAsIntended(w, a, b, order))
  {
    hide MergedAsIntended, Summary, Mergeable;
    IntendedKeeps(w, a, b, order);
    var u := MergedAsIntended(w, a, b, order);
    SummaryMerged(origin, w, a, b, order);
    forall o | o in u.data && o in u.d.Values && o != w.d[b] ensures Summary(origin, u, o) {
      var h :| h in u.d && u.d[h] == o;
      assert w.d[h] == o;
      SummaryOther(origin, w, a, b, order, o);
    }
  }

  lemma InitialSummaries<H, D>(w: World<H, D>)
    requires Initial(w)
    ensures Summaries(w, w)
  {
    forall o | o in w.data && o in w.d.Values ensures Summary(w, w, o) {
      var h :| h in w.d && w.d[h] == o;
      assert Known(w, h) && DataOf(w, h) == w.data[o];
      assert HasUri<H>(w.data[o].uri)(DataOf(w, h));
    }
  }

  // ----- The main result -----

  lemma {:induction false} RunKeeps<H, D>(
      origin: World<H, D>, w: World<H, D>, merges: seq<Merge<H>>, links: seq<(H, H)>)
    requires Exact(w) && AllowedRun(w, merges)
    requires EqualIfConnected(w, links) && LinksKnown(w, links) && Summaries(origin, w)
    ensures
      var u := Run(w, merges);
      Exact(u) && EqualIfConnected(u, Links(w, merges, links)) && Summaries(origin, u)
    decreases |merges|
  {
    hide MergedAsIntended, Mergeable, EqualIfConnected, LinksKnown, Summaries, Exact;
    if merges != [] {
      var a, b, order := merges[0].a, merges[0].b, merges[0].order;
      if Mergeable(w, a, b) {
        IntendedKeeps(w, a, b, order);
        EqualIfConnectedStep(w, a, b, order, links);
        SummariesStep(origin, w, a, b, order);
        RunKeeps(origin, MergedAsIntended(w, a, b, order), merges[1..], links + [(a, b)]);
      } else {
        RefusedIs(w, a, b, order);
        RunKeeps(origin, w, merges[1..], links);
      }
    }
  }

  /**
    After any sequence of merges of duplicates that started out apart: every handle leads to a live
    object, two handles are equal exactly if successful merges connect them, and every object has the
    flags and a longest URI of all the objects it has absorbed.
   */
  lemma EveryRunConverges<H, D>(w: World<H, D>, merges: seq<Merge<H>>)
    requires Initial(w) && AllowedRun(w, merges)
    ensures
      var u := Run(w, merges);
      Live(u) && EqualIfConnected(u, Links(w, merges, [])) && Summaries(w, u)
  {
    hide EqualIfConnected, Summaries;
    InitialConnected(w);
    InitialSummaries(w);
    RunKeeps(w, w, merges, []);
  }

  // ----- Two limits of merging -----

  function Uris<H>(x: Data<H>): set<string> {
    {x.uri} + set u | u in x.otherUris
  }

  /** The URIs an object has collected are not handed on when it is absorbed itself. */
  lemma UrisKeptExactly<H>(x: Data<H>, y: Data<H>)
    ensures Uris(Absorb(x, y)) == Uris(x) + Uris(y) <==> Uris(x) <= {x.uri} + Uris(y)
  {
    assert Uris(Absorb(x, y)) == {x.uri} + Uris(y) by {
      var all := Absorb(x, y).otherUris;
      assert all[|all| - 1] in all;
      assert forall u :: u in y.otherUris ==> u in all;
    }
  }

  /** Numbers of different accounts cannot be merged, but a number without account connects them. */
  lemma AccountsConnect<H, D>(w: World<H, D>, a: H, b: H, c: H, first: seq<H>, second: seq<H>)
    requires Exact(w) && {a, b, c} <= w.d.Keys && w.d[a] != w.d[b] && w.d[a] != w.d[c] && w.d[b] != w.d[c]
    requires !DataOf(w, a).temporary && !DataOf(w, b).temporary && !DataOf(w, c).temporary
    requires DataOf(w, a).account.Some? && DataOf(w, b).account.Some? && DataOf(w, c).account.None?
    requires DataOf(w, a).account != DataOf(w, b).account
    requires Order(DataOf(w, a).parents, first) && Order(DataOf(w, b).parents, second)
    ensures !Mergeable(w, a, b)
    ensures
      var u := MergedAsIntended(w, a, c, first);
      && Known(u, b) && Known(u, c)
      && var v := MergedAsIntended(u, b, c, second);
      && {a, b, c} <= v.d.Keys && v.d[a] == v.d[b]
  {
    hide MergedAsIntended;
    IntendedKeeps(w, a, c, first);
    IntendedKeeps(MergedAsIntended(w, a, c, first), b, c, second);
  }
}
