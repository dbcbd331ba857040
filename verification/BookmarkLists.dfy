/**
  The bookmark tree against two plain lists: the bookmarked contacts in the order in which they came, and
  the keys of the categories. Every run of the tree shows exactly what the lists say.
 */
module BookmarkLists {
  import opened Lists
  import opened Bookmarks
  import opened BookmarkProofs
  import opened BookmarkRuns

  /** Everybody but the contacts that share an identity. */
  function Others(contacts: seq<Contact>, d: nat): seq<Contact> {
    if contacts == [] then []
    else (if contacts[0].d == d then [] else [contacts[0]]) + Others(contacts[1..], d)
  }

  predicate Has(contacts: seq<Contact>, d: nat) {
    exists i :: 0 <= i < |contacts| && contacts[i].d == d
  }

  datatype Shown = Shown(contacts: seq<Contact>, keys: seq<string>)

  /** A contact is appended, unless it is the user or shares its identity with one that is there. */
  function ListAdd(l: Shown, contact: Contact): Shown {
    if Has(l.contacts, contact.d) || contact.isSelf then l
    else Shown(l.contacts + [contact],
               if contact.initial in l.keys then l.keys else l.keys + [contact.initial])
  }

  /** The initials that nobody has any more. */
  function Deserted(keys: seq<string>, contacts: seq<Contact>): set<string> {
    set k | k in keys && k != POPULAR_KEY && WithInitial(contacts, k) == []
  }

  function ListRemove(l: Shown, d: nat): Shown {
    var rest := Others(l.contacts, d);
    Shown(rest, Without(l.keys, Deserted(l.keys, rest)))
  }

  function ListAll(l: Shown, contacts: seq<Contact>): Shown
    decreases |contacts|
  {
    if contacts == [] then l else ListAll(ListAdd(l, contacts[0]), contacts[1..])
  }

  function ListReload(popular: bool, contacts: seq<Contact>): Shown {
    ListAll(Shown([], if popular then [POPULAR_KEY] else []), contacts)
  }

  function ListStep<N>(l: Shown, e: Event<N>): Shown {
    match e
    case Added(_, _, contact) => ListAdd(l, contact)
    case Removed(d) => ListRemove(l, d)
    case Reloaded(popular, _, contacts, _) => ListReload(popular, contacts)
  }

  function ListRun<N>(l: Shown, events: seq<Event<N>>): Shown
    decreases |events|
  {
    if events == [] then l else ListRun(ListStep(l, events[0]), events[1..])
  }

  /** Each category lists the contacts with its initial, and the tree knows exactly these identities. */
  ghost predicate Agrees<N>(t: Tree<N>, l: Shown) {
    && (forall key :: Under(t, key) == WithInitial(l.contacts, key))
    && Keys(t) == l.keys
    && (forall d :: d in t.tracked <==> Has(l.contacts, d))
  }

  // ----- Lists -----

  lemma {:induction false} WithInitialAppend(contacts: seq<Contact>, contact: Contact, key: string)
    ensures WithInitial(contacts + [contact], key)
         == WithInitial(contacts, key) + (if contact.initial == key then [contact] else [])
  {
    if contacts == [] {
      assert contacts + [contact] == [contact];
    } else {
      assert (contacts + [contact])[1..] == contacts[1..] + [contact];
      WithInitialAppend(contacts[1..], contact, key);
    }
  }

  lemma {:induction false} OthersWithInitial(contacts: seq<Contact>, d: nat, key: string)
    ensures WithInitial(Others(contacts, d), key) == Others(WithInitial(contacts, key), d)
  {
    if contacts != [] {
      var first, rest := contacts[0], contacts[1..];
      OthersWithInitial(rest, d, key);
      assert ([first] + Others(rest, d))[1..] == Others(rest, d);
      assert ([first] + WithInitial(rest, key))[1..] == WithInitial(rest, key);
      assert [] + Others(rest, d) == Others(rest, d) && [] + WithInitial(rest, key) == WithInitial(rest, key);
    }
  }

  lemma {:induction false} OthersAre(contacts: seq<Contact>, d: nat)
    ensures forall e: nat :: Has(Others(contacts, d), e) <==> Has(contacts, e) && e != d
  {
    if contacts != [] {
      var rest := contacts[1..];
      OthersAre(rest, d);
      HasSplit(contacts);
      if contacts[0].d != d {
        assert Others(contacts, d)[1..] == Others(rest, d);
        HasSplit(Others(contacts, d));
      } else {
        assert Others(contacts, d) == Others(rest, d);
      }
    }
  }

  lemma HasSplit(contacts: seq<Contact>)
    requires contacts != []
    ensures forall e: nat :: Has(contacts, e) <==> contacts[0].d == e || Has(contacts[1..], e)
  {
    forall e: nat | Has(contacts, e) ensures contacts[0].d == e || Has(contacts[1..], e) {
      var i :| 0 <= i < |contacts| && contacts[i].d == e;
      if i > 0 {
        assert contacts[1..][i - 1] == contacts[i];
      }
    }
    forall e: nat | Has(contacts[1..], e) ensures Has(contacts, e) {
      var i :| 0 <= i < |contacts[1..]| && contacts[1..][i].d == e;
      assert contacts[i + 1].d == e;
    }
  }

  lemma {:induction false} OthersAppend(a: seq<Contact>, b: seq<Contact>, d: nat)
    ensures Others(a + b, d) == Others(a, d) + Others(b, d)
  {
    if a == [] {
      assert a + b == b;
    } else {
      assert (a + b)[1..] == a[1..] + b;
      OthersAppend(a[1..], b, d);
    }
  }

  lemma {:induction false} OthersNone(contacts: seq<Contact>, d: nat)
    requires forall i :: 0 <= i < |contacts| ==> contacts[i].d != d
    ensures Others(contacts, d) == contacts
  {
    if contacts != [] {
      OthersNone(contacts[1..], d);
    }
  }

  /** Dropping an identity that occurs once is dropping its position. */
  lemma OthersAt(contacts: seq<Contact>, i: nat, d: nat)
    requires i < |contacts| && contacts[i].d == d
    requires forall j :: 0 <= j < |contacts| && j != i ==> contacts[j].d != d
    ensures Others(contacts, d) == contacts[..i] + contacts[i + 1..]
  {
    var front, back := contacts[..i], contacts[i + 1..];
    assert contacts == front + [contacts[i]] + back;
    OthersAppend(front + [contacts[i]], back, d);
    OthersAppend(front, [contacts[i]], d);
    OthersNone(front, d);
    OthersNone(back, d);
  }

  // ----- Removing one bookmark -----

  /** What a category lists, and that only one row has the identity of a bookmark. */
  lemma UnderRows<N>(t: Tree<N>, n: N, key: string)
    requires Inv(t) && n in t.number && key in t.byName && t.byName[key] in t.kids
    ensures
      var home, under := t.byName[key], Under(t, key);
      && |under| == |t.kids[home]|
      && forall j :: 0 <= j < |under| ==>
           && t.kids[home][j] in t.number && under[j] == t.number[t.kids[home][j]]
           && t.kids[home][j] in t.par && t.par[t.kids[home][j]] == home
           && (t.kids[home][j] != n ==> under[j].d != t.number[n].d)
  {
    hide CategoriesOk, NonEmpty, NamesOk, InitialsOk;
    var home := t.byName[key];
    assert forall j :: 0 <= j < |t.kids[home]| ==> Knows(t, t.kids[home][j], home, j);
  }

  lemma LeafUnder<N>(t: Tree<N>, n: N, key: string)
    requires Inv(t) && n in t.number && n in t.par
    ensures Under(RemoveLeaf(t, n, t.par[n]), key) == Others(Under(t, key), t.number[n].d)
  {
    hide CategoriesOk, NonEmpty, NamesOk, InitialsOk, TrackedOk, RemoveLeaf;
    RemoveLeafGone(t, n);
    hide LeavesOk, Knows;
    var c, d, i := t.par[n], t.number[n].d, t.idx[n];
    var u := RemoveLeaf(t, n, c);
    if key in t.byName && t.byName[key] in t.kids {
      var home, under := t.byName[key], Under(t, key);
      UnderRows(t, n, key);
      if home == c {
        HomeRows(t, n, key, u);
      } else {
        assert forall j :: 0 <= j < |under| ==> t.kids[home][j] != n;
        OthersNone(under, d);
      }
    } else {
      assert Under(t, key) == [] && Under(u, key) == [];
    }
  }

  lemma HomeRows<N>(t: Tree<N>, n: N, key: string, u: Tree<N>)
    requires Inv(t) && n in t.number && n in t.par && key in t.byName && t.byName[key] == t.par[n]
    requires LeafGone(t, n, t.par[n], u)
    ensures Under(u, key) == Others(Under(t, key), t.number[n].d)
  {
    HomeBefore(t, n, key);
    hide Inv, TakenOut, Others;
    UnderIs(u, key);
    hide Under;
    HomeTaken(t, n, u);
    var i, before, after := t.idx[n], Under(t, key), Under(u, key);
    var rows, rest := t.kids[t.par[n]], u.kids[t.par[n]];
    forall j | 0 <= j < |after| ensures after[j] == before[if j < i then j else j + 1] {
      assert after[j] == ContactOf(u, rest[j]) && rest[j] != n && rest[j] in u.number;
    }
    hide LeafGone, ContactOf;
    OneLess(before, i, t.number[n].d, after);
  }

  lemma HomeBefore<N>(t: Tree<N>, n: N, key: string)
    requires Inv(t) && n in t.number && n in t.par && key in t.byName && t.byName[key] == t.par[n]
    ensures n in t.idx && t.par[n] in t.kids && 0 <= t.idx[n] < |t.kids[t.par[n]]|
    ensures
      var rows, under, i := t.kids[t.par[n]], Under(t, key), t.idx[n];
      && |under| == |rows| && under[i].d == t.number[n].d
      && (forall j :: 0 <= j < |under| ==> rows[j] in t.number && under[j] == t.number[rows[j]])
      && (forall j :: 0 <= j < |under| && j != i ==> under[j].d != t.number[n].d)
  {
    assert Listed(t, n);
    UnderRows(t, n, key);
    hide TrackedOk, NonEmpty, NamesOk, InitialsOk, CategoriesOk, Under;
    var rows := t.kids[t.par[n]];
    forall j | 0 <= j < |rows| && j != t.idx[n] ensures rows[j] != n {
      assert Knows(t, rows[j], t.par[n], j);
    }
  }

  lemma OneLess(before: seq<Contact>, i: nat, d: nat, after: seq<Contact>)
    requires i < |before| && before[i].d == d && |after| == |before| - 1
    requires forall j :: 0 <= j < |before| && j != i ==> before[j].d != d
    requires forall j :: 0 <= j < |after| ==> after[j] == before[if j < i then j else j + 1]
    ensures after == Others(before, d)
  {
    OthersAt(before, i, d);
    assert after == before[..i] + before[i + 1..];
  }

  lemma UnderIs<N>(u: Tree<N>, key: string)
    requires key in u.byName && u.byName[key] in u.kids
    ensures
      var rows := u.kids[u.byName[key]];
      && |Under(u, key)| == |rows|
      && forall j :: 0 <= j < |rows| ==> Under(u, key)[j] == ContactOf(u, rows[j])
  {
  }

  lemma HomeTaken<N>(t: Tree<N>, n: N, u: Tree<N>)
    requires n in t.par && LeafGone(t, n, t.par[n], u)
    ensures
      var before, after, i := t.kids[t.par[n]], u.kids[t.par[n]], t.idx[n];
      && 0 <= i < |before| && before[i] == n && |after| == |before| - 1
      && (forall j :: 0 <= j < |after| ==> after[j] == before[if j < i then j else j + 1] && after[j] != n)
      && (forall j :: 0 <= j < |before| && j != i ==> before[j] != n)
  {
    var before, after, i := t.kids[t.par[n]], u.kids[t.par[n]], t.idx[n];
    forall j | 0 <= j < |before| && j != i ensures before[j] != n {
      assert after[if j < i then j else j - 1] == before[j];
    }
  }

  lemma CategoryUnder<N>(u: Tree<N>, c: N, v: Tree<N>, key: string)
    requires NamesOk(u) && CategoryGone(u, c, v) && Kids(u, c) == [] && !u.category[c].popular
    ensures Under(v, key) == Under(u, key)
  {
    hide TakenOut;
  }

  /** Names lead to the categories in the list, and only "most popular" has nobody in it. */
  lemma KeysKnown<N>(t: Tree<N>)
    requires Inv(t)
    ensures forall k :: k in t.byName <==> k in Keys(t)
    ensures NoDup(Keys(t))
    ensures forall k :: k in Keys(t) && k != POPULAR_KEY ==> Under(t, k) != []
  {
    hide LeavesOk, TrackedOk, InitialsOk;
    assert forall i :: 0 <= i < |t.cats| ==>
             t.cats[i] in t.category && Keys(t)[i] == KeyOf(t.category[t.cats[i]]) && t.byName[Keys(t)[i]] == t.cats[i];
    forall k | k in t.byName ensures k in Keys(t) {
      var c := t.byName[k];
      var i :| 0 <= i < |t.cats| && t.cats[i] == c;
      assert Keys(t)[i] == k;
    }
    forall k | k in Keys(t) && k != POPULAR_KEY ensures Under(t, k) != [] {
      var i :| 0 <= i < |Keys(t)| && Keys(t)[i] == k;
      assert t.byName[k] == t.cats[i] && Kids(t, t.cats[i]) != [];
    }
  }

  // ----- One step -----

  lemma HasAppend(contacts: seq<Contact>, contact: Contact)
    ensures forall d: nat :: Has(contacts + [contact], d) <==> Has(contacts, d) || d == contact.d
  {
    var all := contacts + [contact];
    forall d: nat | Has(contacts, d) || d == contact.d ensures Has(all, d) {
      if d == contact.d {
        assert all[|contacts|].d == d;
      } else {
        var i :| 0 <= i < |contacts| && contacts[i].d == d;
        assert all[i].d == d;
      }
    }
  }

  lemma AddAgrees<N>(t: Tree<N>, n: N, c: N, contact: Contact, l: Shown)
    requires Inv(t) && Fresh(t, n, c) && contact.initial != POPULAR_KEY && Agrees(t, l)
    ensures Agrees(AddItem(t, n, c, contact), ListAdd(l, contact))
  {
    hide Inv, AddItem, Under, Keys, Has, WithInitial;
    if Skipped(t, contact) {
      SkippedAdds(t, n, c, contact);
    } else {
      HasAppend(l.contacts, contact);
      KeysKnown(t);
      AddItemCategories(t, n, c, contact);
      forall key ensures Under(AddItem(t, n, c, contact), key) == WithInitial(l.contacts + [contact], key) {
        AddItemUnder(t, n, c, contact, key);
        WithInitialAppend(l.contacts, contact, key);
      }
      assert Keys(t) + [] == Keys(t);
    }
  }

  lemma WithoutAt<T>(s: seq<T>, i: nat, out: set<T>)
    requires i < |s| && s[i] in out && forall j :: 0 <= j < |s| && j != i ==> s[j] !in out
    ensures Without(s, out) == s[..i] + s[i + 1..]
  {
    var front, back := s[..i], s[i + 1..];
    assert s == front + [s[i]] + back;
    WithoutAppend(front + [s[i]], back, out);
    WithoutAppend(front, [s[i]], out);
    WithoutNone(front, out);
    WithoutNone(back, out);
  }

  /** What removing a bookmark shows: its identity is gone everywhere, and with it a category it leaves empty. */
  lemma RemoveShows<N>(t: Tree<N>, d: nat)
    requires Inv(t) && d in t.tracked
    ensures
      var r := RemoveItem(t, d);
      && (forall key :: Under(r, key) == Others(Under(t, key), d))
      && (Keys(r) == Keys(t) ||
          exists i :: 0 <= i < |Keys(t)| && Keys(r) == Keys(t)[..i] + Keys(t)[i + 1..] && Keys(t)[i] != POPULAR_KEY
                      && Under(r, Keys(t)[i]) == [])
  {
    hide CategoriesOk, NonEmpty, NamesOk, LeavesOk, InitialsOk;
    hide RemoveLeaf, RemoveCategory, LeafGone, CategoryGone, Under;
    var n := t.tracked[d];
    assert n in t.number && t.number[n].d == d;
    hide TrackedOk;
    RemoveLeafKeeps(t, n);
    var c := t.par[n];
    var u, r := RemoveLeaf(t, n, c), RemoveItem(t, d);
    SameLists(t, n, u);
    if Kids(u, c) == [] {
      var v := RemoveCategory(u, c);
      RemoveCategoryKeeps(u, c);
      CategoryKeys(u, c, v);
      forall key ensures Under(r, key) == Others(Under(t, key), d) {
        LeafUnder(t, n, key);
        CategoryUnder(u, c, v, key);
        UnderOf(v, r, key);
      }
      UnderGone(v, r, u.category[c].name);
    } else {
      forall key ensures Under(r, key) == Others(Under(t, key), d) {
        LeafUnder(t, n, key);
        UnderOf(u, r, key);
      }
    }
  }

  lemma SameLists<N>(t: Tree<N>, n: N, u: Tree<N>)
    requires n in t.par && LeafGone(t, n, t.par[n], u)
    ensures u.category == t.category && u.cats == t.cats && Keys(u) == Keys(t)
  {
    hide TakenOut;
  }

  lemma UnderOf<N>(v: Tree<N>, r: Tree<N>, key: string)
    requires r.byName == v.byName && r.kids == v.kids && r.number == v.number
    ensures Under(r, key) == Under(v, key)
  {
  }

  lemma UnderGone<N>(v: Tree<N>, r: Tree<N>, name: string)
    requires name !in v.byName && r.byName == v.byName
    ensures Under(r, name) == []
  {
  }

  lemma CategoryKeys<N>(u: Tree<N>, c: N, v: Tree<N>)
    requires CategoriesOk(u) && NamesOk(u) && CategoryGone(u, c, v) && !u.category[c].popular
    ensures u.category[c].name !in v.byName
    ensures
      var i := u.idx[c];
      && 0 <= i < |Keys(u)| && Keys(u)[i] == u.category[c].name && Keys(u)[i] != POPULAR_KEY
      && Keys(v) == Keys(u)[..i] + Keys(u)[i + 1..]
  {
    var i := u.idx[c];
    assert forall j :: 0 <= j < |v.cats| ==> v.cats[j] != c && v.cats[j] in u.category;
  }

  lemma RemoveAgrees<N>(t: Tree<N>, d: nat, l: Shown)
    requires Inv(t) && Agrees(t, l)
    ensures Agrees(RemoveItem(t, d), ListRemove(l, d))
  {
    hide Inv, Under, Keys, Has, WithInitial, Others, RemoveItem;
    var r, rest := RemoveItem(t, d), Others(l.contacts, d);
    OthersAre(l.contacts, d);
    TrackedAfter(t, d);
    RemoveItemKeeps(t, d);
    KeysKnown(r);
    KeysKnown(t);
    if d in t.tracked {
      RemoveShows(t, d);
    } else {
      NobodyHas(l.contacts, d);
    }
    forall key ensures Under(r, key) == WithInitial(rest, key) {
      OthersWithInitial(l.contacts, d, key);
    }
    KeysLeft(Keys(t), Keys(r), rest);
  }

  /** The one key that is gone is the one that nobody has any more. */
  lemma KeysLeft(before: seq<string>, after: seq<string>, rest: seq<Contact>)
    requires
      after == before ||
      exists i :: 0 <= i < |before| && after == before[..i] + before[i + 1..] && before[i] != POPULAR_KEY
                  && WithInitial(rest, before[i]) == []
    requires forall k :: k in after && k != POPULAR_KEY ==> WithInitial(rest, k) != []
    ensures Without(before, Deserted(before, rest)) == after
  {
    hide WithInitial;
    var out := Deserted(before, rest);
    if after == before {
      WithoutNone(before, out);
    } else {
      var i :| 0 <= i < |before| && after == before[..i] + before[i + 1..] && before[i] != POPULAR_KEY
               && WithInitial(rest, before[i]) == [];
      forall j | 0 <= j < |before| && j != i ensures before[j] !in out {
        assert after[if j < i then j else j - 1] == before[j] && before[j] in after;
      }
      WithoutAt(before, i, out);
    }
  }

  lemma NobodyHas(contacts: seq<Contact>, d: nat)
    requires !Has(contacts, d)
    ensures Others(contacts, d) == contacts
  {
    OthersNone(contacts, d);
  }

  lemma TrackedAfter<N>(t: Tree<N>, d: nat)
    ensures d !in t.tracked ==> RemoveItem(t, d) == t
    ensures forall e :: e in RemoveItem(t, d).tracked <==> e in t.tracked && e != d
  {
  }

  // ----- Runs -----

  lemma {:induction false} AddAllAgrees<N>(t: Tree<N>, contacts: seq<Contact>, nodes: seq<(N, N)>, l: Shown)
    requires Inv(t) && |nodes| == |contacts| && Supply(t, nodes) && Initials(contacts) && Agrees(t, l)
    ensures Agrees(AddAll(t, contacts, nodes), ListAll(l, contacts))
    decreases |contacts|
  {
    hide Inv, Supply, AddItem, Fresh, Agrees, ListAdd;
    if contacts != [] {
      SupplyFirst(t, nodes);
      AddAgrees(t, nodes[0].0, nodes[0].1, contacts[0], l);
      AddItemKeeps(t, nodes[0].0, nodes[0].1, contacts[0]);
      SupplyRest(t, contacts[0], nodes);
      AddAllAgrees(AddItem(t, nodes[0].0, nodes[0].1, contacts[0]), contacts[1..], nodes[1..], ListAdd(l, contacts[0]));
    }
  }

  lemma StepAgrees<N>(t: Tree<N>, e: Event<N>, l: Shown)
    requires Inv(t) && Allowed(t, e) && Agrees(t, l)
    ensures Agrees(Step(t, e), ListStep(l, e))
  {
    hide Inv, Agrees, AddItem, RemoveItem, AddAll, ListAdd, ListRemove, ListAll, Cleared, Supply;
    match e
    case Added(n, c, contact) => AddAgrees(t, n, c, contact, l);
    case Removed(d) => RemoveAgrees(t, d, l);
    case Reloaded(popular, mp, contacts, nodes) =>
      ClearedAgrees(popular, mp);
      AddAllAgrees(Cleared(popular, mp), contacts, nodes, Shown([], if popular then [POPULAR_KEY] else []));
  }

  lemma ClearedAgrees<N>(popular: bool, mp: N)
    ensures Inv(Cleared(popular, mp))
    ensures Agrees(Cleared(popular, mp), Shown([], if popular then [POPULAR_KEY] else []))
  {
    ClearedIs(popular, mp);
  }

  lemma {:induction false} RunAgrees<N>(t: Tree<N>, events: seq<Event<N>>, l: Shown)
    requires Inv(t) && AllowedRun(t, events) && Agrees(t, l)
    ensures Agrees(Run(t, events), ListRun(l, events))
    decreases |events|
  {
    hide Inv, Agrees, Step, Supply, Fresh, Initials, ListStep;
    if events != [] {
      StepKeeps(t, events[0]);
      StepAgrees(t, events[0], l);
      RunAgrees(Step(t, events[0]), events[1..], ListStep(l, events[0]));
    }
  }

  /** Whatever is added, removed and reloaded, the tree shows the two lists. */
  lemma EveryRunShowsLists<N>(events: seq<Event<N>>)
    requires AllowedRun(Empty<N>(), events)
    ensures Agrees(Run(Empty<N>(), events), ListRun(Shown([], []), events))
  {
    EmptyIs<N>();
    RunAgrees(Empty<N>(), events, Shown([], []));
  }
}
