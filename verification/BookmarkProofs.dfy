/** What adding, removing and reloading bookmarks keep, and what they amount to. */
module BookmarkProofs {
  import opened Lists
  import opened Bookmarks

  // ----- Adding -----

  /** A category created on demand is empty until its first bookmark arrives. */
  lemma AddCategoryKeeps<N>(t: Tree<N>, c: N, key: string, category: Category)
    requires CategoriesOk(t) && NamesOk(t) && LeavesOk(t) && TrackedOk(t) && InitialsOk(t)
    requires c !in t.category && c !in t.number && key !in t.byName && key == KeyOf(category)
    requires !category.popular ==> category.name != POPULAR_KEY
    ensures
      var u := AddCategory(t, c, key, category);
      CategoriesOk(u) && NamesOk(u) && LeavesOk(u) && TrackedOk(u) && InitialsOk(u)
  {
    AddCategoryLists(t, c, key, category);
    AddCategoryNames(t, c, key, category);
    AddCategoryLeaves(t, c, key, category);
  }

  lemma AddCategoryLists<N>(t: Tree<N>, c: N, key: string, category: Category)
    requires CategoriesOk(t) && c !in t.category && c !in t.number
    ensures CategoriesOk(AddCategory(t, c, key, category))
  {
    var u := AddCategory(t, c, key, category);
    forall i | 0 <= i < |u.cats| ensures u.cats[i] in u.category && u.cats[i] in u.idx && u.idx[u.cats[i]] == i {
      if i < |t.cats| {
        assert u.cats[i] == t.cats[i] && t.cats[i] in t.category;
      }
    }
    assert u.cats[|t.cats|] == c;
  }

  lemma AddCategoryNames<N>(t: Tree<N>, c: N, key: string, category: Category)
    requires NamesOk(t) && c !in t.category && key !in t.byName && key == KeyOf(category)
    requires !category.popular ==> category.name != POPULAR_KEY
    ensures NamesOk(AddCategory(t, c, key, category))
  {
  }

  lemma AddCategoryLeaves<N>(t: Tree<N>, c: N, key: string, category: Category)
    requires CategoriesOk(t) && LeavesOk(t) && TrackedOk(t) && InitialsOk(t)
    requires c !in t.category && c !in t.number
    ensures
      var u := AddCategory(t, c, key, category);
      LeavesOk(u) && TrackedOk(u) && InitialsOk(u)
  {
    var u := AddCategory(t, c, key, category);
    AddCategoryChildren(t, c, key, category);
    assert TrackedOk(u) && InitialsOk(u);
  }

  lemma AddCategoryChildren<N>(t: Tree<N>, c: N, key: string, category: Category)
    requires LeavesOk(t) && c !in t.kids && c !in t.number
    ensures LeavesOk(AddCategory(t, c, key, category))
  {
    var u := AddCategory(t, c, key, category);
    assert ChildrenOk(u) by {
      forall d, i | d in u.kids && 0 <= i < |u.kids[d]| ensures Knows(u, u.kids[d][i], d, i) {
        assert Knows(t, t.kids[d][i], d, i);
      }
    }
    assert forall n :: n in u.number ==> Listed(t, n) && Listed(u, n);
  }

  lemma AddLeafKeeps<N>(t: Tree<N>, n: N, c: N, contact: Contact)
    requires CategoriesOk(t) && NamesOk(t) && LeavesOk(t) && TrackedOk(t) && InitialsOk(t)
    requires n !in t.number && n !in t.category && !Skipped(t, contact)
    requires c in t.category && t.category[c].name == contact.initial
    ensures
      var u := AddLeaf(t, n, c, contact);
      CategoriesOk(u) && NamesOk(u) && LeavesOk(u) && TrackedOk(u) && InitialsOk(u)
  {
    AddLeafLists(t, n, c, contact);
    AddLeafLeaves(t, n, c, contact);
    AddLeafTracked(t, n, c, contact);
  }

  lemma AddLeafLists<N>(t: Tree<N>, n: N, c: N, contact: Contact)
    requires CategoriesOk(t) && NamesOk(t) && n !in t.number && n !in t.category && c in t.category
    ensures CategoriesOk(AddLeaf(t, n, c, contact)) && NamesOk(AddLeaf(t, n, c, contact))
  {
  }

  lemma AddLeafLeaves<N>(t: Tree<N>, n: N, c: N, contact: Contact)
    requires LeavesOk(t) && n !in t.number && n !in t.category && c in t.kids
    ensures LeavesOk(AddLeaf(t, n, c, contact))
  {
    var u := AddLeaf(t, n, c, contact);
    assert ChildrenOk(u) by {
      forall d, i | d in u.kids && 0 <= i < |u.kids[d]| ensures Knows(u, u.kids[d][i], d, i) {
        if d != c || i < |t.kids[c]| {
          assert Knows(t, t.kids[d][i], d, i);
        }
      }
    }
    forall m | m in u.number ensures Listed(u, m) {
      if m != n {
        assert Listed(t, m);
      }
    }
  }

  lemma AddLeafTracked<N>(t: Tree<N>, n: N, c: N, contact: Contact)
    requires TrackedOk(t) && InitialsOk(t) && n !in t.number && !Skipped(t, contact)
    requires c in t.category && t.category[c].name == contact.initial
    ensures TrackedOk(AddLeaf(t, n, c, contact)) && InitialsOk(AddLeaf(t, n, c, contact))
  {
  }

  /** The second node is only used for a category that does not exist yet. */
  lemma AddItemKeeps<N>(t: Tree<N>, n: N, c: N, contact: Contact)
    requires Inv(t) && n !in t.number && n !in t.category && contact.initial != POPULAR_KEY
    requires contact.initial !in t.byName ==> Fresh(t, n, c)
    ensures Inv(AddItem(t, n, c, contact))
  {
    if !Skipped(t, contact) {
      var u := WithCategory(t, c, contact.initial);
      if contact.initial !in t.byName {
        AddCategoryKeeps(t, c, contact.initial, Category(contact.initial, false));
      }
      AddLeafKeeps(u, n, u.byName[contact.initial], contact);
      AddItemNonEmpty(t, n, c, contact);
    }
  }

  lemma CategoryReady<N>(t: Tree<N>, c: N, initial: string)
    requires Inv(t)
    ensures
      var u := WithCategory(t, c, initial);
      initial in u.byName && u.byName[initial] in u.category
      && (initial in t.byName ==> u == t) && (initial !in t.byName ==> u.byName[initial] == c)
  {
  }

  lemma AddItemNonEmpty<N>(t: Tree<N>, n: N, c: N, contact: Contact)
    requires CategoriesOk(t) && NamesOk(t) && NonEmpty(t) && !Skipped(t, contact)
    requires contact.initial !in t.byName ==> Fresh(t, n, c)
    requires contact.initial != POPULAR_KEY
    ensures NonEmpty(AddItem(t, n, c, contact))
  {
  }

  // ----- Renumbering -----

  lemma {:induction false} RenumberFacts<N>(idx: map<N, int>, nodes: seq<N>)
    requires NoDup(nodes)
    ensures
      var r := Renumber(idx, nodes);
      && r.Keys == idx.Keys
      && (forall n :: n in idx && n !in nodes ==> r[n] == idx[n])
      && (forall n :: n in idx && n in nodes ==> r[n] == idx[n] - 1)
  {
    if nodes != [] {
      var n := nodes[0];
      var next := if n in idx then idx[n := idx[n] - 1] else idx;
      assert n !in nodes[1..];
      RenumberFacts(next, nodes[1..]);
    }
  }

  /** Taking one position out of a list and renumbering the tail leaves every position right. */
  lemma RenumberTail<N>(idx: map<N, int>, nodes: seq<N>, i: nat)
    requires i < |nodes| && forall j :: 0 <= j < |nodes| ==> nodes[j] in idx && idx[nodes[j]] == j
    ensures
      var rest := RemoveAt(nodes, i);
      var r := Renumber(idx, From(rest, i));
      && r.Keys == idx.Keys
      && NoDup(rest) && nodes[i] !in rest
      && (forall j :: 0 <= j < |rest| ==> rest[j] in idx && r[rest[j]] == j)
      && (forall n :: n in idx && n !in nodes ==> r[n] == idx[n])
      && r[nodes[i]] == i
  {
    var rest := RemoveAt(nodes, i);
    var tail := From(rest, i);
    assert forall j :: 0 <= j < |tail| ==> tail[j] == nodes[i + 1 + j];
    RenumberFacts(idx, tail);
    forall j | 0 <= j < |rest| ensures rest[j] in idx && Renumber(idx, tail)[rest[j]] == j {
      if j < i {
        assert rest[j] == nodes[j] && nodes[j] !in tail;
      } else {
        assert rest[j] == nodes[j + 1] && rest[j] == tail[j - i];
      }
    }
  }

  // ----- Removing -----

  /** What a removal does to one list and to the positions of its members. */
  ghost predicate TakenOut<N>(before: seq<N>, i: nat, n: N, after: seq<N>, was: map<N, int>, idx: map<N, int>) {
    && i < |before| && before[i] == n && |after| == |before| - 1
    && (forall j :: 0 <= j < |after| ==> after[j] == before[if j < i then j else j + 1])
    && n !in after
    && idx.Keys == was.Keys - {n}
    && (forall j :: 0 <= j < |after| ==> after[j] in idx && idx[after[j]] == j)
    && (forall m :: m in was && m !in before ==> m in idx && idx[m] == was[m])
  }

  lemma TakeOut<N>(was: map<N, int>, before: seq<N>, n: N)
    requires n in before && forall j :: 0 <= j < |before| ==> before[j] in was && was[before[j]] == j
    ensures
      var rest := RemoveAt(before, was[n]);
      0 <= was[n] && TakenOut(before, was[n], n, rest, was, Renumber(was, From(rest, was[n])) - {n})
  {
    RenumberTail(was, before, was[n]);
  }

  ghost predicate LeafGone<N>(t: Tree<N>, n: N, c: N, u: Tree<N>) {
    && n in t.number && c in t.kids && c in u.kids && n in t.idx && 0 <= t.idx[n]
    && u.cats == t.cats && u.category == t.category && u.byName == t.byName && u.tracked == t.tracked
    && u.number == t.number - {n} && u.par == t.par - {n}
    && u.kids == t.kids[c := u.kids[c]]
    && TakenOut(t.kids[c], t.idx[n], n, u.kids[c], t.idx, u.idx)
  }

  lemma RemoveLeafGone<N>(t: Tree<N>, n: N)
    requires LeavesOk(t) && n in t.number
    ensures LeafGone(t, n, t.par[n], RemoveLeaf(t, n, t.par[n]))
  {
    assert Listed(t, n);
    var c := t.par[n];
    assert forall j :: 0 <= j < |t.kids[c]| ==> Knows(t, t.kids[c][j], c, j);
    TakeOut(t.idx, t.kids[c], n);
  }

  lemma LeafHome<N>(t: Tree<N>, n: N)
    requires LeavesOk(t) && n in t.number
    ensures
      && n in t.par && n in t.idx && t.par[n] in t.kids && 0 <= t.idx[n] < |t.kids[t.par[n]]|
      && forall j :: 0 <= j < |t.kids[t.par[n]]| ==> t.kids[t.par[n]][j] in t.number
  {
    assert Listed(t, n);
    assert forall j :: 0 <= j < |t.kids[t.par[n]]| ==> Knows(t, t.kids[t.par[n]][j], t.par[n], j);
  }

  lemma CategoryHome<N>(t: Tree<N>, c: N)
    requires CategoriesOk(t) && c in t.category
    ensures
      && c in t.idx && 0 <= t.idx[c] < |t.cats|
      && forall j :: 0 <= j < |t.cats| ==> t.cats[j] in t.category
  {
    assert c in t.cats;
  }

  lemma TrackedHome<N>(t: Tree<N>, d: nat)
    requires Inv(t) && d in t.tracked
    ensures t.tracked[d] in t.number && LeavesOk(t)
  {
  }

  lemma RemovalHome<N>(t: Tree<N>, n: N)
    requires Inv(t) && n in t.number
    ensures LeavesOk(t) && n in t.par
  {
  }

  /** Categories know their position, and bookmarks their category. */
  lemma HomesOf<N>(t: Tree<N>)
    requires Inv(t)
    ensures t.par.Keys == t.number.Keys && t.category.Keys <= t.idx.Keys
    ensures forall c :: c in t.category ==> 0 <= t.idx[c]
    ensures forall n :: n in t.par ==> t.par[n] in t.category
    ensures forall key :: key in t.byName ==> t.byName[key] in t.category
  {
  }

  /** What is left after a bookmark has gone still has the category it was under. */
  lemma RemoveLeafHome<N>(t: Tree<N>, n: N)
    requires Inv(t) && n in t.number && n in t.par && t.par[n] in t.category
    ensures t.par[n] in RemoveLeaf(t, n, t.par[n]).category
    ensures RemoveLeaf(t, n, t.par[n]).tracked == t.tracked
  {
  }

  lemma LeafGoneCategories<N>(t: Tree<N>, n: N, c: N, u: Tree<N>)
    requires CategoriesOk(t) && ChildrenOk(t) && LeafGone(t, n, c, u)
    ensures CategoriesOk(u)
  {
    forall d | d in t.category ensures d !in t.kids[c] {
      assert forall j :: 0 <= j < |t.kids[c]| ==> Knows(t, t.kids[c][j], c, j);
    }
    assert forall j :: 0 <= j < |t.cats| ==> t.cats[j] in t.category;
  }

  lemma LeafGoneChildren<N>(t: Tree<N>, n: N, c: N, u: Tree<N>)
    requires LeavesOk(t) && LeafGone(t, n, c, u)
    ensures ChildrenOk(u)
  {
    forall d, j | d in u.kids && 0 <= j < |u.kids[d]| ensures Knows(u, u.kids[d][j], d, j) {
      if d == c {
        var k := if j < t.idx[n] then j else j + 1;
        assert Knows(t, t.kids[c][k], c, k);
      } else {
        assert Knows(t, t.kids[d][j], d, j);
        NotAChild(t, t.kids[d][j], c);
      }
    }
  }

  /** A bookmark of one category is in no other child list. */
  lemma NotAChild<N>(t: Tree<N>, m: N, c: N)
    requires ChildrenOk(t) && c in t.kids && m in t.par && t.par[m] != c
    ensures m !in t.kids[c]
  {
    forall j | 0 <= j < |t.kids[c]| ensures t.kids[c][j] != m {
      assert Knows(t, t.kids[c][j], c, j);
    }
  }

  lemma LeafGonePlaces<N>(t: Tree<N>, n: N, c: N, u: Tree<N>)
    requires LeavesOk(t) && CategoriesOk(t) && LeafGone(t, n, c, u)
    ensures PlacesOk(u)
  {
    assert t.category.Keys !! t.number.Keys;
    hide CategoriesOk;
    forall m | m in u.number ensures Listed(u, m) {
      LeafGonePlace(t, n, c, u, m);
    }
  }

  lemma LeafGonePlace<N>(t: Tree<N>, n: N, c: N, u: Tree<N>, m: N)
    requires LeavesOk(t) && LeafGone(t, n, c, u) && m in u.number
    ensures Listed(u, m)
  {
    assert Listed(t, m);
    if t.par[m] == c {
      var k := if t.idx[m] < t.idx[n] then t.idx[m] else t.idx[m] - 1;
      assert t.idx[m] != t.idx[n];
      assert u.kids[c][k] == m;
    } else {
      NotAChild(t, m, c);
    }
  }

  ghost predicate CategoryGone<N>(t: Tree<N>, c: N, u: Tree<N>) {
    && c in t.category && c in t.idx && 0 <= t.idx[c]
    && u.number == t.number && u.par == t.par && u.tracked == t.tracked
    && u.kids == t.kids - {c} && u.category == t.category - {c}
    && u.byName == t.byName - {t.category[c].name}
    && TakenOut(t.cats, t.idx[c], c, u.cats, t.idx, u.idx)
  }

  lemma RemoveCategoryGone<N>(t: Tree<N>, c: N)
    requires CategoriesOk(t) && c in t.category
    ensures CategoryGone(t, c, RemoveCategory(t, c))
  {
    assert c in t.cats;
    TakeOut(t.idx, t.cats, c);
  }

  lemma CategoryGoneLists<N>(t: Tree<N>, c: N, u: Tree<N>)
    requires CategoriesOk(t) && CategoryGone(t, c, u)
    ensures CategoriesOk(u)
  {
    forall d | d in u.category ensures d in u.cats && d in u.kids && d !in u.number {
      assert d in t.cats;
      var j :| 0 <= j < |t.cats| && t.cats[j] == d;
      var k := if j < t.idx[c] then j else j - 1;
      assert u.cats[k] == d;
    }
    forall j | 0 <= j < |u.cats| ensures u.cats[j] in u.category {
      assert u.cats[j] == t.cats[if j < t.idx[c] then j else j + 1];
    }
  }

  lemma CategoryGoneNames<N>(t: Tree<N>, c: N, u: Tree<N>)
    requires NamesOk(t) && CategoryGone(t, c, u) && !t.category[c].popular
    ensures NamesOk(u)
  {
  }

  lemma CategoryGoneLeaves<N>(t: Tree<N>, c: N, u: Tree<N>)
    requires CategoriesOk(t) && LeavesOk(t) && c in t.kids && t.kids[c] == [] && CategoryGone(t, c, u)
    ensures LeavesOk(u)
  {
    assert forall j :: 0 <= j < |t.cats| ==> t.cats[j] in t.category;
    assert forall n :: n in t.number ==> n !in t.cats;
    hide CategoriesOk;
    assert ChildrenOk(u) by {
      forall d, j | d in u.kids && 0 <= j < |u.kids[d]| ensures Knows(u, u.kids[d][j], d, j) {
        assert Knows(t, t.kids[d][j], d, j);
      }
    }
    forall n | n in u.number ensures Listed(u, n) {
      assert Listed(t, n);
    }
  }

  /** Without the tracking, removing a bookmark keeps everything. */
  ghost predicate NodeGone<N>(t: Tree<N>, n: N, v: Tree<N>) {
    && v.number == t.number - {n} && v.par == t.par - {n} && v.tracked == t.tracked
    && (forall c :: c in v.category ==> c in t.category && v.category[c] == t.category[c])
    && CategoriesOk(v) && LeavesOk(v) && NamesOk(v) && NonEmpty(v)
  }

  lemma RemoveLeafKeeps<N>(t: Tree<N>, n: N)
    requires Inv(t) && n in t.number
    ensures n in t.par && t.par[n] in t.category && !t.category[t.par[n]].popular
    ensures
      var u := RemoveLeaf(t, n, t.par[n]);
      LeafGone(t, n, t.par[n], u) && CategoriesOk(u) && LeavesOk(u) && NamesOk(u)
  {
    hide TakenOut, RemoveLeaf;
    assert Listed(t, n);
    var c := t.par[n];
    assert t.kids[c] != [] && c in t.category && Kids(t, c) != [];
    var u := RemoveLeaf(t, n, c);
    RemoveLeafGone(t, n);
    LeafGoneCategories(t, n, c, u);
    LeafGoneChildren(t, n, c, u);
    LeafGonePlaces(t, n, c, u);
    NamesAsBefore(t, u);
  }

  lemma RemoveCategoryKeeps<N>(t: Tree<N>, c: N)
    requires CategoriesOk(t) && LeavesOk(t) && NamesOk(t)
    requires c in t.category && !t.category[c].popular && Kids(t, c) == []
    ensures
      var u := RemoveCategory(t, c);
      CategoryGone(t, c, u) && CategoriesOk(u) && LeavesOk(u) && NamesOk(u)
  {
    hide TakenOut, RemoveCategory, LeavesOk;
    RemoveCategoryGone(t, c);
    CategoryGoneLists(t, c, RemoveCategory(t, c));
    CategoryGoneNames(t, c, RemoveCategory(t, c));
    CategoryGoneLeaves(t, c, RemoveCategory(t, c));
  }

  lemma RemoveNodeGone<N>(t: Tree<N>, n: N)
    requires Inv(t) && n in t.number
    ensures NodeGone(t, n, RemoveNode(t, n))
  {
    hide TakenOut, RemoveLeaf, RemoveCategory, NamesOk, LeavesOk, CategoriesOk, TrackedOk, InitialsOk;
    RemoveLeafKeeps(t, n);
    var c := t.par[n];
    var u := RemoveLeaf(t, n, c);
    if Kids(u, c) == [] {
      RemoveCategoryKeeps(u, c);
    }
  }

  lemma NamesAsBefore<N>(t: Tree<N>, u: Tree<N>)
    requires NamesOk(t) && u.category == t.category && u.byName == t.byName
    ensures NamesOk(u)
  {
  }

  lemma RemoveItemKeeps<N>(t: Tree<N>, d: nat)
    requires Inv(t)
    ensures Inv(RemoveItem(t, d))
    ensures d !in RemoveItem(t, d).tracked
  {
    if d in t.tracked {
      RemoveNodeGone(t, t.tracked[d]);
      NodeGoneTracked(t, t.tracked[d], RemoveNode(t, t.tracked[d]));
      NodeGoneRest(RemoveNode(t, t.tracked[d]), t.tracked - {d});
    }
  }

  /** The rest of the tree does not depend on the reverse map. */
  lemma NodeGoneRest<N>(v: Tree<N>, tracked: map<nat, N>)
    ensures
      var r := v.(tracked := tracked);
      && (CategoriesOk(v) ==> CategoriesOk(r)) && (NonEmpty(v) ==> NonEmpty(r))
      && (NamesOk(v) ==> NamesOk(r)) && (LeavesOk(v) ==> LeavesOk(r))
  {
    var r := v.(tracked := tracked);
    if LeavesOk(v) {
      assert ChildrenOk(r) by {
        forall c, i | c in r.kids && 0 <= i < |r.kids[c]| ensures Knows(r, r.kids[c][i], c, i) {
          assert Knows(v, v.kids[c][i], c, i);
        }
      }
      forall n | n in r.number ensures Listed(r, n) {
        assert Listed(v, n);
      }
    }
  }

  lemma NodeGoneTracked<N>(t: Tree<N>, n: N, v: Tree<N>)
    requires TrackedOk(t) && InitialsOk(t) && n in t.number && NodeGone(t, n, v)
    ensures
      var r := v.(tracked := t.tracked - {t.number[n].d});
      TrackedOk(r) && InitialsOk(r)
  {
    forall m | m in v.number ensures m in v.par && v.par[m] in v.category {
      assert Listed(v, m);
    }
  }
}
