/**
  The bookmark tree as a value: categories in order, the bookmarks under each, the stored position of
  every node, the index of categories by name and the map from contacts back to their bookmark.
 */
module Bookmarks {
  import opened Lists

  /**
    A contact: the private object it shares with its duplicates, the upper-case initial of its best
    name, and whether it is the user.
   */
  datatype Contact = Contact(d: nat, initial: string, isSelf: bool)

  datatype Category = Category(name: string, popular: bool)

  datatype Tree<N(==)> = Tree(
    cats: seq<N>,
    category: map<N, Category>,
    number: map<N, Contact>,        // the bookmarks
    kids: map<N, seq<N>>,           // of the categories
    par: map<N, N>,                 // of the bookmarks
    idx: map<N, int>,
    byName: map<string, N>,
    tracked: map<nat, N>)

  const POPULAR_KEY := "mp"
  const POPULAR_NAME := "Most popular"

  function Empty<N>(): Tree<N> {
    Tree([], map[], map[], map[], map[], map[], map[], map[])
  }

  function Kids<N>(t: Tree<N>, c: N): seq<N> {
    if c in t.kids then t.kids[c] else []
  }

  function Idx<N>(t: Tree<N>, n: N): int {
    if n in t.idx then t.idx[n] else -1
  }

  // ----- Adding -----

  function AddCategory<N>(t: Tree<N>, c: N, key: string, category: Category): Tree<N> {
    t.(cats := t.cats + [c],
       category := t.category[c := category],
       kids := t.kids[c := []],
       idx := t.idx[c := |t.cats|],
       byName := t.byName[key := c])
  }

  /** The category of an initial, created on demand as the node c. */
  function WithCategory<N>(t: Tree<N>, c: N, initial: string): Tree<N> {
    if initial in t.byName then t else AddCategory(t, c, initial, Category(initial, false))
  }

  function AddLeaf<N>(t: Tree<N>, n: N, c: N, contact: Contact): Tree<N> {
    t.(number := t.number[n := contact],
       par := t.par[n := c],
       idx := t.idx[n := |Kids(t, c)|],
       kids := t.kids[c := Kids(t, c) + [n]],
       tracked := t.tracked[contact.d := n])
  }

  predicate Skipped<N>(t: Tree<N>, contact: Contact) {
    contact.d in t.tracked || contact.isSelf
  }

  /** Duplicates of a tracked contact and the user are not bookmarked. */
  function AddItem<N>(t: Tree<N>, n: N, c: N, contact: Contact): Tree<N> {
    if Skipped(t, contact) then t
    else
      var u := WithCategory(t, c, contact.initial);
      if contact.initial in u.byName then AddLeaf(u, n, u.byName[contact.initial], contact) else u
  }

  // ----- Reloading -----

  /** Bookmarks a list of contacts; the k-th one may use the k-th pair of nodes. */
  function AddAll<N>(t: Tree<N>, contacts: seq<Contact>, nodes: seq<(N, N)>): Tree<N>
    requires |nodes| == |contacts|
    decreases |contacts|
  {
    if contacts == [] then t
    else AddAll(AddItem(t, nodes[0].0, nodes[0].1, contacts[0]), contacts[1..], nodes[1..])
  }

  /** Everything is dropped; "most popular" comes first if it is shown. */
  function Cleared<N>(popular: bool, mp: N): Tree<N> {
    if popular then AddCategory(Empty(), mp, POPULAR_KEY, Category(POPULAR_NAME, true)) else Empty()
  }

  function Reload<N>(popular: bool, mp: N, contacts: seq<Contact>, nodes: seq<(N, N)>): Tree<N>
    requires |nodes| == |contacts|
  {
    AddAll(Cleared(popular, mp), contacts, nodes)
  }

  // ----- Removing -----

  /** Every listed node moves one position down. */
  function Renumber<N(==)>(idx: map<N, int>, nodes: seq<N>): map<N, int> {
    if nodes == [] then idx
    else
      Renumber(if nodes[0] in idx then idx[nodes[0] := idx[nodes[0]] - 1] else idx, nodes[1..])
  }

  function From<T>(s: seq<T>, i: int): seq<T> {
    if 0 <= i <= |s| then s[i..] else []
  }

  function RemoveLeaf<N(==)>(t: Tree<N>, n: N, c: N): Tree<N> {
    var i := Idx(t, n);
    var rest := RemoveAt(Kids(t, c), i);
    t.(kids := t.kids[c := rest],
       idx := Renumber(t.idx, From(rest, i)) - {n},
       number := t.number - {n},
       par := t.par - {n})
  }

  function RemoveCategory<N(==)>(t: Tree<N>, c: N): Tree<N> {
    var i := Idx(t, c);
    var rest := RemoveAt(t.cats, i);
    t.(cats := rest,
       idx := Renumber(t.idx, From(rest, i)) - {c},
       kids := t.kids - {c},
       byName := if c in t.category then t.byName - {t.category[c].name} else t.byName,
       category := t.category - {c})
  }

  /** A bookmark leaves its category; a category without bookmarks leaves too. */
  function RemoveNode<N(==)>(t: Tree<N>, n: N): Tree<N> {
    if n !in t.par then t
    else
      var c := t.par[n];
      var u := RemoveLeaf(t, n, c);
      if Kids(u, c) == [] then RemoveCategory(u, c) else u
  }

  /** Contacts that are not tracked are left alone. */
  function RemoveItem<N(==)>(t: Tree<N>, d: nat): Tree<N> {
    if d !in t.tracked then t else RemoveNode(t, t.tracked[d]).(tracked := t.tracked - {d})
  }

  // ----- The invariant -----

  function KeyOf(c: Category): string {
    if c.popular then POPULAR_KEY else c.name
  }

  /** Categories: every one is listed at its stored position. */
  ghost predicate CategoriesOk<N>(t: Tree<N>) {
    && (forall i :: 0 <= i < |t.cats| ==> t.cats[i] in t.category && t.cats[i] in t.idx && t.idx[t.cats[i]] == i)
    && (forall c :: c in t.category ==> c in t.cats && c in t.kids && c !in t.number)
    && (forall c :: c in t.kids ==> c in t.category)
  }

  /** Only "most popular" is empty, and it always is. */
  ghost predicate NonEmpty<N>(t: Tree<N>) {
    forall c :: c in t.category ==> (Kids(t, c) == [] <==> t.category[c].popular)
  }

  ghost predicate NamesOk<N>(t: Tree<N>) {
    && (forall c :: c in t.category ==>
          KeyOf(t.category[c]) in t.byName && t.byName[KeyOf(t.category[c])] == c)
    && (forall k :: k in t.byName ==> t.byName[k] in t.category && KeyOf(t.category[t.byName[k]]) == k)
    && (forall c :: c in t.category && !t.category[c].popular ==> t.category[c].name != POPULAR_KEY)
  }

  /** A bookmark that knows its parent and its position. */
  ghost predicate Knows<N>(t: Tree<N>, n: N, c: N, i: int) {
    n in t.number && n in t.par && n in t.idx && t.par[n] == c && t.idx[n] == i
  }

  ghost predicate ChildrenOk<N>(t: Tree<N>) {
    forall c :: c in t.kids ==> forall i :: 0 <= i < |t.kids[c]| ==> Knows(t, t.kids[c][i], c, i)
  }

  /** A bookmark that its parent lists at the position it knows. */
  ghost predicate Listed<N>(t: Tree<N>, n: N) {
    && n in t.par && t.par[n] in t.kids && n in t.idx
    && 0 <= t.idx[n] < |t.kids[t.par[n]]| && t.kids[t.par[n]][t.idx[n]] == n
  }

  ghost predicate PlacesOk<N>(t: Tree<N>) {
    && t.par.Keys == t.number.Keys
    && t.idx.Keys == t.number.Keys + t.category.Keys
    && forall n :: n in t.number ==> Listed(t, n)
  }

  /** Stored positions and parents agree with the child lists, in both directions. */
  ghost predicate LeavesOk<N>(t: Tree<N>) {
    ChildrenOk(t) && PlacesOk(t)
  }

  ghost predicate TrackedOk<N>(t: Tree<N>) {
    && (forall n :: n in t.number ==> t.number[n].d in t.tracked && t.tracked[t.number[n].d] == n)
    && (forall d :: d in t.tracked ==> t.tracked[d] in t.number && t.number[t.tracked[d]].d == d)
  }

  ghost predicate InitialsOk<N>(t: Tree<N>) {
    forall n :: n in t.number ==>
      n in t.par && t.par[n] in t.category && t.category[t.par[n]].name == t.number[n].initial && !t.number[n].isSelf
  }

  ghost predicate Inv<N>(t: Tree<N>) {
    CategoriesOk(t) && NonEmpty(t) && NamesOk(t) && LeavesOk(t) && TrackedOk(t) && InitialsOk(t)
  }

  /** Nodes that are not in use. */
  ghost predicate Fresh<N>(t: Tree<N>, n: N, c: N) {
    n != c && n !in t.number && n !in t.category && c !in t.number && c !in t.category
  }
}
