/** Undoing an addition, reloading as a group-by, whole runs, and the indexes of the tree. */
module BookmarkRuns {
  import opened Options
  import opened Lists
  import opened Bookmarks
  import opened BookmarkProofs

  // ----- Adding and removing -----

  /** A fresh contact that is added and removed leaves no trace, in the tree or in the maps. */
  lemma AddThenRemove<N>(t: Tree<N>, n: N, c: N, contact: Contact)
    requires Inv(t) && Fresh(t, n, c) && !Skipped(t, contact) && contact.initial != POPULAR_KEY
    ensures RemoveItem(AddItem(t, n, c, contact), contact.d) == t
  {
    hide AddItem, RemoveNode, CategoriesOk, NonEmpty, NamesOk, LeavesOk, TrackedOk, InitialsOk;
    assert t.tracked[contact.d := n] - {contact.d} == t.tracked;
    if contact.initial in t.byName {
      AddToOld(t, n, c, contact);
    } else {
      AddToNew(t, n, c, contact);
    }
  }

  lemma AddToOld<N>(t: Tree<N>, n: N, c: N, contact: Contact)
    requires Inv(t) && Fresh(t, n, c) && !Skipped(t, contact) && contact.initial != POPULAR_KEY
    requires contact.initial in t.byName
    ensures AddItem(t, n, c, contact).tracked == t.tracked[contact.d := n]
    ensures RemoveNode(AddItem(t, n, c, contact), n) == t.(tracked := t.tracked[contact.d := n])
  {
    var home := t.byName[contact.initial];
    assert Kids(t, home) != [];
    UndoLeaf(t, n, home, contact);
    hide AddLeaf, RemoveLeaf;
  }

  lemma AddToNew<N>(t: Tree<N>, n: N, c: N, contact: Contact)
    requires Inv(t) && Fresh(t, n, c) && !Skipped(t, contact) && contact.initial != POPULAR_KEY
    requires contact.initial !in t.byName
    ensures AddItem(t, n, c, contact).tracked == t.tracked[contact.d := n]
    ensures RemoveNode(AddItem(t, n, c, contact), n) == t.(tracked := t.tracked[contact.d := n])
  {
    hide NamesOk, TrackedOk, InitialsOk, NonEmpty;
    var u := WithCategory(t, c, contact.initial);
    assert c !in t.kids && c !in t.idx;
    assert CategoriesOk(u) && PlacesOk(u) by {
      AddCategoryKeeps(t, c, contact.initial, Category(contact.initial, false));
    }
    UndoLeaf(u, n, c, contact);
    UndoCategory(t, c, contact.initial, t.tracked[contact.d := n]);
    hide AddLeaf, RemoveLeaf, RemoveCategory, CategoriesOk, LeavesOk, PlacesOk;
  }

  lemma UndoLeaf<N>(t: Tree<N>, n: N, c: N, contact: Contact)
    requires PlacesOk(t) && CategoriesOk(t) && n !in t.number && n !in t.category && c in t.category
    ensures
      var u := AddLeaf(t, n, c, contact);
      && u.tracked == t.tracked[contact.d := n] && n in u.par && u.par[n] == c
      && RemoveLeaf(u, n, c) == t.(tracked := u.tracked)
  {
    hide Listed;
    var u := AddLeaf(t, n, c, contact);
    var i := Idx(u, n);
    assert RemoveAt(Kids(u, c), i) == t.kids[c];
    assert From(t.kids[c], i) == [];
    assert u.kids[c := t.kids[c]] == t.kids;
    assert u.idx - {n} == t.idx;
    assert u.number - {n} == t.number;
    assert u.par - {n} == t.par;
  }

  lemma UndoCategory<N>(t: Tree<N>, c: N, initial: string, tracked: map<nat, N>)
    requires c !in t.category && c !in t.kids && c !in t.idx && initial !in t.byName
    ensures RemoveCategory(WithCategory(t, c, initial).(tracked := tracked), c) == t.(tracked := tracked)
    ensures Kids(WithCategory(t, c, initial), c) == []
  {
    var u := WithCategory(t, c, initial);
    assert RemoveAt(u.cats, |t.cats|) == t.cats;
    assert From(t.cats, |t.cats|) == [];
    assert u.idx - {c} == t.idx;
    assert u.kids - {c} == t.kids;
    assert u.byName - {initial} == t.byName;
    assert u.category - {c} == t.category;
  }

  // ----- Reloading as a group-by -----

  /** The contacts that get a bookmark: first occurrences, without the user, in list order. */
  function Firsts(contacts: seq<Contact>, seen: set<nat>): seq<Contact> {
    if contacts == [] then []
    else if contacts[0].isSelf || contacts[0].d in seen then Firsts(contacts[1..], seen)
    else [contacts[0]] + Firsts(contacts[1..], seen + {contacts[0].d})
  }

  function WithInitial(contacts: seq<Contact>, initial: string): seq<Contact> {
    if contacts == [] then []
    else (if contacts[0].initial == initial then [contacts[0]] else []) + WithInitial(contacts[1..], initial)
  }

  /** Initials in the order in which they first occur, except those already known. */
  function NewInitials(contacts: seq<Contact>, known: set<string>): seq<string> {
    if contacts == [] then []
    else if contacts[0].initial in known then NewInitials(contacts[1..], known)
    else [contacts[0].initial] + NewInitials(contacts[1..], known + {contacts[0].initial})
  }

  function ContactOf<N>(t: Tree<N>, n: N): Contact {
    if n in t.number then t.number[n] else Contact(0, "", false)
  }

  /** The contacts filed under a key, in order. */
  function Under<N>(t: Tree<N>, key: string): seq<Contact> {
    if key in t.byName then
      var kids := Kids(t, t.byName[key]);
      seq(|kids|, i requires 0 <= i < |kids| => ContactOf(t, kids[i]))
    else []
  }

  /** The keys of the categories, in the order in which they are shown. */
  function Keys<N>(t: Tree<N>): seq<string> {
    seq(|t.cats|, i requires 0 <= i < |t.cats| =>
      if t.cats[i] in t.category then KeyOf(t.category[t.cats[i]]) else "")
  }

  /** The nodes an addition may use are unused, and all different. */
  ghost predicate Supply<N>(t: Tree<N>, nodes: seq<(N, N)>) {
    && (forall i :: 0 <= i < |nodes| ==> Fresh(t, nodes[i].0, nodes[i].1))
    && (forall i, j :: 0 <= i < j < |nodes| ==>
          nodes[i].0 != nodes[j].0 && nodes[i].0 != nodes[j].1 && nodes[i].1 != nodes[j].0 && nodes[i].1 != nodes[j].1)
  }

  ghost predicate Initials(contacts: seq<Contact>) {
    forall i :: 0 <= i < |contacts| ==> contacts[i].initial != POPULAR_KEY
  }

  lemma SupplyRest<N>(t: Tree<N>, contact: Contact, nodes: seq<(N, N)>)
    requires nodes != [] && Supply(t, nodes)
    ensures Supply(AddItem(t, nodes[0].0, nodes[0].1, contact), nodes[1..])
  {
    var u := AddItem(t, nodes[0].0, nodes[0].1, contact);
    assert forall n :: n in u.number ==> n in t.number || n == nodes[0].0;
    assert forall c :: c in u.category ==> c in t.category || c == nodes[0].1;
  }

  /** The bookmark needs an unused node, and a second one if its category does not exist yet. */
  ghost predicate Unused<N>(t: Tree<N>, n: N, c: N, contact: Contact) {
    n !in t.number && n !in t.category && (contact.initial !in t.byName ==> Fresh(t, n, c))
  }

  /** A new bookmark goes to the end of its category. */
  lemma AddLeafUnder<N>(t: Tree<N>, n: N, contact: Contact, key: string)
    requires NamesOk(t) && ChildrenOk(t) && n !in t.number && contact.initial in t.byName
    ensures Under(AddLeaf(t, n, t.byName[contact.initial], contact), key)
         == Under(t, key) + (if key == contact.initial then [contact] else [])
  {
    var u := AddLeaf(t, n, t.byName[contact.initial], contact);
    if key in t.byName {
      var home := t.byName[key];
      assert home == t.byName[contact.initial] <==> key == contact.initial;
      if home in t.kids {
        assert forall i :: 0 <= i < |t.kids[home]| ==> Knows(t, t.kids[home][i], home, i);
      }
    }
  }

  lemma AddCategoryUnder<N>(t: Tree<N>, c: N, initial: string, key: string)
    requires NamesOk(t) && (initial !in t.byName ==> c !in t.category)
    ensures Under(WithCategory(t, c, initial), key) == Under(t, key)
  {
  }

  lemma AddItemUnder<N>(t: Tree<N>, n: N, c: N, contact: Contact, key: string)
    requires Inv(t) && Unused(t, n, c, contact) && contact.initial != POPULAR_KEY && !Skipped(t, contact)
    ensures Under(AddItem(t, n, c, contact), key)
         == Under(t, key) + (if key == contact.initial then [contact] else [])
  {
    hide Under, CategoriesOk, NonEmpty, TrackedOk, InitialsOk, NamesOk, LeavesOk;
    var u := WithCategory(t, c, contact.initial);
    AddCategoryUnder(t, c, contact.initial, key);
    if contact.initial !in t.byName {
      AddCategoryKeeps(t, c, contact.initial, Category(contact.initial, false));
    }
    LeavesAre(u);
    AddLeafUnder(u, n, contact, key);
  }

  lemma LeavesAre<N>(t: Tree<N>)
    requires LeavesOk(t)
    ensures ChildrenOk(t) && PlacesOk(t)
  {
  }

  /** A new category goes to the end of the categories. */
  lemma AddItemCategories<N>(t: Tree<N>, n: N, c: N, contact: Contact)
    requires Inv(t) && Unused(t, n, c, contact) && contact.initial != POPULAR_KEY && !Skipped(t, contact)
    ensures Keys(AddItem(t, n, c, contact))
         == Keys(t) + (if contact.initial in t.byName then [] else [contact.initial])
    ensures AddItem(t, n, c, contact).byName.Keys == t.byName.Keys + {contact.initial}
    ensures AddItem(t, n, c, contact).tracked.Keys == t.tracked.Keys + {contact.d}
  {
    hide NonEmpty, TrackedOk, InitialsOk, NamesOk, LeavesOk, Keys, CategoriesOk;
    AddCategoryKeys(t, c, contact.initial);
    var u := WithCategory(t, c, contact.initial);
    AddLeafKeys(u, n, u.byName[contact.initial], contact);
  }

  lemma AddCategoryKeys<N>(t: Tree<N>, c: N, initial: string)
    requires CategoriesOk(t) && initial != POPULAR_KEY && (initial !in t.byName ==> c !in t.category)
    ensures Keys(WithCategory(t, c, initial)) == Keys(t) + (if initial in t.byName then [] else [initial])
  {
    assert forall i :: 0 <= i < |t.cats| ==> t.cats[i] in t.category;
  }

  lemma AddLeafKeys<N>(t: Tree<N>, n: N, c: N, contact: Contact)
    ensures Keys(AddLeaf(t, n, c, contact)) == Keys(t)
  {
  }

  lemma {:induction false} AddAllKeeps<N>(t: Tree<N>, contacts: seq<Contact>, nodes: seq<(N, N)>)
    requires Inv(t) && |nodes| == |contacts| && Supply(t, nodes) && Initials(contacts)
    ensures Inv(AddAll(t, contacts, nodes))
    decreases |contacts|
  {
    if contacts != [] {
      AddItemKeeps(t, nodes[0].0, nodes[0].1, contacts[0]);
      SupplyRest(t, contacts[0], nodes);
      AddAllKeeps(AddItem(t, nodes[0].0, nodes[0].1, contacts[0]), contacts[1..], nodes[1..]);
    }
  }

  lemma {:induction false} AddAllUnder<N>(t: Tree<N>, contacts: seq<Contact>, nodes: seq<(N, N)>, key: string)
    requires Inv(t) && |nodes| == |contacts| && Supply(t, nodes) && Initials(contacts)
    ensures Under(AddAll(t, contacts, nodes), key)
         == Under(t, key) + WithInitial(Firsts(contacts, t.tracked.Keys), key)
    decreases |contacts|
  {
    hide Inv, Supply, AddItem, Under, Fresh;
    if contacts != [] {
      var contact, n, c := contacts[0], nodes[0].0, nodes[0].1;
      SupplyFirst(t, nodes);
      if !Skipped(t, contact) {
        AddItemUnder(t, n, c, contact, key);
        AddItemCategories(t, n, c, contact);
      } else {
        SkippedAdds(t, n, c, contact);
      }
      AddItemKeeps(t, n, c, contact);
      SupplyRest(t, contact, nodes);
      AddAllUnder(AddItem(t, n, c, contact), contacts[1..], nodes[1..], key);
    }
  }

  lemma {:induction false} AddAllCategories<N>(t: Tree<N>, contacts: seq<Contact>, nodes: seq<(N, N)>)
    requires Inv(t) && |nodes| == |contacts| && Supply(t, nodes) && Initials(contacts)
    ensures Keys(AddAll(t, contacts, nodes))
         == Keys(t) + NewInitials(Firsts(contacts, t.tracked.Keys), t.byName.Keys)
    decreases |contacts|
  {
    hide Inv, Supply, AddItem, Keys, Fresh;
    if contacts != [] {
      var contact, n, c := contacts[0], nodes[0].0, nodes[0].1;
      SupplyFirst(t, nodes);
      AddItemKeeps(t, n, c, contact);
      SupplyRest(t, contact, nodes);
      AddAllCategories(AddItem(t, n, c, contact), contacts[1..], nodes[1..]);
      if !Skipped(t, contact) {
        AddItemCategories(t, n, c, contact);
        if contact.initial in t.byName {
          assert t.byName.Keys + {contact.initial} == t.byName.Keys;
        }
      } else {
        SkippedAdds(t, n, c, contact);
      }
    }
  }

  lemma SupplyFirst<N>(t: Tree<N>, nodes: seq<(N, N)>)
    requires nodes != [] && Supply(t, nodes)
    ensures Fresh(t, nodes[0].0, nodes[0].1)
  {
  }

  lemma SkippedAdds<N>(t: Tree<N>, n: N, c: N, contact: Contact)
    requires Skipped(t, contact)
    ensures AddItem(t, n, c, contact) == t
  {
  }

  /** What a category lists, followed by what the remaining contacts still add to it. */
  ghost function Planned<N>(t: Tree<N>, contacts: seq<Contact>, key: string): seq<Contact> {
    Under(t, key) + WithInitial(Firsts(contacts, t.tracked.Keys), key)
  }

  ghost function PlannedKeys<N>(t: Tree<N>, contacts: seq<Contact>): seq<string> {
    Keys(t) + NewInitials(Firsts(contacts, t.tracked.Keys), t.byName.Keys)
  }

  lemma AddItemPlanned<N>(t: Tree<N>, n: N, c: N, contacts: seq<Contact>)
    requires Inv(t) && contacts != [] && contacts[0].initial != POPULAR_KEY
    requires !Skipped(t, contacts[0]) ==> Unused(t, n, c, contacts[0])
    ensures forall key :: Planned(AddItem(t, n, c, contacts[0]), contacts[1..], key) == Planned(t, contacts, key)
    ensures PlannedKeys(AddItem(t, n, c, contacts[0]), contacts[1..]) == PlannedKeys(t, contacts)
  {
    hide Inv, AddItem, Under, Unused, Keys;
    var contact := contacts[0];
    if !Skipped(t, contact) {
      forall key ensures Planned(AddItem(t, n, c, contact), contacts[1..], key) == Planned(t, contacts, key) {
        AddItemUnder(t, n, c, contact, key);
        AddItemCategories(t, n, c, contact);
      }
      AddItemCategories(t, n, c, contact);
      if contact.initial in t.byName {
        assert t.byName.Keys + {contact.initial} == t.byName.Keys;
      }
    } else {
      SkippedAdds(t, n, c, contact);
    }
  }

  lemma SkippedPlanned<N>(t: Tree<N>, contacts: seq<Contact>)
    requires contacts != [] && Skipped(t, contacts[0])
    ensures forall key :: Planned(t, contacts[1..], key) == Planned(t, contacts, key)
    ensures PlannedKeys(t, contacts[1..]) == PlannedKeys(t, contacts)
  {
  }

  /** Nothing is tracked yet. */
  lemma PlanFrom<N>(t: Tree<N>, contacts: seq<Contact>)
    requires t.tracked == map[] && forall key :: Under(t, key) == []
    ensures forall key :: Planned(t, contacts, key) == WithInitial(Firsts(contacts, {}), key)
    ensures PlannedKeys(t, contacts) == Keys(t) + NewInitials(Firsts(contacts, {}), t.byName.Keys)
  {
    hide Under, Keys;
    assert t.tracked.Keys == {};
    forall key ensures Planned(t, contacts, key) == WithInitial(Firsts(contacts, {}), key) {
      assert Under(t, key) == [];
    }
  }

  /** Nothing is planned any more. */
  lemma PlanDone<N>(t: Tree<N>)
    ensures forall key :: Planned(t, [], key) == Under(t, key)
    ensures PlannedKeys(t, []) == Keys(t)
  {
  }

  lemma EmptyIs<N>()
    ensures Inv(Empty<N>()) && Keys(Empty<N>()) == [] && forall key :: Under(Empty<N>(), key) == []
  {
  }

  lemma ClearedIs<N>(popular: bool, mp: N)
    ensures
      var t := Cleared(popular, mp);
      && Inv(t) && t.tracked.Keys == {} && t.number.Keys == {}
      && t.category.Keys == (if popular then {mp} else {})
      && t.byName.Keys == (if popular then {POPULAR_KEY} else {})
      && Keys(t) == (if popular then [POPULAR_KEY] else [])
      && forall key :: Under(t, key) == []
  {
  }

  /**
    Reloading groups the bookmarks by initial: every category lists the first occurrences of the
    contacts with its initial, in list order, and the categories come in order of first occurrence.
   */
  lemma ReloadGroups<N>(popular: bool, mp: N, contacts: seq<Contact>, nodes: seq<(N, N)>, key: string)
    requires |nodes| == |contacts| && Initials(contacts)
    requires Supply(Cleared(popular, mp), nodes)
    ensures
      var t := Reload(popular, mp, contacts, nodes);
      var firsts := Firsts(contacts, {});
      && Inv(t)
      && Under(t, key) == WithInitial(firsts, key)
      && Keys(t) == if popular then [POPULAR_KEY] + NewInitials(firsts, {POPULAR_KEY}) else NewInitials(firsts, {})
  {
    ClearedIs(popular, mp);
    AddAllKeeps(Cleared(popular, mp), contacts, nodes);
    AddAllUnder(Cleared(popular, mp), contacts, nodes, key);
    AddAllCategories(Cleared(popular, mp), contacts, nodes);
  }

  ghost predicate Distinct(r: seq<Contact>, contacts: seq<Contact>, seen: set<nat>) {
    && (forall i :: 0 <= i < |r| ==> r[i] in contacts && !r[i].isSelf && r[i].d !in seen)
    && (forall i, j :: 0 <= i < j < |r| ==> r[i].d != r[j].d)
  }

  /** No contact is bookmarked twice, and the user not at all. */
  lemma {:induction false} FirstsDistinct(contacts: seq<Contact>, seen: set<nat>)
    ensures Distinct(Firsts(contacts, seen), contacts, seen)
  {
    if contacts != [] {
      var first, rest := contacts[0], contacts[1..];
      if first.isSelf || first.d in seen {
        FirstsDistinct(rest, seen);
      } else {
        FirstsDistinct(rest, seen + {first.d});
      }
    }
  }

  /** A contact that is not the user is bookmarked exactly where no earlier one shares its identity. */
  lemma {:induction false} FirstsCover(contacts: seq<Contact>, seen: set<nat>, k: nat)
    requires k < |contacts| && !contacts[k].isSelf && contacts[k].d !in seen
    requires forall j :: 0 <= j < k && contacts[j].d == contacts[k].d ==> contacts[j].isSelf
    ensures contacts[k] in Firsts(contacts, seen)
  {
    var first, rest := contacts[0], contacts[1..];
    if k > 0 {
      assert rest[k - 1] == contacts[k];
      if first.isSelf || first.d in seen {
        FirstsCover(rest, seen, k - 1);
      } else {
        FirstsCover(rest, seen + {first.d}, k - 1);
      }
    }
  }

  // ----- Runs -----

  datatype Event<N> =
    | Added(n: N, c: N, contact: Contact)
    | Removed(d: nat)
    | Reloaded(popular: bool, mp: N, contacts: seq<Contact>, nodes: seq<(N, N)>)

  ghost predicate Allowed<N>(t: Tree<N>, e: Event<N>) {
    match e
    case Added(n, c, contact) => Fresh(t, n, c) && contact.initial != POPULAR_KEY
    case Removed(_) => true
    case Reloaded(popular, mp, contacts, nodes) =>
      |nodes| == |contacts| && Initials(contacts) && Supply(Cleared(popular, mp), nodes)
  }

  function Step<N(==)>(t: Tree<N>, e: Event<N>): Tree<N>
    requires e.Reloaded? ==> |e.nodes| == |e.contacts|
  {
    match e
    case Added(n, c, contact) => AddItem(t, n, c, contact)
    case Removed(d) => RemoveItem(t, d)
    case Reloaded(popular, mp, contacts, nodes) => Reload(popular, mp, contacts, nodes)
  }

  lemma StepKeeps<N>(t: Tree<N>, e: Event<N>)
    requires Inv(t) && Allowed(t, e)
    ensures Inv(Step(t, e))
  {
    match e
    case Added(n, c, contact) => AddItemKeeps(t, n, c, contact);
    case Removed(d) => RemoveItemKeeps(t, d);
    case Reloaded(popular, mp, contacts, nodes) => ReloadGroups(popular, mp, contacts, nodes, "");
  }

  ghost predicate AllowedRun<N>(t: Tree<N>, events: seq<Event<N>>)
    decreases |events|
  {
    events != [] ==> Allowed(t, events[0]) && AllowedRun(Step(t, events[0]), events[1..])
  }

  ghost function Run<N>(t: Tree<N>, events: seq<Event<N>>): Tree<N>
    requires AllowedRun(t, events)
    decreases |events|
  {
    if events == [] then t else Run(Step(t, events[0]), events[1..])
  }

  lemma {:induction false} RunKeeps<N>(t: Tree<N>, events: seq<Event<N>>)
    requires Inv(t) && AllowedRun(t, events)
    ensures Inv(Run(t, events))
    decreases |events|
  {
    if events != [] {
      StepKeeps(t, events[0]);
      RunKeeps(Step(t, events[0]), events[1..]);
    }
  }

  lemma EmptyKeeps<N>()
    ensures Inv(Empty<N>())
  {
  }

  /** From the empty model, every run ends in a tree whose lists, positions and maps agree. */
  lemma EveryRunAgrees<N>(events: seq<Event<N>>)
    requires AllowedRun(Empty<N>(), events)
    ensures Inv(Run(Empty<N>(), events))
  {
    EmptyKeeps<N>();
    RunKeeps(Empty<N>(), events);
  }

  // ----- Indexes -----

  /** The rows under "most popular" belong to another model and have no node. */
  datatype Index<N> = NoIndex | At(row: nat, column: int, node: Option<N>)

  function IndexAt<N>(t: Tree<N>, row: nat, column: int, parent: Index<N>): Index<N>
    requires parent.At? ==> parent.node.Some?
  {
    if column != 0 then NoIndex
    else if parent.At? && parent.row < |t.cats| then
      var p := parent.node.value;
      if p in t.category && t.category[p].popular then At(row, column, None)
      else if row < |Kids(t, p)| then At(row, column, Some(Kids(t, p)[row]))
      else NoIndex
    else if row < |t.cats| then At(row, column, Some(t.cats[row]))
    else NoIndex
  }

  /** Rows without a node go under "most popular"; it has to exist. */
  function ParentOf<N>(t: Tree<N>, idx: Index<N>): Index<N>
    requires idx.At? && idx.node.None? ==> POPULAR_KEY in t.byName
  {
    if idx.NoIndex? then NoIndex
    else if idx.node.None? then TopAt(t, Idx(t, t.byName[POPULAR_KEY]))
    else if idx.node.value in t.par then TopAt(t, Idx(t, t.par[idx.node.value]))
    else NoIndex
  }

  function TopAt<N>(t: Tree<N>, row: int): Index<N> {
    if row < 0 then NoIndex else IndexAt(t, row, 0, NoIndex)
  }

  lemma ParentOfCategory<N>(t: Tree<N>, r: nat)
    requires Inv(t) && r < |t.cats|
    ensures ParentOf(t, IndexAt(t, r, 0, NoIndex)) == NoIndex
  {
  }

  /** Every row under a category, "most popular" included, has that category as its parent. */
  lemma ParentOfRow<N>(t: Tree<N>, r: nat, row: nat)
    requires Inv(t) && r < |t.cats|
    requires row < |Kids(t, t.cats[r])| || t.category[t.cats[r]].popular
    ensures
      var parent := IndexAt(t, r, 0, NoIndex);
      && parent == At(r, 0, Some(t.cats[r]))
      && (IndexAt(t, row, 0, parent).node.None? ==> POPULAR_KEY in t.byName)
      && ParentOf(t, IndexAt(t, row, 0, parent)) == parent
  {
    hide TrackedOk, InitialsOk, PlacesOk;
    var c := t.cats[r];
    if !t.category[c].popular {
      assert Knows(t, t.kids[c][row], c, row);
    }
  }
}
