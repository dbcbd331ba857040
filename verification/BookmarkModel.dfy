/** The bookmark tree on the heap, with the positions stored in the nodes. */
module BookmarkModels {
  import opened Options
  import opened Lists
  import B = Bookmarks
  import P = BookmarkProofs
  import R = BookmarkRuns

  /** A category, or the bookmark of a contact. */
  class BookmarkNode {
    const contact: Option<B.Contact>
    const name: string
    const mostPopular: bool
    var parent: BookmarkNode?
    var index: int
    var children: seq<BookmarkNode>

    constructor Category(name: string, mostPopular: bool, index: int)
      ensures contact.None? && this.name == name && this.mostPopular == mostPopular
      ensures parent == null && this.index == index && children == []
    {
      contact, this.name, this.mostPopular := None, name, mostPopular;
      parent, this.index, children := null, index, [];
    }

    constructor Bookmark(contact: B.Contact)
      ensures this.contact == Some(contact) && parent == null && index == -1 && children == []
    {
      this.contact, name, mostPopular := Some(contact), "", false;
      parent, index, children := null, -1, [];
    }
  }

  class BookmarkModel {
    var categories: seq<BookmarkNode>
    var byName: map<string, BookmarkNode>
    var tracked: map<nat, BookmarkNode>
    var displayPopular: bool
    ghost var nodes: set<BookmarkNode>

    static ghost function ParentOf(n: BookmarkNode): BookmarkNode
      requires n.parent != null
      reads n`parent
    {
      n.parent
    }

    ghost function CategoryMap(): map<BookmarkNode, B.Category>
      reads this`nodes
    {
      map n | n in nodes && n.contact.None? :: B.Category(n.name, n.mostPopular)
    }

    ghost function NumberMap(): map<BookmarkNode, B.Contact>
      reads this`nodes
    {
      map n | n in nodes && n.contact.Some? :: n.contact.value
    }

    ghost function KidsMap(): map<BookmarkNode, seq<BookmarkNode>>
      reads this`nodes, nodes`children
    {
      map n | n in nodes && n.contact.None? :: n.children
    }

    ghost function ParentMap(): map<BookmarkNode, BookmarkNode>
      reads this`nodes, nodes`parent
    {
      map n | n in nodes && n.contact.Some? && n.parent != null :: ParentOf(n)
    }

    ghost function IndexMap(): map<BookmarkNode, int>
      reads this`nodes, nodes`index
    {
      map n | n in nodes :: n.index
    }

    /** The tree as a value. */
    ghost function State(): B.Tree<BookmarkNode>
      reads this, nodes
    {
      B.Tree(categories, CategoryMap(), NumberMap(), KidsMap(), ParentMap(), IndexMap(), byName, tracked)
    }

    ghost predicate Valid()
      reads this, nodes
    {
      B.Inv(State())
    }

    lemma KeysKnown()
      ensures State().idx.Keys == nodes && State().kids.Keys == State().category.Keys
      ensures State().category.Keys + State().number.Keys == nodes
      ensures State().par.Keys <= State().number.Keys
    {
    }

    /** One node, field by field. */
    lemma FieldsOf(n: BookmarkNode)
      requires n in nodes
      ensures n in State().idx && State().idx[n] == n.index
      ensures n in State().category <==> n.contact.None?
      ensures n in State().number <==> n.contact.Some?
      ensures n in State().kids <==> n.contact.None?
      ensures
        n.contact.None? ==>
          State().category[n] == B.Category(n.name, n.mostPopular) && State().kids[n] == n.children
      ensures n.contact.Some? ==> State().number[n] == n.contact.value
      ensures n in State().par ==> n.parent != null && State().par[n] == n.parent
    {
    }

    // ----- Writing one field -----

    method SetIndex(n: BookmarkNode, index: int)
      requires n in nodes
      modifies n`index
      ensures State() == old(State()).(idx := old(State()).idx[n := index])
    {
      hide CategoryMap, NumberMap, KidsMap, ParentMap;
      n.index := index;
    }

    method SetChildren(n: BookmarkNode, children: seq<BookmarkNode>)
      requires n in nodes && n.contact.None?
      modifies n`children
      ensures State() == old(State()).(kids := old(State()).kids[n := children])
    {
      hide CategoryMap, NumberMap, ParentMap, IndexMap;
      n.children := children;
    }

    // ----- Adding -----

    twostate lemma CategoryInserted(new c: BookmarkNode)
      requires c !in old(nodes) && c.contact.None? && c.children == []
      requires nodes == old(nodes) + {c}
      requires forall n :: n in old(nodes) ==>
                 n.children == old(n.children) && n.parent == old(n.parent) && n.index == old(n.index)
      ensures CategoryMap() == old(CategoryMap())[c := B.Category(c.name, c.mostPopular)]
      ensures NumberMap() == old(NumberMap())
      ensures KidsMap() == old(KidsMap())[c := []]
      ensures ParentMap() == old(ParentMap())
      ensures IndexMap() == old(IndexMap())[c := c.index]
    {
    }

    method InsertCategory(key: string, name: string, mostPopular: bool) returns (c: BookmarkNode)
      modifies this`categories, this`byName, this`nodes
      ensures fresh(c) && nodes == old(nodes) + {c}
      ensures State() == B.AddCategory(old(State()), c, key, B.Category(name, mostPopular))
    {
      hide CategoryMap, NumberMap, KidsMap, ParentMap, IndexMap;
      c := new BookmarkNode.Category(name, mostPopular, |categories|);
      byName := byName[key := c];
      nodes := nodes + {c};
      categories := categories + [c];
      CategoryInserted(c);
    }

    /** The category of an initial, created on demand. */
    method GetCategory(initial: string) returns (c: BookmarkNode)
      modifies this`categories, this`byName, this`nodes
      ensures initial in old(byName) ==> c == old(byName)[initial] && nodes == old(nodes)
      ensures initial !in old(byName) ==> fresh(c) && nodes == old(nodes) + {c}
      ensures State() == B.WithCategory(old(State()), c, initial)
    {
      hide CategoryMap, NumberMap, KidsMap, ParentMap, IndexMap;
      if initial in byName {
        c := byName[initial];
      } else {
        c := InsertCategory(initial, initial, false);
      }
    }

    twostate lemma LeafInserted(new n: BookmarkNode, c: BookmarkNode)
      requires n !in old(nodes) && n.contact.Some? && n.parent == c
      requires c in old(nodes) && c.contact.None? && c.children == old(c.children) + [n]
      requires nodes == old(nodes) + {n}
      requires forall m :: m in old(nodes) ==> m.parent == old(m.parent) && m.index == old(m.index)
      requires forall m :: m in old(nodes) && m != c ==> m.children == old(m.children)
      ensures CategoryMap() == old(CategoryMap())
      ensures NumberMap() == old(NumberMap())[n := n.contact.value]
      ensures KidsMap() == old(KidsMap())[c := old(c.children) + [n]]
      ensures ParentMap() == old(ParentMap())[n := c]
      ensures IndexMap() == old(IndexMap())[n := n.index]
    {
    }

    lemma LeafHome(c: BookmarkNode)
      requires c in nodes && c.contact.None?
      ensures c in State().kids && State().kids[c] == c.children
    {
    }

    method InsertLeaf(contact: B.Contact, c: BookmarkNode) returns (n: BookmarkNode)
      requires c in nodes && c.contact.None?
      modifies this`nodes, this`tracked, c`children
      ensures fresh(n) && nodes == old(nodes) + {n}
      ensures State() == B.AddLeaf(old(State()), n, c, contact)
    {
      hide CategoryMap, NumberMap, KidsMap, ParentMap, IndexMap;
      LeafHome(c);
      n := new BookmarkNode.Bookmark(contact);
      n.parent := c;
      n.index := |c.children|;
      nodes := nodes + {n};
      c.children := c.children + [n];
      tracked := tracked[contact.d := n];
      LeafInserted(n, c);
    }

    /** Duplicates of a tracked contact and the user are ignored. */
    method AddItemCallback(contact: B.Contact) returns (ghost n: BookmarkNode?, ghost c: BookmarkNode?)
      requires Valid() && contact.initial != B.POPULAR_KEY
      modifies this`categories, this`byName, this`tracked, this`nodes, nodes
      ensures Valid()
      ensures B.Skipped(old(State()), contact) ==> State() == old(State()) && nodes == old(nodes)
      ensures !B.Skipped(old(State()), contact) ==>
                && n != null && c != null && fresh(n) && fresh(nodes - old(nodes))
                && (contact.initial !in old(byName) ==> fresh(c) && c != n)
                && State() == B.AddItem(old(State()), n, c, contact)
    {
      hide CategoryMap, NumberMap, KidsMap, ParentMap, IndexMap, B.AddLeaf, B.Inv;
      n, c := null, null;
      ghost var s := State();
      if contact.d in tracked || contact.isSelf {
        return;
      }
      KeysKnown();
      var home := GetCategory(contact.initial);
      P.CategoryReady(s, home, contact.initial);
      KeysKnown();
      FieldsOf(home);
      var leaf := InsertLeaf(contact, home);
      P.AddItemKeeps(s, leaf, home, contact);
      n, c := leaf, home;
    }

    // ----- Reloading -----

    /** Everything is dropped; "most popular" comes first if it is shown. */
    method Clear()
      modifies this`categories, this`byName, this`tracked, this`nodes
      ensures Valid() && fresh(nodes)
      ensures tracked == map[] && forall key :: R.Under(State(), key) == []
      ensures byName.Keys == if displayPopular then {B.POPULAR_KEY} else {}
      ensures R.Keys(State()) == if displayPopular then [B.POPULAR_KEY] else []
    {
      hide B.Inv, R.Under, R.Keys;
      categories, byName, tracked, nodes := [], map[], map[], {};
      assert State() == B.Empty();
      ghost var mp: BookmarkNode?;
      if displayPopular {
        var c := InsertCategory(B.POPULAR_KEY, B.POPULAR_NAME, true);
        R.ClearedIs(true, c);
      } else {
        R.EmptyIs<BookmarkNode>();
      }
    }

    /** One bookmark, and what it leaves to the contacts that follow. */
    method AddPlanned(ghost contacts: seq<B.Contact>, contact: B.Contact)
      requires Valid() && contacts != [] && contacts[0] == contact && contact.initial != B.POPULAR_KEY
      modifies this`categories, this`byName, this`tracked, this`nodes, nodes
      ensures Valid() && fresh(nodes - old(nodes))
      ensures forall key :: R.Planned(State(), contacts[1..], key) == R.Planned(old(State()), contacts, key)
      ensures R.PlannedKeys(State(), contacts[1..]) == R.PlannedKeys(old(State()), contacts)
    {
      hide CategoryMap, NumberMap, KidsMap, ParentMap, IndexMap, B.Inv, B.AddItem, R.Planned, R.PlannedKeys;
      KeysKnown();
      ghost var n, c := AddItemCallback(contact);
      if !B.Skipped(old(State()), contact) {
        R.AddItemPlanned(old(State()), n, c, contacts);
      } else {
        R.SkippedPlanned(State(), contacts);
      }
    }

    method AddAll(contacts: seq<B.Contact>)
      requires Valid() && R.Initials(contacts)
      modifies this`categories, this`byName, this`tracked, this`nodes, nodes
      ensures Valid() && fresh(nodes - old(nodes))
      ensures forall key :: R.Under(State(), key) == R.Planned(old(State()), contacts, key)
      ensures R.Keys(State()) == R.PlannedKeys(old(State()), contacts)
    {
      hide State, Valid, R.Planned, R.PlannedKeys, R.Under, R.Keys;
      for i := 0 to |contacts|
        invariant Valid() && fresh(nodes - old(nodes))
        invariant forall key :: R.Planned(State(), contacts[i..], key) == R.Planned(old(State()), contacts, key)
        invariant R.PlannedKeys(State(), contacts[i..]) == R.PlannedKeys(old(State()), contacts)
      {
        assert contacts[i..][0] == contacts[i] && contacts[i..][1..] == contacts[i + 1..];
        AddPlanned(contacts[i..], contacts[i]);
      }
      R.PlanDone(State());
    }

    /** The reloaded tree groups the contacts by initial. */
    method ReloadCategories(contacts: seq<B.Contact>)
      requires R.Initials(contacts)
      modifies this`categories, this`byName, this`tracked, this`nodes
      ensures Valid() && fresh(nodes)
      ensures forall key :: R.Under(State(), key) == R.WithInitial(R.Firsts(contacts, {}), key)
      ensures
        var firsts := R.Firsts(contacts, {});
        R.Keys(State()) == if displayPopular then [B.POPULAR_KEY] + R.NewInitials(firsts, {B.POPULAR_KEY})
                           else R.NewInitials(firsts, {})
    {
      hide CategoryMap, NumberMap, KidsMap, ParentMap, IndexMap, B.Inv, R.Under, R.Keys, R.Planned, R.PlannedKeys;
      Clear();
      R.PlanFrom(State(), contacts);
      AddAll(contacts);
    }

    // ----- Removing -----

    method Renumber(list: seq<BookmarkNode>)
      requires forall i :: 0 <= i < |list| ==> list[i] in nodes
      modifies list`index
      ensures State() == old(State()).(idx := B.Renumber(old(State()).idx, list))
    {
      hide CategoryMap, NumberMap, KidsMap, ParentMap, IndexMap;
      ghost var s := State();
      for i := 0 to |list|
        invariant State() == s.(idx := State().idx)
        invariant B.Renumber(State().idx, list[i..]) == B.Renumber(s.idx, list)
      {
        FieldsOf(list[i]);
        assert list[i..][0] == list[i] && list[i..][1..] == list[i + 1..];
        SetIndex(list[i], list[i].index - 1);
      }
    }

    twostate lemma LeafDropped(n: BookmarkNode)
      requires n in old(nodes) && n.contact.Some? && nodes == old(nodes) - {n}
      requires forall m :: m in nodes ==>
                 m.children == old(m.children) && m.parent == old(m.parent) && m.index == old(m.index)
      ensures CategoryMap() == old(CategoryMap())
      ensures NumberMap() == old(NumberMap()) - {n}
      ensures KidsMap() == old(KidsMap())
      ensures ParentMap() == old(ParentMap()) - {n}
      ensures IndexMap() == old(IndexMap()) - {n}
    {
    }

    method DropLeaf(n: BookmarkNode)
      requires n in nodes && n.contact.Some?
      modifies this`nodes
      ensures nodes == old(nodes) - {n}
      ensures
        var s := old(State());
        State() == s.(number := s.number - {n}, par := s.par - {n}, idx := s.idx - {n})
    {
      hide CategoryMap, NumberMap, KidsMap, ParentMap, IndexMap;
      nodes := nodes - {n};
      LeafDropped(n);
    }

    twostate lemma CategoryDropped(c: BookmarkNode)
      requires c in old(nodes) && c.contact.None? && nodes == old(nodes) - {c}
      requires forall m :: m in nodes ==>
                 m.children == old(m.children) && m.parent == old(m.parent) && m.index == old(m.index)
      ensures CategoryMap() == old(CategoryMap()) - {c}
      ensures NumberMap() == old(NumberMap())
      ensures KidsMap() == old(KidsMap()) - {c}
      ensures ParentMap() == old(ParentMap())
      ensures IndexMap() == old(IndexMap()) - {c}
    {
    }

    method DropCategory(c: BookmarkNode)
      requires c in nodes && c.contact.None?
      modifies this`nodes
      ensures nodes == old(nodes) - {c}
      ensures
        var s := old(State());
        State() == s.(category := s.category - {c}, kids := s.kids - {c}, idx := s.idx - {c})
    {
      hide CategoryMap, NumberMap, KidsMap, ParentMap, IndexMap;
      nodes := nodes - {c};
      CategoryDropped(c);
    }

    /** Takes a bookmark out of its category and moves the following ones up. */
    method RemoveLeaf(n: BookmarkNode)
      requires B.LeavesOk(State()) && n in State().number && n.parent != null
      modifies nodes, this`nodes
      ensures nodes == old(nodes) - {n}
      ensures State() == B.RemoveLeaf(old(State()), n, old(n.parent))
    {
      hide CategoryMap, NumberMap, KidsMap, ParentMap, IndexMap, B.Renumber, B.LeavesOk;
      ghost var s := State();
      KeysKnown();
      P.LeafHome(s, n);
      FieldsOf(n);
      var c := n.parent;
      FieldsOf(c);
      var rest := c.children[..n.index] + c.children[n.index + 1..];
      SetChildren(c, rest);
      Renumber(rest[n.index..]);
      DropLeaf(n);
    }

    /** The categories after c move one position up. */
    method Unlist(c: BookmarkNode)
      requires B.CategoriesOk(State()) && c in State().category
      modifies nodes`index, this`categories
      ensures
        var s := old(State());
        && State().cats == RemoveAt(s.cats, B.Idx(s, c))
        && State() == s.(cats := State().cats, idx := B.Renumber(s.idx, B.From(State().cats, B.Idx(s, c))))
    {
      hide CategoryMap, NumberMap, KidsMap, ParentMap, IndexMap, B.Renumber, B.CategoriesOk;
      P.CategoryHome(State(), c);
      KeysKnown();
      FieldsOf(c);
      var i := c.index;
      categories := categories[..i] + categories[i + 1..];
      Renumber(categories[i..]);
    }

    /** Takes an empty category off the list and moves the following ones up. */
    method RemoveCategory(c: BookmarkNode)
      requires B.CategoriesOk(State()) && c in State().category
      modifies nodes, this`nodes, this`categories, this`byName
      ensures nodes == old(nodes) - {c}
      ensures State() == B.RemoveCategory(old(State()), c)
    {
      hide CategoryMap, NumberMap, KidsMap, ParentMap, IndexMap, B.Renumber, B.CategoriesOk, RemoveAt, B.From, B.Idx;
      Unlist(c);
      KeysKnown();
      FieldsOf(c);
      byName := byName - {c.name};
      DropCategory(c);
    }

    /** A bookmark leaves its category; a category without bookmarks leaves too. */
    method RemoveNode(n: BookmarkNode)
      requires Valid() && n in State().number
      modifies nodes, this`nodes, this`categories, this`byName
      ensures State() == B.RemoveNode(old(State()), n)
    {
      hide CategoryMap, NumberMap, KidsMap, ParentMap, IndexMap;
      hide B.Inv, B.LeavesOk, B.CategoriesOk, B.NamesOk, B.RemoveLeaf, B.RemoveCategory, P.LeafGone;
      P.RemoveLeafKeeps(State(), n);
      P.RemovalHome(State(), n);
      ParentHome(n);
      var c := n.parent;
      RemoveLeaf(n);
      P.RemoveLeafHome(old(State()), n);
      CategoryKids(c);
      if c.children == [] {
        RemoveCategory(c);
      }
    }

    lemma ParentHome(n: BookmarkNode)
      requires n in State().par && n in State().number
      ensures n in nodes && n.contact.Some? && n.parent != null && State().par[n] == n.parent
    {
    }

    lemma CategoryKids(c: BookmarkNode)
      requires c in State().category
      ensures c in nodes && c.contact.None? && B.Kids(State(), c) == c.children
    {
    }

    method RemoveItemCallback(d: nat) returns (removed: bool)
      requires Valid()
      modifies this, nodes
      ensures Valid() && removed == (d in old(tracked))
      ensures State() == B.RemoveItem(old(State()), d)
    {
      hide CategoryMap, NumberMap, KidsMap, ParentMap, IndexMap, B.Inv, B.RemoveNode;
      P.RemoveItemKeeps(State(), d);
      removed := d in tracked;
      if removed {
        P.TrackedHome(State(), d);
        RemoveNode(tracked[d]);
        tracked := tracked - {d};
      }
    }

    // ----- Indexes -----

    method IndexAt(row: nat, column: int, parent: R.Index<BookmarkNode>) returns (idx: R.Index<BookmarkNode>)
      requires parent.At? ==> parent.node.Some? && parent.node.value in State().category
      ensures idx == R.IndexAt(State(), row, column, parent)
    {
      hide NumberMap, ParentMap, IndexMap;
      if column != 0 {
        idx := R.NoIndex;
      } else if parent.At? && parent.row < |categories| {
        var c := parent.node.value;
        CategoryKids(c);
        FieldsOf(c);
        if c.mostPopular {
          idx := R.At(row, column, None);
        } else {
          idx := if row < |c.children| then R.At(row, column, Some(c.children[row])) else R.NoIndex;
        }
      } else {
        idx := if row < |categories| then R.At(row, column, Some(categories[row])) else R.NoIndex;
      }
    }

    method ParentIndex(idx: R.Index<BookmarkNode>) returns (parent: R.Index<BookmarkNode>)
      requires Valid()
      requires idx.At? ==> if idx.node.None? then B.POPULAR_KEY in byName else idx.node.value in nodes
      ensures parent == R.ParentOf(State(), idx)
    {
      hide CategoryMap, NumberMap, KidsMap, ParentMap, IndexMap, B.Inv, R.IndexAt;
      P.HomesOf(State());
      KeysKnown();
      parent := R.NoIndex;
      if idx.At? {
        if idx.node.None? {
          var c := byName[B.POPULAR_KEY];
          FieldsOf(c);
          parent := IndexAt(c.index, 0, R.NoIndex);
        } else {
          FieldsOf(idx.node.value);
          if idx.node.value.contact.Some? {
            var c := idx.node.value.parent;
            FieldsOf(c);
            parent := IndexAt(c.index, 0, R.NoIndex);
          }
        }
      }
    }
  }
}
