/** The item model over the call tree: indexes, parents and look-ups. */
module CallForestIndex {
  import opened Options
  import opened Lists
  import opened CallForest
  import opened CallForestShape

  /** A valid index remembers its row, its column and its node. */
  datatype Index<N> = NoIndex | At(row: nat, column: int, node: N)

  function IndexAt<N>(s: Forest<N>, row: int, column: int, parent: Index<N>): Index<N> {
    if parent.NoIndex? then
      if 0 <= row < |s.top| then At(row, column, s.top[row]) else NoIndex
    else if row < 0 || parent.row >= |s.top| then NoIndex
    else
      var kids := Kids(s, s.top[parent.row]);
      if row < |kids| then At(row, column, kids[row]) else NoIndex
  }

  /** A parent that is no longer at top level counts as no parent. */
  function ParentOf<N(==)>(s: Forest<N>, idx: Index<N>): Index<N> {
    if idx.NoIndex? || idx.node !in s.par then NoIndex
    else
      var row := IndexOf(s.top, s.par[idx.node]);
      if row == -1 then NoIndex else IndexAt(s, row, 0, NoIndex)
  }

  /** The node whose call an index shows. */
  function NodeAt<N(==)>(s: Forest<N>, idx: Index<N>): Option<N> {
    if idx.NoIndex? then None
    else
      var parent := ParentOf(s, idx);
      if parent.NoIndex? then
        if idx.row < |s.top| then Some(s.top[idx.row]) else None
      else if parent.row < |s.top| then
        var c := s.top[parent.row];
        if IsConference(s, c) && idx.row < |Kids(s, c)| then Some(Kids(s, c)[idx.row]) else None
      else None
  }

  /** The first of the given nodes that has n as a child, with the row of n under it. */
  function FindChild<N(==)>(s: Forest<N>, nodes: seq<N>, n: N): (r: Option<(N, nat)>)
    ensures r.Some? ==> r.value.0 in nodes && IndexOf(Kids(s, r.value.0), n) == r.value.1
    ensures r.None? ==> forall i :: 0 <= i < |nodes| ==> n !in Kids(s, nodes[i])
  {
    if nodes == [] then None
    else
      var row := IndexOf(Kids(s, nodes[0]), n);
      if row != -1 then Some((nodes[0], row)) else FindChild(s, nodes[1..], n)
  }

  function GetIndex<N(==)>(s: Forest<N>, n: N): Index<N> {
    var row := IndexOf(s.top, n);
    if row != -1 then IndexAt(s, row, 0, NoIndex)
    else
      match FindChild(s, s.top, n)
      case None => NoIndex
      case Some((c, child)) => IndexAt(s, child, 0, IndexAt(s, IndexOf(s.top, c), 0, NoIndex))
  }

  lemma IndexOfAt<T>(xs: seq<T>, i: nat)
    requires NoDup(xs) && i < |xs|
    ensures IndexOf(xs, xs[i]) == i
  {
  }

  /** At top level the parent is nobody, even for a node that still names a removed conference. */
  lemma ParentOfTop<N>(s: Forest<N>, row: nat, column: int)
    requires Shape(s) && row < |s.top|
    ensures ParentOf(s, IndexAt(s, row, column, NoIndex)) == NoIndex
  {
    assert s.top[row] in s.top;
  }

  /** Under a conference the parent of an index is the index it was asked under. */
  lemma ParentOfChild<N>(s: Forest<N>, r: nat, row: nat, column: int)
    requires Shape(s) && r < |s.top| && row < |Kids(s, s.top[r])|
    ensures
      var parent := IndexAt(s, r, 0, NoIndex);
      ParentOf(s, IndexAt(s, row, column, parent)) == parent
  {
    assert s.top[r] in s.top && Kids(s, s.top[r])[row] in s.kids[s.top[r]];
    IndexOfAt(s.top, r);
  }

  /** A node has an index exactly when it is in the tree, and the index reads the node back. */
  lemma IndexReadsBack<N>(s: Forest<N>, n: N)
    requires Shape(s)
    ensures GetIndex(s, n).At? <==> Placed(s, n)
    ensures Placed(s, n) ==> GetIndex(s, n).node == n && NodeAt(s, GetIndex(s, n)) == Some(n)
  {
    if n in s.top {
      ParentOfTop(s, IndexOf(s.top, n), 0);
    } else {
      var found := FindChild(s, s.top, n);
      if found.Some? {
        var (c, row) := found.value;
        assert c in s.top && n in s.kids[c];
        ParentOfChild(s, IndexOf(s.top, c), row, 0);
      }
    }
  }
}
