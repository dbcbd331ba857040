/** Signer chains of certificates, and when following one comes to an end. */
module SignerChains {
  import opened Options

  /** The next certificate of a chain; a certificate without signer or signed by itself is the last one. */
  function Next<C(==)>(signer: map<C, C>, c: C): Option<C> {
    if c in signer && signer[c] != c then Some(signer[c]) else None
  }

  /** The certificate n steps up the chain. */
  function Up<C(==)>(signer: map<C, C>, c: C, n: nat): Option<C> {
    if n == 0 then Some(c)
    else match Up(signer, c, n - 1) case None => None case Some(d) => Next(signer, d)
  }

  /** The chain of c has n certificates. */
  predicate Ends<C(==)>(signer: map<C, C>, c: C, n: nat) {
    n > 0 && Up(signer, c, n - 1).Some? && Up(signer, c, n).None?
  }

  /** Nothing comes twice on the way up from c. */
  ghost predicate NoCycle<C>(signer: map<C, C>, c: C) {
    forall i: nat, j: nat :: i < j && Up(signer, c, j).Some? ==> Up(signer, c, i) != Up(signer, c, j)
  }

  lemma {:induction false} UpDefinedBelow<C>(signer: map<C, C>, c: C, i: nat, j: nat)
    requires i <= j && Up(signer, c, j).Some?
    ensures Up(signer, c, i).Some?
    decreases j
  {
    if i < j {
      UpDefinedBelow(signer, c, i, j - 1);
    }
  }

  lemma {:induction false} UpPeriodic<C>(signer: map<C, C>, c: C, i: nat, j: nat, k: nat)
    requires Up(signer, c, i) == Up(signer, c, j)
    ensures Up(signer, c, i + k) == Up(signer, c, j + k)
    decreases k
  {
    if k > 0 {
      UpPeriodic(signer, c, i, j, k - 1);
    }
  }

  function Seen<C(==)>(signer: map<C, C>, c: C, n: nat): set<C> {
    if n == 0 then {}
    else match Up(signer, c, n - 1) case None => Seen(signer, c, n - 1) case Some(d) => Seen(signer, c, n - 1) + {d}
  }

  lemma {:induction false} SeenOnlyBelow<C>(signer: map<C, C>, c: C, n: nat, d: C)
    requires d in Seen(signer, c, n)
    ensures exists i: nat :: i < n && Up(signer, c, i) == Some(d)
    decreases n
  {
    if Up(signer, c, n - 1) != Some(d) {
      SeenOnlyBelow(signer, c, n - 1, d);
    }
  }

  /** Without repetitions, n steps need n certificates that have a signer. */
  lemma {:induction false} SeenGrows<C>(signer: map<C, C>, c: C, n: nat)
    requires NoCycle(signer, c) && Up(signer, c, n).Some?
    ensures |Seen(signer, c, n)| == n && Seen(signer, c, n) <= signer.Keys
    decreases n
  {
    if n > 0 {
      SeenGrows(signer, c, n - 1);
      var d := Up(signer, c, n - 1).value;
      if d in Seen(signer, c, n - 1) {
        SeenOnlyBelow(signer, c, n - 1, d);
      }
    }
  }

  lemma CardinalityOfSubset<C>(a: set<C>, b: set<C>)
    requires a <= b
    ensures |a| <= |b|
  {
    assert b == a + (b - a);
  }

  /** An end is found among the steps below n, if there is none at step n. */
  lemma {:induction false} FirstEnd<C>(signer: map<C, C>, c: C, n: nat) returns (m: nat)
    requires Up(signer, c, n).None?
    ensures Ends(signer, c, m) && m <= n
    decreases n
  {
    if Up(signer, c, n - 1).Some? {
      m := n;
    } else {
      m := FirstEnd(signer, c, n - 1);
    }
  }

  /** Following the signers comes to an end exactly if it never comes back to a certificate. */
  lemma EndsExactly<C>(signer: map<C, C>, c: C)
    ensures (exists n :: Ends(signer, c, n)) <==> NoCycle(signer, c)
  {
    if NoCycle(signer, c) {
      var n := |signer.Keys| + 1;
      if Up(signer, c, n).Some? {
        SeenGrows(signer, c, n);
        CardinalityOfSubset(Seen(signer, c, n), signer.Keys);
      } else {
        var m := FirstEnd(signer, c, n);
      }
    }
    if exists n :: Ends(signer, c, n) {
      var n :| Ends(signer, c, n);
      EndsWithoutCycle(signer, c, n);
    }
  }

  lemma EndsWithoutCycle<C>(signer: map<C, C>, c: C, n: nat)
    requires Ends(signer, c, n)
    ensures NoCycle(signer, c)
  {
    forall i: nat, j: nat | i < j && Up(signer, c, j).Some? ensures Up(signer, c, i) != Up(signer, c, j) {
      if j >= n {
        UpDefinedBelow(signer, c, n, j);
      } else if Up(signer, c, i) == Up(signer, c, j) {
        UpPeriodic(signer, c, i, j, n - j);
        UpDefinedBelow(signer, c, i + (n - j), n - 1);
      }
    }
  }

  /** The chain has one length only. */
  lemma EndsOnce<C>(signer: map<C, C>, c: C, m: nat, n: nat)
    requires Ends(signer, c, m) && Ends(signer, c, n)
    ensures m == n
  {
    if m < n {
      UpDefinedBelow(signer, c, m, n - 1);
    } else if n < m {
      UpDefinedBelow(signer, c, n, m - 1);
    }
  }

  /** Two certificates that sign each other keep the chain from ending. */
  lemma MutualSignersNeverEnd(n: nat)
    ensures !Ends(map[0 := 1, 1 := 0], 0, n)
  {
    var signer := map[0 := 1, 1 := 0];
    assert Up(signer, 0, 1) == Some(1);
    assert Up(signer, 0, 2) == Some(0) == Up(signer, 0, 0);
    if Ends(signer, 0, n) {
      EndsWithoutCycle(signer, 0, n);
    }
  }
}

/** The chain of trust of a certificate as a tree with a single branch, from the root to the certificate. */
module ChainOfTrust {
  import opened Options
  import opened Lists
  import opened SignerChains

  class ChainedCertificateNode<C> {
    const certificate: C
    var parent: ChainedCertificateNode?<C>
    var child: ChainedCertificateNode?<C>

    constructor (certificate: C, child: ChainedCertificateNode?<C>)
      ensures this.certificate == certificate && this.child == child && parent == null
    {
      this.certificate, this.child, parent := certificate, child, null;
    }
  }

  /** The index below the last node is valid, but has no node. */
  datatype Index<N> = NoIndex | At(node: Option<N>)

  class ChainOfTrustModel<C(==)> {
    const certificate: C
    var root: ChainedCertificateNode<C>
    ghost var nodes: seq<ChainedCertificateNode<C>>

    /** A doubly linked list from the root down. */
    static ghost predicate Linked(list: seq<ChainedCertificateNode<C>>)
      reads list
    {
      forall i :: 0 <= i < |list| ==> LinkedAt(list, i)
    }

    static ghost predicate LinkedAt(list: seq<ChainedCertificateNode<C>>, i: nat)
      requires i < |list|
      reads list[i]
    {
      && list[i].parent == (if i == 0 then null else list[i - 1])
      && list[i].child == (if i == |list| - 1 then null else list[i + 1])
    }

    ghost predicate Valid()
      reads this, nodes
    {
      nodes != [] && root == nodes[0] && Linked(nodes) && NoDup(nodes)
    }

    /** The nodes are the reversed signer chain of the certificate. */
    ghost predicate Shows(signer: map<C, C>)
      reads this
    {
      Ends(signer, certificate, |nodes|) && Reversed(signer, certificate, nodes)
    }

    static ghost predicate Reversed(signer: map<C, C>, c: C, list: seq<ChainedCertificateNode<C>>) {
      forall i :: 0 <= i < |list| ==> Up(signer, c, |list| - 1 - i) == Some(list[i].certificate)
    }

    constructor (c: C, signer: map<C, C>)
      requires NoCycle(signer, c)
      ensures certificate == c && Valid() && Shows(signer) && fresh(nodes)
      ensures nodes[|nodes| - 1].certificate == c
    {
      EndsExactly(signer, c);
      ghost var length: nat :| Ends(signer, c, length);
      var cn: Option<C> := Some(c);
      var n: ChainedCertificateNode?<C> := null;
      ghost var list: seq<ChainedCertificateNode<C>> := [];
      while cn.Some?
        invariant |list| <= length && cn == Up(signer, c, |list|) && fresh(list)
        invariant Linked(list) && NoDup(list) && Reversed(signer, c, list)
        invariant n == if list == [] then null else list[0]
        decreases length - |list|
      {
        var prev := n;
        label Grow:
        n := new ChainedCertificateNode(cn.value, prev);
        if prev != null {
          prev.parent := n;
        }
        ghost var below := list;
        list := [n] + list;
        forall i | 0 <= i < |list| ensures LinkedAt(list, i) {
          if i > 0 {
            assert list[i] == below[i - 1];
            assert old@Grow(LinkedAt(below, i - 1)) && (i > 1 ==> below[i - 1] != below[0]);
          }
        }
        cn := if cn.value in signer && signer[cn.value] != cn.value then Some(signer[cn.value]) else None;
      }
      certificate := c;
      root := n;
      nodes := list;
    }

    // ----- Rows and indexes -----

    static predicate HasNode(idx: Index<ChainedCertificateNode<C>>) {
      idx.At? ==> idx.node.Some?
    }

    function RowCount(parent: Index<ChainedCertificateNode<C>>): (rows: nat)
      requires HasNode(parent)
      reads if parent.At? && parent.node.Some? then {parent.node.value} else {}
      ensures parent.At? ==> (rows == 0 <==> parent.node.value.child == null)
    {
      if parent.NoIndex? then 1 else if parent.node.value.child != null then 1 else 0
    }

    function IndexAt(row: int, column: int, parent: Index<ChainedCertificateNode<C>>): Index<ChainedCertificateNode<C>>
      requires HasNode(parent)
      reads this, if parent.At? && parent.node.Some? then {parent.node.value} else {}
    {
      if row != 0 || column != 0 then NoIndex
      else if parent.NoIndex? then At(Some(root))
      else if parent.node.value.child == null then At(None)
      else
        var child: ChainedCertificateNode<C> := parent.node.value.child;
        At(Some(child))
    }

    function ParentOf(idx: Index<ChainedCertificateNode<C>>): Index<ChainedCertificateNode<C>>
      requires HasNode(idx)
      reads if idx.At? && idx.node.Some? then {idx.node.value} else {}
    {
      if idx.NoIndex? then NoIndex
      else if idx.node.value.parent == null then NoIndex
      else
        var parent: ChainedCertificateNode<C> := idx.node.value.parent;
        At(Some(parent))
    }

    /** The index of the i-th node from the root. */
    ghost function Row(i: nat): Index<ChainedCertificateNode<C>>
      requires i < |nodes|
      reads this
    {
      At(Some(nodes[i]))
    }

    /** The parent of an index is the index it was asked from, and only the viewed certificate has no rows. */
    lemma ParentInvertsIndex(i: nat)
      requires Valid() && i < |nodes|
      ensures ParentOf(Row(i)) == if i == 0 then NoIndex else Row(i - 1)
      ensures IndexAt(0, 0, ParentOf(Row(i))) == Row(i)
      ensures RowCount(Row(i)) == if i == |nodes| - 1 then 0 else 1
      ensures RowCount(Row(i)) > 0 ==> HasNode(IndexAt(0, 0, Row(i))) && ParentOf(IndexAt(0, 0, Row(i))) == Row(i)
    {
      assert LinkedAt(nodes, i);
      assert i < |nodes| - 1 ==> LinkedAt(nodes, i + 1);
      assert i > 0 ==> LinkedAt(nodes, i - 1);
    }

    /** Walking down from the root, as long as there are rows, shows the signer chain from its end back to c. */
    method Walk(ghost signer: map<C, C>) returns (walk: seq<C>)
      requires Valid() && Shows(signer)
      ensures Ends(signer, certificate, |walk|)
      ensures forall i :: 0 <= i < |walk| ==> Up(signer, certificate, |walk| - 1 - i) == Some(walk[i])
    {
      var idx := IndexAt(0, 0, NoIndex);
      walk := [root.certificate];
      ghost var i: nat := 0;
      ParentInvertsIndex(0);
      while RowCount(idx) > 0
        invariant i < |nodes| && idx == Row(i) && HasNode(idx)
        invariant |walk| == i + 1 && forall k :: 0 <= k <= i ==> walk[k] == nodes[k].certificate
        invariant RowCount(idx) == if i == |nodes| - 1 then 0 else 1
        decreases |nodes| - i
      {
        ParentInvertsIndex(i);
        ParentInvertsIndex(i + 1);
        idx := IndexAt(0, 0, idx);
        walk := walk + [idx.node.value.certificate];
        i := i + 1;
      }
    }
  }
}
