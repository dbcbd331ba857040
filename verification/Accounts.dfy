/** Reconciling the list of accounts with the identifiers that the daemon lists. */
module Accounts {
  import opened Lists

  datatype Protocol = SIP | RING

  /** An account that has not been saved yet has no identifier. */
  datatype Row = Row(id: string, protocol: Protocol)

  function Ids(rows: seq<Row>): (ids: seq<string>)
    ensures |ids| == |rows| && forall i :: 0 <= i < |rows| ==> ids[i] == rows[i].id
  {
    seq(|rows|, i requires 0 <= i < |rows| => rows[i].id)
  }

  /** The accounts that the daemon still lists. */
  function Kept(rows: seq<Row>, ids: seq<string>): seq<Row> {
    if rows == [] then [] else (if rows[0].id in ids then [rows[0]] else []) + Kept(rows[1..], ids)
  }

  /** The identifiers that need a new account. The empty one never finds an account. */
  function Added(ids: seq<string>, known: set<string>): seq<string> {
    if ids == [] then []
    else if ids[0] != "" && ids[0] in known then Added(ids[1..], known)
    else [ids[0]] + Added(ids[1..], known + {ids[0]})
  }

  /** The identifiers of the accounts that are reloaded. */
  function Found(ids: seq<string>, known: set<string>): seq<string> {
    if ids == [] then []
    else if ids[0] != "" && ids[0] in known then [ids[0]] + Found(ids[1..], known)
    else Found(ids[1..], known + {ids[0]})
  }

  /** What the daemon says about an identifier; SIP is the default. */
  function ProtocolOf(protocols: map<string, Protocol>, id: string): Protocol {
    if id in protocols then protocols[id] else SIP
  }

  function Built(ids: seq<string>, protocols: map<string, Protocol>): (rows: seq<Row>)
    ensures |rows| == |ids| && forall i :: 0 <= i < |ids| ==> rows[i] == Row(ids[i], ProtocolOf(protocols, ids[i]))
  {
    seq(|ids|, i requires 0 <= i < |ids| => Row(ids[i], ProtocolOf(protocols, ids[i])))
  }

  /** The accounts that are left, in their order, and then the new ones in the daemon's order. */
  function Updated(rows: seq<Row>, ids: seq<string>, protocols: map<string, Protocol>): seq<Row> {
    var kept := Kept(rows, ids);
    kept + Built(Added(ids, Elements(Ids(kept))), protocols)
  }

  // ----- What an update leads to -----

  /** Saved accounts have different identifiers. */
  predicate SavedDistinct(rows: seq<Row>) {
    forall i, j :: 0 <= i < j < |rows| ==> rows[i].id == "" || rows[i].id != rows[j].id
  }

  lemma {:induction false} KeptAre(rows: seq<Row>, ids: seq<string>)
    ensures forall r :: r in Kept(rows, ids) <==> r in rows && r.id in ids
  {
    if rows != [] {
      KeptAre(rows[1..], ids);
      assert rows == [rows[0]] + rows[1..];
    }
  }

  lemma {:induction false} KeptDistinct(rows: seq<Row>, ids: seq<string>)
    requires SavedDistinct(rows) && "" !in ids
    ensures NoDup(Ids(Kept(rows, ids)))
  {
    if rows != [] {
      KeptDistinct(rows[1..], ids);
      KeptAre(rows[1..], ids);
      var rest := Kept(rows[1..], ids);
      if rows[0].id in ids {
        forall i | 0 <= i < |rest| ensures rest[i].id != rows[0].id {
          assert rest[i] in rows[1..];
        }
        assert Ids(Kept(rows, ids)) == [rows[0].id] + Ids(rest);
      } else {
        assert Kept(rows, ids) == rest;
      }
    }
  }

  lemma {:induction false} AddedAre(ids: seq<string>, known: set<string>)
    ensures forall id :: id in Added(ids, known) <==> id in ids && (id == "" || id !in known)
    ensures "" !in ids ==> NoDup(Added(ids, known))
  {
    if ids != [] {
      AddedAre(ids[1..], if ids[0] != "" && ids[0] in known then known else known + {ids[0]});
      assert ids == [ids[0]] + ids[1..];
    }
  }

  /** The identifiers that have no account yet. */
  function Unknown(ids: seq<string>, known: set<string>): seq<string> {
    if ids == [] then [] else (if ids[0] in known then [] else [ids[0]]) + Unknown(ids[1..], known)
  }

  lemma {:induction false} AddedDistinct(ids: seq<string>, known: set<string>, more: set<string>)
    requires NoDup(ids) && "" !in ids && forall id :: id in ids ==> id !in more
    ensures Added(ids, known + more) == Unknown(ids, known)
  {
    if ids != [] {
      assert ids == [ids[0]] + ids[1..];
      if ids[0] in known {
        AddedDistinct(ids[1..], known, more);
      } else {
        AddedDistinct(ids[1..], known, more + {ids[0]});
        assert known + more + {ids[0]} == known + (more + {ids[0]});
      }
    }
  }

  /**
    For distinct identifiers that are not empty, the list is the surviving accounts in their old order
    and then those that had no account, in the daemon's order; every identifier has one account.
   */
  lemma UpdateReconciles(rows: seq<Row>, ids: seq<string>, protocols: map<string, Protocol>)
    requires NoDup(ids) && "" !in ids && SavedDistinct(rows)
    ensures
      var kept := Kept(rows, ids);
      var all := Updated(rows, ids, protocols);
      && all == kept + Built(Unknown(ids, Elements(Ids(kept))), protocols)
      && NoDup(Ids(all)) && Elements(Ids(all)) == Elements(ids)
  {
    var kept := Kept(rows, ids);
    var known := Elements(Ids(kept));
    var news := Added(ids, known);
    AddedDistinct(ids, known, {});
    assert known + {} == known;
    AddedAre(ids, known);
    KeptAre(rows, ids);
    KeptDistinct(rows, ids);
    var all := Updated(rows, ids, protocols);
    assert Ids(all) == Ids(kept) + news;
    NoDupAppend(Ids(kept), news);
    forall id | id in Ids(kept) ensures id in ids {
      var i :| 0 <= i < |kept| && kept[i].id == id;
      assert kept[i] in kept;
    }
    forall id | id in ids ensures id in Ids(all) {
      if id !in known {
        assert id in news;
      }
    }
  }

  lemma {:induction false} KeptAll(rows: seq<Row>, ids: seq<string>)
    requires forall i :: 0 <= i < |rows| ==> rows[i].id in ids
    ensures Kept(rows, ids) == rows
  {
    if rows != [] {
      KeptAll(rows[1..], ids);
      assert rows == [rows[0]] + rows[1..];
    }
  }

  lemma IdsAppend(a: seq<Row>, ids: seq<string>, protocols: map<string, Protocol>)
    ensures Ids(a + Built(ids, protocols)) == Ids(a) + ids
  {
  }

  /** Whatever the daemon lists, exactly those identifiers have an account afterwards. */
  lemma UpdateCovers(rows: seq<Row>, ids: seq<string>, protocols: map<string, Protocol>)
    ensures Elements(Ids(Updated(rows, ids, protocols))) == Elements(ids)
  {
    hide Kept, Added, Ids, Built;
    var kept := Kept(rows, ids);
    var known := Elements(Ids(kept));
    var news := Added(ids, known);
    IdsAppend(kept, news, protocols);
    KeptIds(rows, ids);
    AddedAre(ids, known);
    forall id | id in ids ensures id in Ids(kept) + news {
      assert id in known || id in news;
    }
  }

  lemma KeptIds(rows: seq<Row>, ids: seq<string>)
    ensures forall id :: id in Ids(Kept(rows, ids)) ==> id in ids
  {
    KeptAre(rows, ids);
    var kept := Kept(rows, ids);
    forall i | 0 <= i < |kept| ensures kept[i].id in ids {
      assert kept[i] in kept;
    }
  }

  /** A second update finds nothing to do exactly if no identifier is empty. */
  lemma SecondUpdate(rows: seq<Row>, ids: seq<string>, protocols: map<string, Protocol>)
    ensures
      var once := Updated(rows, ids, protocols);
      && (Updated(once, ids, protocols) == once <==> "" !in ids)
      && once <= Updated(once, ids, protocols)
  {
    var once := Updated(rows, ids, protocols);
    UpdateCovers(rows, ids, protocols);
    AlreadyUpdated(once, ids, protocols);
  }

  lemma {:induction false} AddedNothing(ids: seq<string>, known: set<string>)
    requires "" !in ids && forall id :: id in ids ==> id in known
    ensures Added(ids, known) == []
  {
    if ids != [] {
      assert ids[0] in ids;
      AddedNothing(ids[1..], known);
    }
  }

  lemma AlreadyUpdated(once: seq<Row>, ids: seq<string>, protocols: map<string, Protocol>)
    requires Elements(Ids(once)) == Elements(ids)
    ensures Updated(once, ids, protocols) == once <==> "" !in ids
    ensures once <= Updated(once, ids, protocols)
  {
    hide Added, Kept;
    forall i | 0 <= i < |once| ensures once[i].id in ids {
      assert Ids(once)[i] in Elements(Ids(once));
    }
    KeptAll(once, ids);
    var news := Added(ids, Elements(ids));
    AddedAre(ids, Elements(ids));
    if "" in ids {
      assert "" in news;
    } else {
      AddedNothing(ids, Elements(ids));
    }
  }
}
