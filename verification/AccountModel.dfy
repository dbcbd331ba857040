/** The list of accounts, with one list per protocol kept beside it. */
module AccountModels {
  import opened Lists
  import opened Accounts

  class Account {
    var id: string
    const protocol: Protocol

    constructor (id: string, protocol: Protocol)
      ensures this.id == id && this.protocol == protocol
    {
      this.id, this.protocol := id, protocol;
    }

    function Value(): Row
      reads this
    {
      Row(id, protocol)
    }
  }

  class AccountModel {
    var accounts: seq<Account>
    var sipAccounts: seq<Account>
    var ringAccounts: seq<Account>
    var removedAccounts: seq<Account>
    var deletedIds: seq<string>
    var reloaded: seq<string>       // the identifiers whose account got a RELOAD action

    static ghost function Values(accounts: seq<Account>): (rows: seq<Row>)
      reads accounts
      ensures |rows| == |accounts| && forall i :: 0 <= i < |accounts| ==> rows[i] == accounts[i].Value()
    {
      seq(|accounts|, i requires 0 <= i < |accounts| reads accounts => accounts[i].Value())
    }

    static function OfProtocol(accounts: seq<Account>, protocol: Protocol): seq<Account> {
      if accounts == [] then []
      else (if accounts[0].protocol == protocol then [accounts[0]] else []) + OfProtocol(accounts[1..], protocol)
    }

    static ghost function KeptOf(accounts: seq<Account>, ids: seq<string>): seq<Account>
      reads accounts`id
    {
      if accounts == [] then []
      else (if accounts[0].id in ids then [accounts[0]] else []) + KeptOf(accounts[1..], ids)
    }

    static ghost function GoneOf(accounts: seq<Account>, ids: seq<string>): seq<Account>
      reads accounts`id
    {
      if accounts == [] then []
      else (if accounts[0].id in ids then [] else [accounts[0]]) + GoneOf(accounts[1..], ids)
    }

    static ghost function IdsOf(accounts: seq<Account>): seq<string>
      reads accounts`id
    {
      if accounts == [] then [] else IdsOf(accounts[..|accounts| - 1]) + [accounts[|accounts| - 1].id]
    }

    ghost function Rows(): (rows: seq<Row>)
      reads this`accounts, accounts
    {
      Values(accounts)
    }

    /** The lists per protocol partition the list of accounts. */
    ghost predicate Valid()
      reads this
    {
      && NoDup(accounts)
      && sipAccounts == OfProtocol(accounts, SIP) && ringAccounts == OfProtocol(accounts, RING)
    }

    constructor ()
      ensures Valid() && accounts == [] && removedAccounts == [] && deletedIds == [] && reloaded == []
    {
      accounts, sipAccounts, ringAccounts, removedAccounts, deletedIds, reloaded := [], [], [], [], [], [];
    }

    static lemma {:induction false} OfProtocolConcat(a: seq<Account>, b: seq<Account>, protocol: Protocol)
      ensures OfProtocol(a + b, protocol) == OfProtocol(a, protocol) + OfProtocol(b, protocol)
    {
      if a == [] {
        assert a + b == b;
      } else {
        OfProtocolConcat(a[1..], b, protocol);
        assert (a + b)[1..] == a[1..] + b;
      }
    }

    static lemma {:induction false} OfProtocolAre(accounts: seq<Account>, protocol: Protocol)
      ensures forall a :: a in OfProtocol(accounts, protocol) <==> a in accounts && a.protocol == protocol
    {
      if accounts != [] {
        OfProtocolAre(accounts[1..], protocol);
        assert accounts == [accounts[0]] + accounts[1..];
      }
    }

    static lemma NoneOfProtocol(accounts: seq<Account>, protocol: Protocol)
      ensures OfProtocol(accounts, protocol) == [] <==> forall a :: a in accounts ==> a.protocol != protocol
    {
      OfProtocolAre(accounts, protocol);
      if OfProtocol(accounts, protocol) != [] {
        assert OfProtocol(accounts, protocol)[0] in OfProtocol(accounts, protocol);
      }
    }

    /** Every account is in exactly one of the lists per protocol. */
    static lemma {:induction false} Partition(accounts: seq<Account>)
      ensures multiset(OfProtocol(accounts, SIP)) + multiset(OfProtocol(accounts, RING)) == multiset(accounts)
    {
      if accounts != [] {
        Partition(accounts[1..]);
        assert accounts == [accounts[0]] + accounts[1..];
      }
    }

    static lemma RemoveFirstStep(first: seq<Account>, rest: seq<Account>, a: Account)
      requires |first| <= 1 && a !in first
      ensures RemoveFirst(first + rest, a) == first + RemoveFirst(rest, a)
    {
      if first == [] {
        assert first + rest == rest && first + RemoveFirst(rest, a) == RemoveFirst(rest, a);
      } else {
        assert (first + rest)[1..] == rest;
      }
    }

    static lemma {:induction false} OfProtocolRemove(accounts: seq<Account>, a: Account, protocol: Protocol)
      requires NoDup(accounts)
      ensures OfProtocol(RemoveFirst(accounts, a), protocol) == RemoveFirst(OfProtocol(accounts, protocol), a)
    {
      if accounts != [] {
        var rest := accounts[1..];
        OfProtocolAre(rest, protocol);
        assert accounts == [accounts[0]] + rest;
        if accounts[0] == a {
          NotInRest(accounts);
        } else {
          hide RemoveFirst;
          OfProtocolRemove(rest, a, protocol);
          RemoveFirstStep([accounts[0]], rest, a);
          var first := if accounts[0].protocol == protocol then [accounts[0]] else [];
          RemoveFirstStep(first, OfProtocol(rest, protocol), a);
          assert ([accounts[0]] + RemoveFirst(rest, a))[1..] == RemoveFirst(rest, a);
        }
      }
    }

    static lemma NotInRest(accounts: seq<Account>)
      requires accounts != [] && NoDup(accounts)
      ensures accounts[0] !in accounts[1..]
    {
    }

    static function Inserted(accounts: seq<Account>, a: Account, idx: nat): seq<Account>
      requires idx <= |accounts|
    {
      accounts[..idx] + [a] + accounts[idx..]
    }

    static lemma InsertedSplits(accounts: seq<Account>, a: Account, idx: nat, protocol: Protocol)
      requires idx <= |accounts|
      ensures OfProtocol(Inserted(accounts, a, idx), protocol)
           == OfProtocol(accounts[..idx], protocol) + (if a.protocol == protocol then [a] else [])
            + OfProtocol(accounts[idx..], protocol)
      ensures OfProtocol(accounts, protocol)
           == OfProtocol(accounts[..idx], protocol) + OfProtocol(accounts[idx..], protocol)
    {
      var front, behind := accounts[..idx], accounts[idx..];
      OfProtocolConcat(front, behind, protocol);
      OfProtocolConcat(front, [a], protocol);
      assert OfProtocol([a], protocol) == if a.protocol == protocol then [a] else [];
      hide OfProtocol;
      OfProtocolConcat(front + [a], behind, protocol);
      assert accounts == front + behind;
    }

    /** An element can be moved to the end exactly if nothing is behind it. */
    static lemma MovesToEnd(front: seq<Account>, a: Account, behind: seq<Account>)
      requires a !in behind
      ensures front + [a] + behind == front + behind + [a] <==> behind == []
    {
      if behind != [] {
        assert (front + [a] + behind)[|front|] == a;
        assert (front + behind + [a])[|front|] == behind[0];
      }
    }

    /** Appending to the list of the protocol is right exactly if no such account comes behind. */
    static lemma InsertedAppends(accounts: seq<Account>, a: Account, idx: nat)
      requires idx <= |accounts| && a !in accounts
      ensures OfProtocol(Inserted(accounts, a, idx), a.protocol) == OfProtocol(accounts, a.protocol) + [a]
         <==> forall b :: b in accounts[idx..] ==> b.protocol != a.protocol
      ensures forall p :: p != a.protocol ==> OfProtocol(Inserted(accounts, a, idx), p) == OfProtocol(accounts, p)
    {
      hide OfProtocol, Inserted;
      forall p | p != a.protocol ensures OfProtocol(Inserted(accounts, a, idx), p) == OfProtocol(accounts, p) {
        InsertedSplits(accounts, a, idx, p);
        assert OfProtocol(accounts[..idx], p) + [] == OfProtocol(accounts[..idx], p);
      }
      InsertedSplits(accounts, a, idx, a.protocol);
      var behind := OfProtocol(accounts[idx..], a.protocol);
      NoneOfProtocol(accounts[idx..], a.protocol);
      OfProtocolAre(accounts[idx..], a.protocol);
      MovesToEnd(OfProtocol(accounts[..idx], a.protocol), a, behind);
    }

    static lemma InsertedDistinct(accounts: seq<Account>, a: Account, idx: nat)
      requires idx <= |accounts| && a !in accounts && NoDup(accounts)
      ensures NoDup(Inserted(accounts, a, idx))
    {
      NoDupAppend(accounts[..idx], [a]);
      NoDupAppend(accounts[..idx] + [a], accounts[idx..]);
    }

    /**
      The one place where the list receives accounts. The list of the protocol gets the account at its end,
      wherever it was inserted.
     */
    method InsertAccount(a: Account, idx: nat)
      requires Valid() && a !in accounts && idx <= |accounts|
      modifies this`accounts, this`sipAccounts, this`ringAccounts
      ensures accounts == Inserted(old(accounts), a, idx)
      ensures sipAccounts == old(sipAccounts) + if a.protocol == SIP then [a] else []
      ensures ringAccounts == old(ringAccounts) + if a.protocol == RING then [a] else []
      ensures Valid() <==> forall b :: b in old(accounts)[idx..] ==> b.protocol != a.protocol
    {
      hide OfProtocol, NoDup;
      InsertedAppends(accounts, a, idx);
      InsertedDistinct(accounts, a, idx);
      accounts := accounts[..idx] + [a] + accounts[idx..];
      match a.protocol
      case SIP => sipAccounts := sipAccounts + [a];
      case RING => ringAccounts := ringAccounts + [a];
    }

    method AppendAccount(a: Account)
      requires Valid() && a !in accounts
      modifies this`accounts, this`sipAccounts, this`ringAccounts
      ensures Valid() && accounts == old(accounts) + [a]
    {
      hide OfProtocol, NoDup;
      InsertAccount(a, |accounts|);
    }

    method RemoveOne(list: seq<Account>, a: Account) returns (rest: seq<Account>)
      ensures rest == RemoveFirst(list, a)
    {
      hide RemoveFirst;
      var at := IndexOf(list, a);
      rest := list;
      if at != -1 {
        RemoveFirstAt(list, a);
        rest := list[..at] + list[at + 1..];
      }
    }

    method Remove(a: Account)
      requires Valid() && a in accounts
      modifies this`accounts, this`sipAccounts, this`ringAccounts, this`removedAccounts, this`deletedIds
      ensures Valid() && accounts == RemoveFirst(old(accounts), a)
      ensures removedAccounts == old(removedAccounts) + [a] && deletedIds == old(deletedIds) + [a.id]
    {
      hide RemoveFirst;
      OfProtocolRemove(accounts, a, SIP);
      OfProtocolRemove(accounts, a, RING);
      OfProtocolAre(accounts, if a.protocol == SIP then RING else SIP);
      accounts := RemoveOne(accounts, a);
      deletedIds := deletedIds + [a.id];
      removedAccounts := removedAccounts + [a];
      match a.protocol
      case RING => ringAccounts := RemoveOne(ringAccounts, a);
      case SIP => sipAccounts := RemoveOne(sipAccounts, a);
    }

    /** The empty identifier finds nothing; new accounts are never found. */
    method GetById(id: string) returns (a: Account?)
      ensures a != null ==> a in accounts && a.id == id && id != ""
      ensures a == null <==> id == "" || id !in Ids(Rows())
    {
      if id == "" {
        return null;
      }
      for i := 0 to |accounts|
        invariant id !in Ids(Rows())[..i]
      {
        if accounts[i].id != "" && accounts[i].id == id {
          assert Ids(Rows())[i] == id;
          return accounts[i];
        }
      }
      return null;
    }

    // ----- Following the daemon -----

    static lemma {:induction false} KeptOfAppend(a: seq<Account>, b: seq<Account>, ids: seq<string>)
      ensures KeptOf(a + b, ids) == KeptOf(a, ids) + KeptOf(b, ids)
      ensures GoneOf(a + b, ids) == GoneOf(a, ids) + GoneOf(b, ids)
    {
      if a == [] {
        assert a + b == b;
      } else {
        KeptOfAppend(a[1..], b, ids);
        assert (a + b)[1..] == a[1..] + b;
        Assoc(if a[0].id in ids then [a[0]] else [], KeptOf(a[1..], ids), KeptOf(b, ids));
        Assoc(if a[0].id in ids then [] else [a[0]], GoneOf(a[1..], ids), GoneOf(b, ids));
      }
    }

    static lemma {:induction false} KeptOfAre(accounts: seq<Account>, ids: seq<string>)
      ensures forall i :: 0 <= i < |KeptOf(accounts, ids)| ==> KeptOf(accounts, ids)[i].id in ids
    {
      if accounts != [] {
        KeptOfAre(accounts[1..], ids);
      }
    }

    static lemma {:induction false} KeptValues(accounts: seq<Account>, ids: seq<string>)
      ensures Values(KeptOf(accounts, ids)) == Kept(Values(accounts), ids)
    {
      if accounts != [] {
        KeptValues(accounts[1..], ids);
        assert Values(accounts)[1..] == Values(accounts[1..]);
      }
    }

    static lemma {:induction false} RemoveMiddle(before: seq<Account>, a: Account, after: seq<Account>)
      requires a !in before
      ensures RemoveFirst(before + [a] + after, a) == before + after
    {
      hide RemoveFirst;
      if before == [] {
        assert before + [a] + after == [a] + after;
        RemoveHead(a, after);
        assert before + after == after;
      } else {
        var rest := before[1..] + [a] + after;
        assert before + [a] + after == [before[0]] + rest;
        assert [before[0]] + (before[1..] + after) == before + after;
        RemoveMiddle(before[1..], a, after);
        RemoveFirstStep([before[0]], rest, a);
      }
    }

    static lemma RemoveHead(a: Account, after: seq<Account>)
      ensures RemoveFirst([a] + after, a) == after
    {
    }

    /** Every account is looked at once, in a copy of the list. */
    method RemoveGone(ids: seq<string>)
      requires Valid()
      modifies this`accounts, this`sipAccounts, this`ringAccounts, this`removedAccounts, this`deletedIds
      ensures Valid() && accounts == KeptOf(old(accounts), ids)
      ensures removedAccounts == old(removedAccounts) + GoneOf(old(accounts), ids)
      ensures deletedIds == old(deletedIds) + IdsOf(GoneOf(old(accounts), ids))
    {
      hide RemoveFirst, OfProtocol, IdsOf, KeptOf, GoneOf, NoDup;
      var all := accounts;
      NobodyKept(ids);
      for i := 0 to |all|
        invariant Valid() && accounts == KeptOf(all[..i], ids) + all[i..]
        invariant removedAccounts == old(removedAccounts) + GoneOf(all[..i], ids)
        invariant deletedIds == old(deletedIds) + IdsOf(GoneOf(all[..i], ids))
      {
        Advance(all, i, ids);
        IdsOfAppend(GoneOf(all[..i], ids), all[i]);
        Assoc(old(deletedIds), IdsOf(GoneOf(all[..i], ids)), if all[i].id in ids then [] else [all[i].id]);
        RemoveIfGone(all[i], ids, KeptOf(all[..i], ids), all[i + 1..]);
      }
      assert all[..|all|] == all && all[|all|..] == [];
    }

    static lemma NobodyKept(ids: seq<string>)
      ensures KeptOf([], ids) == [] && GoneOf([], ids) == [] && IdsOf([]) == []
    {
    }

    static lemma IdsOfAppend(accounts: seq<Account>, a: Account)
      ensures IdsOf(accounts + [a]) == IdsOf(accounts) + [a.id] && IdsOf(accounts + []) == IdsOf(accounts)
    {
      assert accounts + [] == accounts && (accounts + [a])[..|accounts|] == accounts;
    }

    method RemoveIfGone(a: Account, ids: seq<string>, ghost before: seq<Account>, ghost after: seq<Account>)
      requires Valid() && accounts == before + ([a] + after) && (a.id !in ids ==> a !in before)
      modifies this`accounts, this`sipAccounts, this`ringAccounts, this`removedAccounts, this`deletedIds
      ensures Valid() && accounts == before + (if a.id in ids then [a] else []) + after
      ensures removedAccounts == old(removedAccounts) + if a.id in ids then [] else [a]
      ensures deletedIds == old(deletedIds) + if a.id in ids then [] else [a.id]
    {
      hide RemoveFirst, OfProtocol;
      assert accounts == before + [a] + after;
      if a.id !in ids {
        RemoveMiddle(before, a, after);
        assert accounts[|before|] == a;
        Remove(a);
        assert before + [] + after == before + after;
      }
    }

    static lemma Advance(all: seq<Account>, i: nat, ids: seq<string>)
      requires i < |all|
      ensures KeptOf(all[..i + 1], ids) == KeptOf(all[..i], ids) + if all[i].id in ids then [all[i]] else []
      ensures GoneOf(all[..i + 1], ids) == GoneOf(all[..i], ids) + if all[i].id in ids then [] else [all[i]]
      ensures all[i].id !in ids ==> all[i] !in KeptOf(all[..i], ids)
      ensures all[i..] == [all[i]] + all[i + 1..]
    {
      assert all[..i + 1] == all[..i] + [all[i]];
      KeptOfAppend(all[..i], [all[i]], ids);
      KeptOfAre(all[..i], ids);
    }

    /** The accounts from position n on have been created. */
    twostate predicate NewSince(n: nat)
      reads this`accounts
    {
      forall i :: n <= i < |accounts| ==> fresh(accounts[i])
    }

    /** Accounts that exist are reloaded, and the others are built. */
    method AddListed(ids: seq<string>, protocols: map<string, Protocol>)
      requires Valid()
      modifies this`accounts, this`sipAccounts, this`ringAccounts, this`reloaded
      ensures Valid() && old(accounts) <= accounts && NewSince(|old(accounts)|)
      ensures
        var known := Elements(Ids(old(Rows())));
        && Rows() == old(Rows()) + Built(Added(ids, known), protocols)
        && reloaded == old(reloaded) + Found(ids, known)
    {
      hide Rows, OfProtocol, Built;
      ghost var known := Elements(Ids(Rows()));
      NothingBuilt(protocols);
      for i := 0 to |ids|
        invariant Valid() && old(accounts) <= accounts && NewSince(|old(accounts)|)
        invariant Rows() + Built(Added(ids[i..], Elements(Ids(Rows()))), protocols)
               == old(Rows()) + Built(Added(ids, known), protocols)
        invariant reloaded + Found(ids[i..], Elements(Ids(Rows()))) == old(reloaded) + Found(ids, known)
      {
        AddOne(ids[i..], protocols);
      }
    }

    method AddOne(ids: seq<string>, protocols: map<string, Protocol>)
      requires Valid() && ids != []
      modifies this`accounts, this`sipAccounts, this`ringAccounts, this`reloaded
      ensures Valid() && old(accounts) <= accounts && NewSince(|old(accounts)|)
      ensures
        var known := Elements(Ids(old(Rows())));
        && Rows() + Built(Added(ids[1..], Elements(Ids(Rows()))), protocols)
           == old(Rows()) + Built(Added(ids, known), protocols)
        && reloaded + Found(ids[1..], Elements(Ids(Rows()))) == old(reloaded) + Found(ids, known)
    {
      hide OfProtocol, Added, Found, Built, NoDup;
      ghost var rows := Rows();
      KeptOne(rows, ids);
      var a := GetById(ids[0]);
      if a == null {
        var built := new Account(ids[0], ProtocolOf(protocols, ids[0]));
        AppendAccount(built);
        assert Rows() == rows + [built.Value()];
        BuildOne(rows, ids, protocols);
      } else {
        reloaded := reloaded + [ids[0]];
        assert Rows() == rows;
      }
    }

    static lemma KeptOne(rows: seq<Row>, ids: seq<string>)
      requires ids != []
      ensures
        ids[0] != "" && ids[0] in Ids(rows) ==>
          && Added(ids, Elements(Ids(rows))) == Added(ids[1..], Elements(Ids(rows)))
          && Found(ids, Elements(Ids(rows))) == [ids[0]] + Found(ids[1..], Elements(Ids(rows)))
    {
    }

    static lemma BuildOne(rows: seq<Row>, ids: seq<string>, protocols: map<string, Protocol>)
      requires ids != [] && (ids[0] == "" || ids[0] !in Ids(rows))
      ensures
        var known := Elements(Ids(rows));
        var row := Row(ids[0], ProtocolOf(protocols, ids[0]));
        && Elements(Ids(rows + [row])) == known + {ids[0]}
        && rows + Built(Added(ids, known), protocols)
           == rows + [row] + Built(Added(ids[1..], known + {ids[0]}), protocols)
        && Found(ids, known) == Found(ids[1..], known + {ids[0]})
    {
      hide Built, ProtocolOf;
      var row := Row(ids[0], ProtocolOf(protocols, ids[0]));
      assert Ids(rows + [row]) == Ids(rows) + [ids[0]];
      var news := Added(ids[1..], Elements(Ids(rows)) + {ids[0]});
      BuiltSplit(ids[0], news, protocols);
      Assoc(rows, [row], Built(news, protocols));
    }

    static lemma BuiltSplit(id: string, ids: seq<string>, protocols: map<string, Protocol>)
      ensures Built([id] + ids, protocols) == [Row(id, ProtocolOf(protocols, id))] + Built(ids, protocols)
    {
    }

    static lemma NothingBuilt(protocols: map<string, Protocol>)
      ensures Built([], protocols) == []
    {
    }

    /** Accounts that the daemon no longer lists go, and those that it lists now are appended in its order. */
    method UpdateAccounts(ids: seq<string>, protocols: map<string, Protocol>)
      requires Valid()
      modifies this`accounts, this`sipAccounts, this`ringAccounts, this`removedAccounts, this`deletedIds, this`reloaded
      ensures Valid() && Rows() == Updated(old(Rows()), ids, protocols)
      ensures removedAccounts == old(removedAccounts) + GoneOf(old(accounts), ids)
      ensures deletedIds == old(deletedIds) + IdsOf(GoneOf(old(accounts), ids))
      ensures
        var kept := KeptOf(old(accounts), ids);
        && kept <= accounts && NewSince(|kept|)
        && reloaded == old(reloaded) + Found(ids, Elements(Ids(Kept(old(Rows()), ids))))
    {
      hide OfProtocol, Built, Added, Kept, Found;
      KeptValues(accounts, ids);
      ghost var kept, rows := KeptOf(accounts, ids), Values(KeptOf(accounts, ids));
      ghost var gone, goneIds := GoneOf(accounts, ids), IdsOf(GoneOf(accounts, ids));
      RemoveGone(ids);
      assert Rows() == Values(kept) == rows && GoneOf(old(accounts), ids) == gone && IdsOf(gone) == goneIds;
      AddListed(ids, protocols);
      assert GoneOf(old(accounts), ids) == gone && IdsOf(gone) == goneIds;
    }
  }
}
