/** Contact methods and their private objects on the heap, merged in place. */
module MergeModels {
  import opened Options
  import opened Lists
  import opened Merging
  import MR = MergingRuns

  class PrivateData {
    var parents: set<ContactMethod>
    var uri: string
    var otherUris: seq<string>
    var tracked: bool
    var present: bool
    const temporary: bool
    const account: Option<nat>

    constructor (uri: string, temporary: bool, account: Option<nat>)
      ensures this.uri == uri && this.temporary == temporary && this.account == account
      ensures parents == {} && otherUris == [] && !tracked && !present
    {
      this.uri, this.temporary, this.account := uri, temporary, account;
      parents, otherUris, tracked, present := {}, [], false, false;
    }

    ghost function Value(): Data<ContactMethod>
      reads this
    {
      Data(parents, uri, otherUris, tracked, present, temporary, account)
    }
  }

  class ContactMethod {
    var d: PrivateData

    constructor (d: PrivateData)
      ensures this.d == d
    {
      this.d := d;
    }

    /** Handles are compared by the objects they share. */
    predicate Equals(other: ContactMethod)
      reads this, other
    {
      d == other.d
    }
  }

  /** All contact methods, and the private objects that have not been deleted. */
  class Directory {
    ghost var handles: set<ContactMethod>
    ghost var privates: set<PrivateData>

    ghost function DMap(): map<ContactMethod, PrivateData>
      reads this`handles, handles`d
    {
      map h | h in handles :: h.d
    }

    ghost function DataMap(): map<PrivateData, Data<ContactMethod>>
      reads this`privates, privates
    {
      map o | o in privates :: o.Value()
    }

    ghost function State(): World<ContactMethod, PrivateData>
      reads this, handles, privates
    {
      World(DMap(), DataMap())
    }

    constructor ()
      ensures handles == {} && privates == {} && State() == World(map[], map[])
    {
      handles, privates := {}, {};
    }

    twostate lemma Inserted(new h: ContactMethod, new o: PrivateData)
      requires h !in old(handles) && o !in old(privates) && h.d == o
      requires handles == old(handles) + {h} && privates == old(privates) + {o}
      requires forall p :: p in old(handles) ==> p.d == old(p.d)
      requires forall q :: q in old(privates) ==> q.Value() == old(q.Value())
      ensures DMap() == old(DMap())[h := o] && DataMap() == old(DataMap())[o := o.Value()]
    {
    }

    /** A contact method starts out with an object of its own. */
    method Create(uri: string, temporary: bool, account: Option<nat>) returns (h: ContactMethod)
      requires MR.Initial(State())
      modifies this
      ensures fresh(h) && fresh(h.d) && handles == old(handles) + {h} && privates == old(privates) + {h.d}
      ensures State().d == old(State()).d[h := h.d]
      ensures State().data == old(State()).data[h.d := Data({h}, uri, [], false, false, temporary, account)]
      ensures MR.Initial(State())
    {
      hide DMap, DataMap, MR.Initial;
      ghost var w := State();
      KeysKnown();
      var d := new PrivateData(uri, temporary, account);
      h := new ContactMethod(d);
      d.parents := d.parents + {h};
      handles := handles + {h};
      privates := privates + {d};
      Inserted(h, d);
      assert d.Value() == Data({h}, uri, [], false, false, temporary, account);
      MR.InitialMore(w, h, d, d.Value());
    }

    lemma KeysKnown()
      ensures State().d.Keys == handles && State().data.Keys == privates
    {
    }

    lemma DataAt(o: PrivateData)
      requires o in privates
      ensures o in State().data && State().data[o] == o.Value()
    {
    }

    method MarkTracked(o: PrivateData)
      requires o in privates
      modifies o`tracked
      ensures State() == old(State()).(data := old(State()).data[o := old(State()).data[o].(tracked := true)])
    {
      hide DMap;
      o.tracked := true;
    }

    method MarkPresent(o: PrivateData)
      requires o in privates
      modifies o`present
      ensures State() == old(State()).(data := old(State()).data[o := old(State()).data[o].(present := true)])
    {
      hide DMap;
      o.present := true;
    }

    method SetFlags(o: PrivateData, x: PrivateData)
      requires o in privates && x in privates
      modifies o`tracked, o`present
      ensures State() == WithFlags(old(State()), o, x)
    {
      hide DMap, DataMap;
      DataAt(x);
      DataAt(o);
      ghost var data := State().data;
      assert data[o := data[o]] == data;
      if x.tracked {
        MarkTracked(o);
      }
      if x.present {
        MarkPresent(o);
      }
    }

    /** The longer URI is taken, and the other one kept beside it. */
    method SetUri(o: PrivateData, x: PrivateData)
      requires o in privates && x in privates
      modifies o`uri, o`otherUris
      ensures State() == WithUri(old(State()), o, x)
    {
      hide DMap;
      if |x.uri| > |o.uri| {
        o.otherUris := o.otherUris + [o.uri];
        o.uri := x.uri;
      } else {
        o.otherUris := o.otherUris + [x.uri];
      }
    }

    method Enter(o: PrivateData, p: ContactMethod)
      requires o in privates
      modifies o`parents
      ensures State() == AddParent(old(State()), o, p)
    {
      hide DMap;
      o.parents := o.parents + {p};
    }

    method Bind(p: ContactMethod, to: PrivateData)
      requires p in handles
      modifies p`d
      ensures p.d == to && State() == old(State()).(d := old(State()).d[p := to])
    {
      hide DataMap;
      p.d := to;
    }

    /** The loop as written: parents are entered through the object that a leads to at that time. */
    method Redirect(a: ContactMethod, order: seq<ContactMethod>, to: PrivateData)
      requires a in handles && a.d in privates && to in privates
      requires forall i :: 0 <= i < |order| ==> order[i] in handles
      modifies handles`d, privates`parents
      ensures State() == Redirected(old(State()), a, order, to)
    {
      hide DMap, DataMap, AddParent;
      for i := 0 to |order|
        invariant a.d in privates
        invariant Redirected(State(), a, order[i..], to) == Redirected(old(State()), a, order, to)
      {
        ADIs(a);
        assert order[i..][0] == order[i] && order[i..][1..] == order[i + 1..];
        Enter(a.d, order[i]);
        Bind(order[i], to);
      }
    }

    /** The loop as documented: parents are entered with the surviving object. */
    method RedirectAll(order: seq<ContactMethod>, to: PrivateData)
      requires to in privates && forall i :: 0 <= i < |order| ==> order[i] in handles
      modifies handles`d, privates`parents
      ensures State() == RedirectedAll(old(State()), order, to)
    {
      hide DMap, DataMap, AddParent;
      for i := 0 to |order|
        invariant RedirectedAll(State(), order[i..], to) == RedirectedAll(old(State()), order, to)
      {
        assert order[i..][0] == order[i] && order[i..][1..] == order[i + 1..];
        Enter(to, order[i]);
        Bind(order[i], to);
      }
    }

    lemma ADIs(a: ContactMethod)
      requires a in handles
      ensures a in State().d && State().d[a] == a.d
    {
    }

    method Delete(o: PrivateData)
      modifies this`privates
      ensures handles == old(handles) && privates == old(privates) - {o}
      ensures State() == old(State()).(data := old(State()).data - {o})
    {
      hide DMap;
      privates := privates - {o};
    }

    lemma ValuesOf(a: ContactMethod)
      requires a in handles && a.d in privates
      ensures Known(State(), a) && State().d[a] == a.d && DataOf(State(), a) == a.d.Value()
    {
    }

    method Absorbing(a: ContactMethod, b: ContactMethod, order: seq<ContactMethod>)
      requires a in handles && b in handles && a.d in privates && b.d in privates
      requires Known(State(), a) && Known(State(), b) && Mergeable(State(), a, b)
      requires Order(a.d.parents, order) && a.d.parents <= handles
      modifies this`privates, handles`d, privates
      ensures State() == Merged(old(State()), a, b, order)
    {
      hide DMap, DataMap, Mergeable, Merged, Redirected, WithUri, WithFlags;
      ValuesOf(a);
      ValuesOf(b);
      MergedInSteps(State(), a, b, order);
      assert forall i :: 0 <= i < |order| ==> order[i] in Elements(order);
      var current, target := a.d, b.d;
      SetFlags(target, current);
      Redirect(a, order, target);
      SetUri(target, current);
      Delete(current);
    }

    /** A merge that is not refused, with the documented treatment of the parents. */
    method MergeAsIntended(a: ContactMethod, b: ContactMethod, order: seq<ContactMethod>)
      requires a in handles && b in handles && a.d in privates && b.d in privates
      requires Known(State(), a) && Known(State(), b) && Mergeable(State(), a, b)
      requires Order(a.d.parents, order) && a.d.parents <= handles
      modifies this`privates, handles`d, privates
      ensures State() == MergedAsIntended(old(State()), a, b, order)
    {
      hide DMap, DataMap, Mergeable, MergedAsIntended, RedirectedAll, WithUri, WithFlags;
      ValuesOf(a);
      ValuesOf(b);
      MR.MergedAsIntendedInSteps(State(), a, b, order);
      assert forall i :: 0 <= i < |order| ==> order[i] in Elements(order);
      var current, target := a.d, b.d;
      SetFlags(target, current);
      RedirectAll(order, target);
      SetUri(target, current);
      Delete(current);
    }

    /** Two contact methods come to share one object. */
    method Merge(a: ContactMethod, b: ContactMethod, order: seq<ContactMethod>) returns (ok: bool)
      requires a in handles && b in handles && a.d in privates && b.d in privates
      requires Order(a.d.parents, order) && a.d.parents <= handles
      modifies this`privates, handles`d, privates
      ensures ok == Mergeable(old(State()), a, b)
      ensures State() == Merged(old(State()), a, b, order)
    {
      hide DMap, DataMap;
      ValuesOf(a);
      ValuesOf(b);
      if a == b || a.d == b.d {
        return false;
      }
      if a.d.account.Some? && b.d.account.Some? && a.d.account != b.d.account {
        return false;
      }
      if a.d.temporary || b.d.temporary {
        return false;
      }
      Absorbing(a, b, order);
      return true;
    }
  }
}
