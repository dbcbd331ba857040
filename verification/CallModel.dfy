/** The call tree on the heap: nodes with children and parent pointers, updated in place. */
module CallModels {
  import opened Options
  import opened Lists
  import opened CallTables
  import opened CallObjects
  import F = CallForest
  import S = CallForestShape
  import D = CallForestRemoval
  import E = CallForestEffects
  import R = CallForestRuns
  import X = CallForestIndex
  import M = CallMachine
  import L = CallRuns

  class Node {
    const call: CallObject
    const conference: bool
    const watched: bool      // false for calls that were over when they were added
    var children: seq<Node>
    var parent: Node?

    constructor (call: CallObject)
      ensures this.call == call && conference == call.conference && children == [] && parent == null
      ensures watched == (call.conference || !LifeOf(call.state).Finished?)
    {
      this.call, conference := call, call.conference;
      watched := call.conference || LifeOf(call.state) != Finished;
      children, parent := [], null;
    }
  }

  class CallModel {
    var internalModel: seq<Node>
    var mapping: map<CallObject, Node>
    var ids: map<string, Node>
    ghost var nodes: set<Node>
    ghost var calls: set<CallObject>
    ghost var contacts: set<ContactMethod>     // the placeholder contacts of the conferences

    static ghost function InfoOf(n: Node): F.Info
      reads n.call
    {
      F.Info(n.conference, n.call.state, n.call.id, n.call.hasAccount, n.watched)
    }

    static ghost function ParentOf(n: Node): Node
      requires n.parent != null
      reads n`parent
    {
      n.parent
    }

    ghost function KidsMap(): map<Node, seq<Node>>
      reads this`nodes, nodes`children
    {
      map n | n in nodes :: n.children
    }

    ghost function ParentMap(): map<Node, Node>
      reads this`nodes, nodes`parent
    {
      map n | n in nodes && n.parent != null :: ParentOf(n)
    }

    ghost function InfoMap(): map<Node, F.Info>
      reads this`nodes, this`calls, calls
    {
      map n | n in nodes && n.call in calls :: InfoOf(n)
    }

    /** The tree as a value. */
    ghost function State(): F.Forest<Node>
      reads this, nodes, calls
    {
      F.Forest(internalModel, KidsMap(), ParentMap(), InfoMap(), ids)
    }

    /** The map from calls to nodes is a bijection, and conferences own their placeholder contact. */
    ghost predicate Wired()
      reads this`nodes, this`mapping, this`contacts, this`calls, calls
    {
      && (forall n :: n in nodes ==> n.call in calls && n.call in mapping && mapping[n.call] == n)
      && (forall c :: c in mapping ==> mapping[c] in nodes && mapping[c].call == c)
      && (forall n :: n in nodes ==> n.conference == n.call.conference)
      && (forall n :: n in nodes && n.conference ==>
            n.call.peer == null && (n.call.dialNumber != null ==> n.call.dialNumber in contacts))
    }

    ghost predicate Valid()
      reads this, nodes, calls
    {
      Wired() && S.Inv(State())
    }

    constructor ()
      ensures Valid() && State() == R.NoCalls()
    {
      internalModel, mapping, ids := [], map[], map[];
      nodes, calls, contacts := {}, {}, {};
    }

    // ----- Writing one field -----

    method SetChildren(n: Node, children: seq<Node>)
      requires Wired() && n in nodes
      modifies n`children
      ensures Wired()
      ensures State() == old(State()).(kids := old(State()).kids[n := children])
    {
      hide ParentMap, InfoMap, Wired;
      n.children := children;
    }

    method SetParent(n: Node, parent: Node)
      requires Wired() && n in nodes
      modifies n`parent
      ensures Wired()
      ensures State() == old(State()).(par := old(State()).par[n := parent])
    {
      hide KidsMap, InfoMap, Wired;
      n.parent := parent;
    }

    method ClearParent(n: Node)
      requires Wired() && n in nodes
      modifies n`parent
      ensures Wired()
      ensures State() == old(State()).(par := old(State()).par - {n})
    {
      hide KidsMap, InfoMap, Wired;
      n.parent := null;
    }

    lemma Mapped(n: Node)
      requires Wired() && n in nodes
      ensures n.call in mapping && mapping[n.call] == n
    {
    }

    /** Takes a node off the top-level list, if it is there. */
    method RemoveInternal(n: Node)
      requires Wired()
      modifies this`internalModel
      ensures Wired()
      ensures State() == old(State()).(top := RemoveFirst(old(internalModel), n))
    {
      hide KidsMap, ParentMap, InfoMap, Wired, IndexOf, RemoveFirst;
      var idx := IndexOf(internalModel, n);
      if idx == -1 {
        return;
      }
      RemoveFirstAt(internalModel, n);
      internalModel := internalModel[..idx] + internalModel[idx + 1..];
    }

    // ----- Moving calls -----

    method MoveUnder(c: Node, n: Node)
      requires Wired() && S.Closed(State()) && n in nodes && c in nodes
      modifies this`internalModel, nodes
      ensures Wired() && State() == F.MoveUnder(old(State()), c, n)
    {
      hide InfoMap, Wired, RemoveFirst, RemoveAll;
      if n.parent != null && n.parent != c {
        var p := n.parent;
        assert n in State().par && State().par[n] == p;
        SetChildren(p, RemoveAll(p.children, n));
      }
      RemoveInternal(n);
      SetParent(n, c);
    }

    method AppendChild(c: Node, n: Node)
      requires Wired() && c in nodes
      modifies nodes`children
      ensures Wired() && State() == F.AppendChild(old(State()), c, n)
    {
      hide InfoMap, Wired, ParentMap;
      SetChildren(c, c.children + [n]);
    }

    method Adopt(c: Node, n: Node)
      requires Wired() && S.Closed(State()) && n in nodes && c in nodes
      modifies this`internalModel, nodes
      ensures Wired() && State() == F.Adopt(old(State()), c, n)
    {
      hide InfoMap, Wired, ParentMap, F.MoveUnder;
      MoveUnder(c, n);
      if n !in c.children {
        AppendChild(c, n);
      }
    }

    method AdoptKnown(c: Node, p: string)
      requires Wired() && S.Closed(State()) && c in nodes
      modifies this`internalModel, nodes
      ensures Wired() && State() == F.AdoptKnown(old(State()), c, p)
    {
      hide ParentMap, F.Adopt;
      if p in ids {
        Adopt(c, ids[p]);
      }
    }

    /** Known participants move under the new conference, one after the other. */
    method AdoptAll(c: Node, participants: seq<string>)
      requires Wired() && S.Closed(State()) && F.IsConference(State(), c) && c in nodes
      modifies this`internalModel, nodes
      ensures Wired() && State() == F.AdoptAll(old(State()), c, participants)
    {
      hide KidsMap, InfoMap, ParentMap, Wired, State, F.AdoptKnown, S.Closed, F.IsConference;
      ghost var s := State();
      for i := 0 to |participants|
        invariant Wired() && S.Closed(State()) && F.IsConference(State(), c)
        invariant F.AdoptAll(State(), c, participants[i..]) == F.AdoptAll(s, c, participants)
      {
        assert participants[i..][0] == participants[i] && participants[i..][1..] == participants[i + 1..];
        S.MoveClosed(State(), c, participants[i]);
        AdoptKnown(c, participants[i]);
      }
    }

    method ReadoptKnown(c: Node, p: string)
      requires Wired() && S.Closed(State()) && c in nodes
      modifies this`internalModel, nodes
      ensures Wired() && State() == F.ReadoptKnown(old(State()), c, p)
    {
      hide ParentMap, F.MoveUnder, F.AppendChild;
      if p in ids {
        MoveUnder(c, ids[p]);
        AppendChild(c, ids[p]);
      }
    }

    method ReadoptAll(c: Node, participants: seq<string>)
      requires Wired() && S.Closed(State()) && F.IsConference(State(), c) && c in nodes
      modifies this`internalModel, nodes
      ensures Wired() && State() == F.ReadoptAll(old(State()), c, participants)
    {
      hide KidsMap, InfoMap, ParentMap, Wired, State, F.ReadoptKnown, S.Closed, F.IsConference;
      ghost var s := State();
      for i := 0 to |participants|
        invariant Wired() && S.Closed(State()) && F.IsConference(State(), c)
        invariant F.ReadoptAll(State(), c, participants[i..]) == F.ReadoptAll(s, c, participants)
      {
        assert participants[i..][0] == participants[i] && participants[i..][1..] == participants[i + 1..];
        S.MoveClosed(State(), c, participants[i]);
        ReadoptKnown(c, participants[i]);
      }
    }

    // ----- States of conferences -----

    method SetConferenceState(c: Node, name: string)
      requires Wired() && c in nodes && c.conference
      modifies c.call`state
      ensures Wired()
      ensures State() == F.SetState(old(State()), c, ConferenceState(name))
    {
      hide KidsMap, ParentMap, InfoMap;
      NodesKnown();
      c.call.ConferenceStateChanged(name);
      CallMoved(c);
    }

    lemma OwnContacts(c: Node)
      requires Wired() && c in nodes && c.conference
      ensures c.call.peer == null && c.call.Contacts() <= contacts
    {
    }

    /** changeCurrentState(OVER) on a conference. */
    method Retire(c: Node)
      requires Wired() && c in nodes && c.conference
      modifies c.call`state, contacts
      ensures Wired()
      ensures State() == F.SetState(old(State()), c, Over)
    {
      hide KidsMap, ParentMap, InfoMap, Wired, CallObject.View;
      NodesKnown();
      OwnContacts(c);
      c.call.ChangeCurrentState(Over);
      CallMoved(c);
    }

    // ----- Removals -----

    lemma NodesKnown()
      requires Wired()
      ensures State().info.Keys == nodes && State().kids.Keys == nodes
      ensures forall n :: n in nodes ==>
                && State().info[n] == InfoOf(n) && State().kids[n] == n.children
                && n.call in calls && n.conference == n.call.conference
    {
    }

    method RestoreChild(n: Node)
      requires Wired() && n in nodes
      modifies this`internalModel
      ensures Wired()
      ensures State() == old(State()).(top :=
                old(internalModel) + if F.Restored(old(State()).info, n) then [n] else [])
    {
      hide Wired, KidsMap, ParentMap, InfoMap;
      NodesKnown();
      if n.call.state != Over && n.call.state != Error {
        internalModel := internalModel + [n];
      }
    }

    /** The children of a removed conference that are not over go back to the top level. */
    method RestoreChildren(n: Node)
      requires Wired() && n in nodes && forall i :: 0 <= i < |n.children| ==> n.children[i] in nodes
      modifies this`internalModel
      ensures Wired()
      ensures State() == old(State()).(top := old(internalModel) + F.Restorable(old(State()).info, n.children))
    {
      hide Wired, KidsMap, ParentMap, InfoMap;
      ghost var s := State();
      ghost var all := internalModel + F.Restorable(s.info, n.children);
      for i := 0 to |n.children|
        invariant Wired() && State() == s.(top := internalModel)
        invariant internalModel + F.Restorable(s.info, n.children[i..]) == all
      {
        assert n.children[i..][0] == n.children[i] && n.children[i..][1..] == n.children[i + 1..];
        Assoc(internalModel, if F.Restored(s.info, n.children[i]) then [n.children[i]] else [],
              F.Restorable(s.info, n.children[i + 1..]));
        RestoreChild(n.children[i]);
      }
    }

    method IsStale(c: Node) returns (stale: bool)
      requires Wired() && S.Grounded(State()) && c in nodes
      ensures stale == F.Stale(State(), c)
    {
      hide ParentMap, S.Closed, F.FlatTree;
      if c.children == [] {
        stale := c.call.conference;
      } else {
        assert c.children[0] in State().kids[c] && c.children[|c.children| - 1] in State().kids[c];
        stale := c.call.conference &&
          (c.children[0].call.state == Error || c.children[|c.children| - 1].call.state == Error);
      }
    }

    method FindStale() returns (c: Node?)
      requires Wired() && S.Grounded(State())
      ensures F.FirstStale(State(), internalModel) == if c == null then None else Some(c)
    {
      hide F.Stale, S.Grounded, Wired, ParentMap, KidsMap, InfoMap;
      NodesKnown();
      S.GroundedTop(State());
      for i := 0 to |internalModel|
        invariant F.FirstStale(State(), internalModel) == F.FirstStale(State(), internalModel[i..])
      {
        assert internalModel[i..][0] == internalModel[i] && internalModel[i..][1..] == internalModel[i + 1..];
        var stale := IsStale(internalModel[i]);
        if stale {
          return internalModel[i];
        }
      }
      c := null;
    }

    /** Removing anything but a live call keeps the model valid exactly if nothing is put back twice. */
    method RemoveCall(n: Node)
      requires Wired() && S.Grounded(State()) && n in nodes
      modifies this`internalModel, calls, contacts
      ensures Wired() && S.Grounded(State()) && nodes == old(nodes)
      ensures F.FlatTree(old(State())) && State() == F.RemoveCall(old(State()), n)
      ensures old(Valid()) && !F.Alive(old(State()), n) ==> (Valid() <==> S.Removable(old(State()), n))
      decreases F.Conferences(State(), internalModel), if n in internalModel && n.conference then 0 else 3
    {
      hide Wired, KidsMap, ParentMap, InfoMap, S.Inv, S.Grounded, S.Removable, F.Alive, F.Cleanup, F.Restorable;
      ghost var s := State();
      NodesKnown();
      S.GroundedIs(s);
      F.RemovalShrinks(s, n);
      S.RemoveOneGrounded(s, n);
      RemoveInternal(n);
      RestoreChildren(n);
      Cleanup();
      if S.Inv(s) && !F.Alive(s, n) {
        D.RemovalKeepsExactly(s, n);
      }
    }

    /** While a stale conference is left, remove it. */
    method Cleanup()
      requires Wired() && S.Grounded(State())
      modifies this`internalModel, calls, contacts
      ensures Wired() && S.Grounded(State()) && nodes == old(nodes)
      ensures F.FlatTree(old(State())) && State() == F.Cleanup(old(State()))
      decreases F.Conferences(State(), internalModel), 2
    {
      hide Wired, KidsMap, ParentMap, InfoMap, S.Inv, S.Grounded;
      NodesKnown();
      S.GroundedIs(State());
      var c := FindStale();
      if c != null {
        RemoveConference(c);
      }
    }

    method RemoveConference(c: Node)
      requires Wired() && S.Grounded(State()) && c in nodes && c.conference
      modifies this`internalModel, calls, contacts
      ensures Wired() && S.Grounded(State()) && nodes == old(nodes)
      ensures F.FlatTree(old(State())) && State() == F.RemoveConference(old(State()), c)
      ensures old(Valid()) ==> (Valid() <==> S.Removable(old(State()), c))
      decreases F.Conferences(State(), internalModel), if c in internalModel then 1 else 4
    {
      hide Wired, KidsMap, ParentMap, InfoMap, S.Inv, S.Grounded, S.Removable, F.RemoveCall, F.SetState;
      ghost var s := State();
      NodesKnown();
      S.GroundedIs(s);
      RemoveCall(c);
      S.RetireGrounded(State(), c);
      Retire(c);
      if S.Inv(s) {
        D.ConferenceKeepsExactly(s, c);
      }
    }

    /** A watched call, or a conference, reports a change: one in ERROR is removed at once. */
    method SlotCallChanged(n: Node)
      requires Wired() && S.Grounded(State()) && n in nodes
      modifies this`internalModel, calls, contacts
      ensures Wired() && nodes == old(nodes)
      ensures F.FlatTree(old(State())) && State() == F.Reported(old(State()), n)
      ensures old(Valid()) ==> (Valid() <==> (F.Reports(old(State()), n) ==> S.Removable(old(State()), n)))
    {
      hide Wired, KidsMap, ParentMap, InfoMap, S.Inv, S.Shape, S.Removable, S.Grounded, F.RemoveCall;
      NodesKnown();
      S.GroundedIs(State());
      if (n.conference || n.watched) && n.call.state == Error {
        RemoveCall(n);
      }
    }

    // ----- Indexes -----

    method IndexAt(row: int, column: int, parent: X.Index<Node>) returns (idx: X.Index<Node>)
      requires Wired() && S.Closed(State())
      ensures idx == X.IndexAt(State(), row, column, parent)
    {
      hide Wired, KidsMap, ParentMap, InfoMap;
      NodesKnown();
      if parent.NoIndex? {
        idx := if 0 <= row < |internalModel| then X.At(row, column, internalModel[row]) else X.NoIndex;
      } else if row < 0 || parent.row >= |internalModel| {
        idx := X.NoIndex;
      } else {
        var c := internalModel[parent.row];
        assert c in State().top;
        idx := if row < |c.children| then X.At(row, column, c.children[row]) else X.NoIndex;
      }
    }

    method ParentIndex(idx: X.Index<Node>) returns (parent: X.Index<Node>)
      requires Wired() && S.Closed(State()) && (idx.At? ==> idx.node in nodes)
      ensures parent == X.ParentOf(State(), idx)
    {
      hide Wired, KidsMap, InfoMap;
      if idx.At? && idx.node.parent != null {
        var row := IndexOf(internalModel, idx.node.parent);
        if row != -1 {
          parent := IndexAt(row, 0, X.NoIndex);
          return;
        }
      }
      parent := X.NoIndex;
    }

    /** The call that an index shows. */
    method CallAt(idx: X.Index<Node>) returns (call: CallObject?)
      requires Wired() && S.Closed(State()) && (idx.At? ==> idx.node in nodes)
      ensures
        match X.NodeAt(State(), idx)
        case None => call == null
        case Some(n) => call == n.call
    {
      hide Wired, KidsMap, ParentMap, InfoMap, X.ParentOf;
      NodesKnown();
      if idx.NoIndex? {
        return null;
      }
      var parent := ParentIndex(idx);
      if parent.NoIndex? {
        call := if idx.row < |internalModel| then internalModel[idx.row].call else null;
      } else if parent.row < |internalModel| {
        var c := internalModel[parent.row];
        assert c in State().top;
        call := if c.conference && idx.row < |c.children| then c.children[idx.row].call else null;
      } else {
        call := null;
      }
    }

    method GetIndex(n: Node) returns (idx: X.Index<Node>)
      requires Wired() && S.Closed(State())
      ensures idx == X.GetIndex(State(), n)
    {
      hide Wired, KidsMap, ParentMap, InfoMap, X.IndexAt;
      NodesKnown();
      var row := IndexOf(internalModel, n);
      if row != -1 {
        idx := IndexAt(row, 0, X.NoIndex);
        return;
      }
      for i := 0 to |internalModel|
        invariant X.FindChild(State(), internalModel, n) == X.FindChild(State(), internalModel[i..], n)
      {
        var c := internalModel[i];
        assert c in State().top && internalModel[i..][0] == c;
        row := IndexOf(c.children, n);
        if row != -1 {
          var parent := IndexAt(IndexOf(internalModel, c), 0, X.NoIndex);
          idx := IndexAt(row, 0, parent);
          return;
        }
      }
      idx := X.NoIndex;
    }

    // ----- Changing a conference -----

    /** A child that is no participant any more goes back to top level, unless it is finished. */
    method EvictChild(n: Node, participants: seq<string>)
      requires Wired() && n in nodes
      modifies this`internalModel, n`parent
      ensures Wired()
      ensures State() == F.EvictOne(old(State()), n, participants)
    {
      hide Wired, KidsMap, ParentMap, InfoMap;
      NodesKnown();
      if n.call.id !in participants && LifeOf(n.call.state) != Finished {
        ClearParent(n);
        internalModel := internalModel + [n];
      }
    }

    method Evict(c: Node, participants: seq<string>)
      requires Wired() && c in nodes && forall i :: 0 <= i < |c.children| ==> c.children[i] in nodes
      modifies this`internalModel, nodes
      ensures Wired() && State() == F.Evict(old(State()), c, participants)
    {
      hide Wired, KidsMap, ParentMap, InfoMap, F.EvictOne;
      NodesKnown();
      ghost var s := State();
      for i := 0 to |c.children|
        invariant Wired() && c.children == old(c.children) && State().kids == s.kids
        invariant F.EvictSome(State(), c.children[i..], participants) == F.EvictSome(s, c.children, participants)
      {
        hide F.EvictSome;
        F.EvictStep(State(), c.children[i..], participants);
        assert c.children[i..][1..] == c.children[i + 1..];
        EvictChild(c.children[i], participants);
      }
      SetChildren(c, []);
    }

    method FindEmpty() returns (c: Node?)
      requires Wired() && S.Closed(State())
      ensures F.FirstEmpty(State(), internalModel) == if c == null then None else Some(c)
      ensures c != null ==> c in nodes && c.conference
    {
      hide Wired, KidsMap, ParentMap, InfoMap;
      NodesKnown();
      for i := 0 to |internalModel|
        invariant F.FirstEmpty(State(), internalModel) == F.FirstEmpty(State(), internalModel[i..])
      {
        assert internalModel[i] in State().top && internalModel[i..][0] == internalModel[i];
        if internalModel[i].call.conference && internalModel[i].children == [] {
          return internalModel[i];
        }
      }
      c := null;
    }

    method RemoveOneEmpty() returns (found: bool)
      requires Valid()
      modifies this`internalModel, calls, contacts
      ensures Valid() && nodes == old(nodes) && F.FlatTree(State()) && F.FlatTree(old(State()))
      ensures found == F.FirstEmpty(old(State()), old(State()).top).Some?
      ensures State() == if found
                then F.RemoveConference(old(State()), F.FirstEmpty(old(State()), old(State()).top).value)
                else old(State())
    {
      hide Wired, KidsMap, ParentMap, InfoMap, S.Inv, S.Shape, S.Grounded, F.RemoveConference;
      S.FlatInv(State());
      S.TopKnown(State());
      S.GroundedInv(State());
      var c := FindEmpty();
      found := c != null;
      if found {
        RemoveConference(c);
        S.FlatInv(State());
      }
    }

    /** While an empty conference is left, remove it. */
    method RemoveEmpty()
      requires Valid()
      modifies this`internalModel, calls, contacts
      ensures Valid() && nodes == old(nodes)
      ensures F.FlatTree(old(State())) && State() == F.RemoveEmpty(old(State()))
    {
      hide State, Valid, F.RemoveConference;
      ghost var s := State();
      var more := RemoveOneEmpty();
      while more
        invariant Valid() && nodes == old(nodes) && F.FlatTree(State()) && F.FlatTree(s)
        invariant F.RemoveEmpty(State()) == F.RemoveEmpty(s)
        invariant !more ==> F.FirstEmpty(State(), State().top).None?
        decreases if more then 1 else 0, F.Conferences(State(), State().top)
      {
        more := RemoveOneEmpty();
      }
    }

    /** The daemon reports the new state and the participants of a conference. */
    method SlotChangingConference(id: string, name: string, participants: seq<string>)
      requires Valid() && R.Allowed(State(), R.ConferenceChanged(id, name, participants))
      modifies this`internalModel, nodes, calls, contacts
      ensures Valid() && nodes == old(nodes)
      ensures State() == R.Step(old(State()), R.ConferenceChanged(id, name, participants))
      ensures
        var members := E.Members(old(ids), participants);
        !ConferenceState(name).Error? && F.Changeable(old(State()), id) && members != [] ==>
          E.Owns(State(), old(ids[id]), members)
    {
      hide Wired, KidsMap, ParentMap, InfoMap, S.Inv, S.Shape, X.GetIndex;
      hide F.RemoveEmpty, F.Rejoined, F.FlatTree, R.Step, R.Allowed, E.Members, E.Owns, ConferenceState;
      ghost var s := State();
      R.ChangeIs(s, id, name, participants);
      if !ConferenceState(name).Error? && F.Changeable(s, id) && E.Members(s.ids, participants) != [] {
        E.ChangedStep(s, id, name, participants);
      }
      NodesKnown();
      if id !in ids {
        return;
      }
      var c := ids[id];
      var idx := GetIndex(c);
      X.IndexReadsBack(s, c);
      if idx.NoIndex? {
        return;
      }
      ChangeMembers(c, name, participants);
      RemoveEmpty();
    }

    /**
      The new state is reported first, which removes a conference in ERROR; then its members are
      replaced.
     */
    method ChangeMembers(c: Node, name: string, participants: seq<string>)
      requires Valid() && c in nodes && c.conference && c in internalModel
      modifies this`internalModel, nodes, calls, contacts
      ensures Wired() && nodes == old(nodes)
      ensures F.FlatTree(old(State()))
      ensures State() == F.Rejoined(old(State()), c, ConferenceState(name), participants)
    {
      hide Wired, KidsMap, ParentMap, InfoMap, S.Inv, S.Shape;
      hide F.ReadoptAll, F.SetState, F.Evict, F.Reported, F.FlatTree, S.Closed, ConferenceState;
      ReportState(c, name);
      NodesKnown();
      S.KidsKnown(State(), c);
      S.EvictKnown(State(), c, participants);
      Evict(c, participants);
      NodesKnown();
      ReadoptAll(c, participants);
    }

    method ReportState(c: Node, name: string)
      requires Valid() && c in nodes && c.conference && c in internalModel
      modifies this`internalModel, calls, contacts
      ensures Valid() && nodes == old(nodes) && c.children == old(c.children)
      ensures F.FlatTree(old(State())) && F.FlatTree(F.SetState(old(State()), c, ConferenceState(name)))
      ensures State() == F.Reported(F.SetState(old(State()), c, ConferenceState(name)), c)
    {
      hide Wired, KidsMap, ParentMap, InfoMap, S.Inv, S.Shape, S.Removable, S.Grounded;
      hide F.SetState, F.Reported, F.FlatTree, ConferenceState;
      ghost var s := State();
      S.FlatInv(s);
      NodesKnown();
      S.ConferenceMoves(s, c, name);
      SetConferenceState(c, name);
      S.GroundedInv(State());
      SlotCallChanged(c);
    }

    // ----- Adding calls -----

    /** A node for a new call; finished calls get one too but stay out of the tree. */
    method AddCall2(call: CallObject) returns (n: Node)
      requires Valid() && call !in mapping && !call.conference
      requires call.id != "" ==> call.id !in ids
      requires LifeOf(call.state).Creation? ==>
                 call.id == "" && F.FirstCreating(State(), F.ActiveCalls(State(), State().top)).None?
      modifies this
      ensures Valid() && fresh(n) && n.call == call && nodes == old(nodes) + {n} && calls == old(calls) + {call}
      ensures State() == F.AddCall(old(State()), n, F.CallInfo(call.state, call.id, call.hasAccount))
    {
      hide Wired, KidsMap, ParentMap, InfoMap, S.Inv, F.FirstCreating, LifeOf;
      ghost var s := State();
      NodesKnown();
      n := new Node(call);
      assert State() == s && Wired();
      R.AddableNew(s, n, InfoOf(n));
      R.AddCallKeeps(s, n, InfoOf(n));
      InsertNode(n);
      ListCall(n);
    }

    method ListCall(n: Node)
      requires Wired()
      modifies this`internalModel, this`ids
      ensures Wired()
      ensures State() == old(State()).(
                top := if LifeOf(n.call.state).Finished? then old(internalModel) else old(internalModel) + [n],
                ids := if n.call.id == "" then old(ids) else old(ids)[n.call.id := n])
    {
      hide Wired, KidsMap, ParentMap, InfoMap;
      if LifeOf(n.call.state) != Finished {
        internalModel := internalModel + [n];
      }
      if n.call.id != "" {
        ids := ids[n.call.id := n];
      }
    }

    /** Top-level calls, each followed by the participants if it is a conference. */
    method GetActiveCalls() returns (active: seq<Node>)
      requires Wired() && S.Closed(State())
      ensures active == F.ActiveCalls(State(), internalModel)
    {
      hide Wired, KidsMap, ParentMap, InfoMap;
      NodesKnown();
      active := [];
      for i := 0 to |internalModel|
        invariant active + F.ActiveCalls(State(), internalModel[i..]) == F.ActiveCalls(State(), internalModel)
      {
        assert internalModel[i] in State().top && internalModel[i..][1..] == internalModel[i + 1..];
        var n := internalModel[i];
        Regroup(active, [n], n.children, F.ActiveCalls(State(), internalModel[i + 1..]));
        active := active + [n] + n.children;
      }
    }

    method FindDialing() returns (n: Node?)
      requires Valid()
      ensures F.FirstCreating(State(), F.ActiveCalls(State(), State().top)) == if n == null then None else Some(n)
    {
      hide Wired, KidsMap, ParentMap, InfoMap, S.Inv, F.Creating, F.ActiveCalls;
      S.TopKnown(State());
      NodesKnown();
      var active := GetActiveCalls();
      for i := 0 to |active|
        invariant F.FirstCreating(State(), active) == F.FirstCreating(State(), active[i..])
      {
        assert active[i..][0] == active[i] && active[i..][1..] == active[i + 1..];
        S.ActiveKnown(State(), State().top, active[i]);
        var a := active[i];
        assert F.Creating(State(), a) == LifeOf(a.call.state).Creation? by { S.CreatingIs(State(), a); }
        if LifeOf(a.call.state) == Creation {
          return a;
        }
      }
      n := null;
    }

    /** The current dialing call, or a new one. */
    method DialingCall(hasAccount: bool) returns (n: Node)
      requires Valid()
      modifies this
      ensures Valid()
      ensures State() == R.DialingCall(old(State()), n, hasAccount)
      ensures match F.FirstCreating(old(State()), F.ActiveCalls(old(State()), old(State()).top))
        case None => fresh(n) && n.call.state == New
        case Some(m) => n == m
    {
      hide S.Inv, F.FirstCreating, KidsMap, ParentMap, InfoMap;
      var found := FindDialing();
      if found != null {
        return found;
      }
      var number := new ContactMethod("");
      var call := new CallObject(New, null, hasAccount, "", number);
      FreshCall(call);
      n := AddCall2(call);
    }

    /** Objects that have just been allocated are in no map. */
    twostate lemma FreshCall(new c: CallObject)
      requires fresh(c) && unchanged(this) && old(Wired()) && Wired()
      ensures c !in mapping
    {
      assert forall d :: d in old(mapping) ==> old(allocated(d));
    }

    /** A node that is known but not yet in the tree. */
    method InsertNode(n: Node)
      requires Wired() && n !in nodes && n.call !in mapping && n.children == [] && n.parent == null
      requires n.conference == n.call.conference
      requires n.conference ==> n.call.peer == null && (n.call.dialNumber != null ==> n.call.dialNumber in contacts)
      modifies this`mapping, this`nodes, this`calls
      ensures Wired() && nodes == old(nodes) + {n} && calls == old(calls) + {n.call}
      ensures State() == old(State()).(kids := old(State()).kids[n := []], info := old(State()).info[n := InfoOf(n)])
    {
      mapping := mapping[n.call := n];
      nodes := nodes + {n};
      calls := calls + {n.call};
      InsertedMaps(n);
      InsertedWires(n);
      hide Wired, KidsMap, ParentMap, InfoMap;
    }

    twostate lemma InsertedMaps(n: Node)
      requires old(Wired()) && n !in old(nodes) && n.children == [] && n.parent == null
      requires nodes == old(nodes) + {n} && calls == old(calls) + {n.call}
      requires forall m :: m in old(nodes) ==> m.children == old(m.children) && m.parent == old(m.parent)
      requires forall m :: m in old(nodes) ==> InfoOf(m) == old(InfoOf(m))
      ensures KidsMap() == old(KidsMap())[n := []]
      ensures ParentMap() == old(ParentMap())
      ensures InfoMap() == old(InfoMap())[n := InfoOf(n)]
    {
    }

    twostate lemma InsertedWires(n: Node)
      requires old(Wired()) && n !in old(nodes) && n.call !in old(mapping)
      requires nodes == old(nodes) + {n} && calls == old(calls) + {n.call} && mapping == old(mapping)[n.call := n]
      requires contacts == old(contacts) && n.conference == n.call.conference
      requires n.conference ==> n.call.peer == null && (n.call.dialNumber != null ==> n.call.dialNumber in contacts)
      requires forall c :: c in old(calls) ==> c.peer == old(c.peer) && c.dialNumber == old(c.dialNumber)
      ensures Wired()
    {
    }

    /** The call becomes reachable through the identifier that the daemon has given it. */
    method RegisterCall(call: CallObject)
      requires Wired() && call in mapping && !call.conference
      modifies this`ids
      ensures Wired()
      ensures State() == old(State()).(ids := old(ids)[call.id := mapping[call]])
    {
      hide KidsMap, ParentMap, InfoMap;
      ids := ids[call.id := mapping[call]];
    }

    /**
      A dialled call is accepted: it starts, is placed with the daemon, and is registered under its new
      identifier. Every way in which that may fail leaves a valid tree too.
     */
    method PlaceCall(n: Node, found: ContactMethod, reply: M.Reply)
      requires Valid() && n in nodes && n.call.Valid() && n.call.Available(found)
      requires n.call.Seen(found) == Some(reply.found)
      requires n.call.state == Dialing && reply.placedId !in ids
      modifies this`internalModel, this`ids, calls, contacts, n.call.Contacts(), found
      ensures Valid() && nodes == old(nodes)
      ensures F.FlatTree(old(State()))
      ensures State() == R.Dispatched(old(State()), n, M.PerformAction(old(n.call.View()), Accept, reply))
    {
      hide Wired, KidsMap, ParentMap, InfoMap, S.Inv, S.Shape, S.Removable, S.Grounded, R.Outcome;
      hide M.PerformAction, R.Dispatched, F.Reported, F.FlatTree;
      ghost var s, placed := State(), M.PerformAction(n.call.View(), Accept, reply);
      S.FlatInv(s);
      Accepted(n, reply);
      R.DispatchedKeeps(s, n, placed);
      R.DispatchedIs(s, n, placed);
      NodesKnown();
      AcceptDialed(n, found, reply);
      if n.call.state == Initialization {
        Mapped(n);
        RegisterCall(n.call);
      } else {
        S.GroundedInv(State());
        SlotCallChanged(n);
      }
    }

    lemma Accepted(n: Node, reply: M.Reply)
      requires Valid() && n in nodes && !n.call.conference && n.call.state == Dialing && reply.placedId !in ids
      ensures R.Outcome(State(), n, M.PerformAction(n.call.View(), Accept, reply))
      ensures !n.conference && State().info[n].watched == n.watched
    {
      hide Wired, KidsMap, ParentMap, InfoMap, S.Inv, M.PerformAction;
      NodesKnown();
      L.PlaceOutcome(n.call.View(), reply);
    }

    /** Only the entry of the accepted call changes. */
    method AcceptDialed(n: Node, found: ContactMethod, reply: M.Reply)
      requires Wired() && n in nodes && n.call.Valid() && n.call.Available(found)
      requires n.call.Seen(found) == Some(reply.found)
      modifies n.call, n.call.Contacts(), found
      ensures Wired()
      ensures
        var c := M.PerformAction(old(n.call.View()), Accept, reply);
        && n.call.state == c.state && n.call.id == c.id
        && State() == old(State()).(info :=
             old(State()).info[n := F.Info(false, c.state, c.id, c.hasAccount, n.watched)])
    {
      hide KidsMap, ParentMap, InfoMap, M.PerformAction;
      n.call.PerformAction(Accept, found, reply);
      CallMoved(n);
    }

    // ----- New conferences -----

    method NewConference(id: string, name: string) returns (n: Node)
      requires Valid() && id != "" && id !in ids
      modifies this
      ensures Wired() && fresh(n) && fresh(n.call) && n.conference && nodes == old(nodes) + {n}
      ensures calls == old(calls) + {n.call}
      ensures State() == F.NewConference(old(State()), n, id, ConferenceState(name))
    {
      hide KidsMap, ParentMap, InfoMap, S.Inv, ConferenceState;
      n := ConferenceNode(id, name);
      InsertNode(n);
      hide Wired;
      ids := ids[id := n];
      internalModel := internalModel + [n];
    }

    /** A conference that is not known yet. */
    method ConferenceNode(id: string, name: string) returns (n: Node)
      requires Wired() && id != ""
      modifies this`contacts
      ensures Wired() && State() == old(State()) && fresh(n) && fresh(n.call) && n.call !in mapping && n !in nodes
      ensures n.conference && n.call.conference && n.watched && n.children == [] && n.parent == null
      ensures n.call.id == id && n.call.state == ConferenceState(name) && n.call.hasAccount
      ensures n.call.peer == null && n.call.dialNumber != null && n.call.dialNumber in contacts
    {
      hide KidsMap, ParentMap, InfoMap, ConferenceState;
      var call := new CallObject.Conference(id, ConferenceState(name));
      FreshCall(call);
      n := new Node(call);
      contacts := contacts + {call.dialNumber};
    }

    /** The daemon has created a conference around some calls. */
    method AddConference(id: string, name: string, participants: seq<string>) returns (n: Node?)
      requires Valid() && id != "" && id !in ids && id !in participants && R.Participants(State(), participants)
      modifies this, nodes
      ensures Valid()
      ensures (n != null) == F.Joinable(old(State()), participants)
      ensures if n == null then State() == old(State())
        else fresh(n) && State() == F.AddConference(old(State()), n, id, ConferenceState(name), participants)
      ensures n != null ==> E.Owns(State(), n, E.Members(old(ids), participants)) && n in internalModel
    {
      hide Wired, KidsMap, ParentMap, InfoMap, S.Inv, S.CallsOnlyIds, F.AdoptAll, F.NewConference, E.Members, E.Owns;
      ghost var s := State();
      S.TopKnown(s);
      NodesKnown();
      if participants == [] || participants[0] !in ids || !ids[participants[0]].call.hasAccount {
        return null;
      }
      n := NewConference(id, name);
      R.AddConferenceKeeps(s, n, id, ConferenceState(name), participants);
      E.NewOwns(s, n, id, ConferenceState(name), participants);
      S.NewConferenceKeeps(s, n, id, ConferenceState(name));
      S.TopKnown(State());
      S.NewConferenceIs(s, n, id, ConferenceState(name));
      NodesKnown();
      AdoptAll(n, participants);
    }

    // ----- State changes of calls -----

    /**
      The daemon reports a state for a known call. A Ring peer that refuses the connection hangs up,
      which is read as busy.
     */
    method SlotCallStateChanged(id: string, name: string, refused: bool, found: ContactMethod)
      requires Valid() && id in ids && ids[id] in nodes
      requires ids[id].call.Valid() && ids[id].call.Available(found)
      requires Validated(ids[id].call.state, ToDaemonState(if name == "HUNGUP" && refused then "BUSY" else name))
      modifies this`internalModel, calls, contacts, ids[id].call.Contacts()
      ensures Valid() && nodes == old(nodes)
      ensures F.FlatTree(old(State())) && F.IsCall(old(State()), old(ids[id]))
      ensures
        var d := ToDaemonState(if name == "HUNGUP" && refused then "BUSY" else name);
        State() == R.DaemonMove(old(State()), old(ids[id]), d)
    {
      hide Wired, KidsMap, ParentMap, InfoMap, ToDaemonState, DaemonTarget, DaemonCallOf, Validated, LifeOf;
      hide S.Inv, S.Shape, S.Removable, S.Grounded, R.DaemonMove, F.SetState, F.Reported, F.FlatTree;
      var n := ids[id];
      var previous := n.call.state;
      var d := ToDaemonState(if name == "HUNGUP" && refused then "BUSY" else name);
      ghost var s := State();
      NodesKnown();
      S.FlatInv(s);
      R.DaemonMoveIs(s, n, d);
      CallStateChanged(n, d, found);
      if previous != Error || DaemonCallOf(previous, d) != Raise {
        S.GroundedInv(State());
        SlotCallChanged(n);
      }
    }

    /** Only the state of the call changes. */
    method CallStateChanged(n: Node, d: DaemonState, found: ContactMethod)
      requires Wired() && n in nodes && n.call.Valid() && n.call.Available(found) && Validated(n.call.state, d)
      modifies n.call, n.call.Contacts()
      ensures Wired() && n.call.state == DaemonTarget(old(n.call.state), d)
      ensures State() == F.SetState(old(State()), n, DaemonTarget(old(n.call.state), d))
    {
      hide Wired, KidsMap, ParentMap, InfoMap, DaemonTarget, LifeOf, M.DaemonEvent;
      ghost var view, seen := n.call.View(), n.call.Seen(found).value;
      L.DaemonLands(view, d, seen);
      L.DaemonKeepsNames(view, d, seen);
      NodesKnown();
      n.call.StateChanged(d, found);
      CallMoved(n);
    }

    /** What the tree reads of a call, and what the tree owns of a conference, is as before. */
    twostate predicate Same(c: CallObject)
      reads c
    {
      && c.state == old(c.state) && c.id == old(c.id) && c.hasAccount == old(c.hasAccount)
      && c.peer == old(c.peer) && c.dialNumber == old(c.dialNumber)
    }

    /** One call has changed and nothing else of the tree has. */
    twostate lemma CallMoved(n: Node)
      requires old(Wired()) && n in nodes
      requires n.conference ==> n.call.peer == old(n.call.peer) && n.call.dialNumber == old(n.call.dialNumber)
      requires nodes == old(nodes) && calls == old(calls) && mapping == old(mapping) && contacts == old(contacts)
      requires internalModel == old(internalModel) && ids == old(ids)
      requires forall m :: m in nodes ==> m.children == old(m.children) && m.parent == old(m.parent)
      requires forall c :: c in calls && c != n.call ==> Same(c)
      ensures Wired()
      ensures State() == old(State()).(info := old(State()).info[n := InfoOf(n)])
    {
      MovedMaps();
      MovedInfo(n);
      hide KidsMap, ParentMap, InfoMap;
    }

    twostate lemma MovedMaps()
      requires nodes == old(nodes)
      requires forall m :: m in nodes ==> m.children == old(m.children) && m.parent == old(m.parent)
      ensures KidsMap() == old(KidsMap()) && ParentMap() == old(ParentMap())
    {
    }

    twostate lemma MovedInfo(n: Node)
      requires old(Wired()) && n in nodes && nodes == old(nodes) && calls == old(calls)
      requires forall c :: c in calls && c != n.call ==> Same(c)
      ensures InfoMap() == old(InfoMap())[n := InfoOf(n)]
    {
      assert forall m :: m in nodes && m != n ==> m.call in calls && m.call != n.call;
    }
  }
}
