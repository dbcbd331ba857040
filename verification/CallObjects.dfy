/** Calls and contacts as objects: every method refines a function of CallMachine. */
module CallObjects {
  import opened Options
  import opened Lists
  import opened CallTables
  import M = CallMachine

  class ContactMethod {
    var uri: string
    var activeCalls: seq<CallObject>
    var initCalls: seq<CallObject>

    constructor (uri: string)
      ensures this.uri == uri && activeCalls == [] && initCalls == []
    {
      this.uri, activeCalls, initCalls := uri, [], [];
    }

    method AddInitCall(c: CallObject)
      modifies this`initCalls
      ensures initCalls == old(initCalls) + [c]
    {
      initCalls := initCalls + [c];
    }

    method RemoveInitCall(c: CallObject)
      modifies this`initCalls
      ensures initCalls == RemoveAll(old(initCalls), c)
    {
      initCalls := RemoveAll(initCalls, c);
    }

    method AddActiveCall(c: CallObject)
      modifies this`activeCalls, this`initCalls
      ensures activeCalls == old(activeCalls) + [c]
      ensures initCalls == RemoveAll(old(initCalls), c)
    {
      activeCalls := activeCalls + [c];
      RemoveInitCall(c);
    }

    method RemoveActiveCall(c: CallObject)
      modifies this`activeCalls
      ensures activeCalls == RemoveAll(old(activeCalls), c)
    {
      activeCalls := RemoveAll(activeCalls, c);
    }

    /** How often this contact lists a call. */
    ghost function Listing(c: CallObject): M.Usage
      reads this
    {
      M.Usage(multiset(activeCalls)[c], multiset(initCalls)[c])
    }

    /** The callback of a life cycle stage: notifyInit, initMedia or terminateMedia. */
    method EnterStage(c: CallObject, l: LifeCycle)
      modifies this`activeCalls, this`initCalls
      ensures Listing(c) == M.Listing(old(Listing(c)), l)
      ensures forall d: CallObject :: old(allocated(d)) && d != c ==> Listing(d) == old(Listing(d))
    {
      RemoveAllCounts(initCalls, c);
      RemoveAllCounts(activeCalls, c);
      match l
      case Creation =>
      case Initializing => AddInitCall(c);
      case Progress => AddActiveCall(c);
      case Finished => RemoveInitCall(c); RemoveActiveCall(c);
    }
  }

  class CallObject {
    const conference: bool
    var state: State
    var holdOut: bool
    var dialNumber: ContactMethod?
    var peer: ContactMethod?
    var transferNumber: Option<string>
    var hasAccount: bool
    var id: string

    /** A contact as this call sees it. */
    ghost function Seen(k: ContactMethod?): Option<M.Contact>
      reads k
    {
      if k == null then None else Some(M.Contact(k.uri, k.Listing(this)))
    }

    ghost function View(): M.Call
      reads this, peer, dialNumber
    {
      M.Call(state, holdOut, Seen(dialNumber), Seen(peer), transferNumber, hasAccount, id)
    }

    /** The temporary contact being dialled is never the peer. */
    ghost predicate Valid()
      reads this
    {
      !conference && (peer != null ==> peer != dialNumber)
    }

    ghost predicate Unlisted(k: ContactMethod)
      reads this, k
    {
      k != dialNumber && this !in k.activeCalls && this !in k.initCalls
    }

    /** A contact that the directory may hand out for this call. */
    ghost predicate Available(k: ContactMethod)
      reads this, k
    {
      Unlisted(k) && k != peer
    }

    ghost function Contacts(): set<object>
      reads this
    {
      (if peer == null then {} else {peer}) + (if dialNumber == null then {} else {dialNumber})
    }

    constructor (state: State, peer: ContactMethod?, hasAccount: bool, id: string, dialNumber: ContactMethod)
      requires peer != null ==> peer != dialNumber
      ensures Valid() && this.peer == peer && this.dialNumber == dialNumber
      ensures this.state == state && this.hasAccount == hasAccount && this.id == id
      ensures !holdOut && transferNumber.None?
    {
      conference := false;
      this.state, this.peer, this.hasAccount, this.id := state, peer, hasAccount, id;
      this.dialNumber := dialNumber;
      holdOut, transferNumber := false, None;
    }

    constructor Conference(id: string, state: State)
      requires id != ""
      ensures conference && this.id == id && this.state == state && hasAccount
      ensures peer == null && fresh(dialNumber)
    {
      conference := true;
      this.id, this.state := id, state;
      peer, hasAccount := null, true;
      holdOut, transferNumber := false, None;
      dialNumber := new ContactMethod("");
    }

    // ----- Changing state -----

    /** Stage callbacks go to the peer, or to the dialled number. */
    method EnterStage(l: LifeCycle)
      requires peer != null ==> peer != dialNumber
      modifies Contacts()
      ensures View() == M.EnterStage(old(View()), l)
    {
      if peer != null {
        peer.EnterStage(this, l);
      } else if dialNumber != null {
        dialNumber.EnterStage(this, l);
      }
    }

    method ChangeCurrentState(target: State)
      requires peer != null ==> peer != dialNumber
      modifies this`state, Contacts()
      ensures state == target
      ensures View() == M.ChangeState(old(View()), target)
    {
      if state == target {
        return;
      }
      var previous := state;
      state := target;
      if LifeOf(target) != LifeOf(previous) {
        EnterStage(LifeOf(target));
      }
    }

    // ----- Daemon events -----

    method SettleDial(found: ContactMethod)
      requires Valid() && Available(found)
      modifies this`peer, this`dialNumber
      ensures Valid() && dialNumber == null && (peer == old(peer) || peer == found)
      ensures View() == M.SettleDial(old(View()), Seen(found).value)
    {
      if dialNumber != null {
        if peer == null {
          peer := found;
        }
        dialNumber := null;
      }
    }

    method RunDaemonCall(f: DaemonCall, found: ContactMethod)
      requires Valid() && Available(found)
      modifies this, Contacts()
      ensures Valid()
      ensures View() == M.RunDaemonCall(old(View()), f, old(Seen(found).value))
    {
      if f == Raise {
        ChangeCurrentState(Error);
        return;
      }
      if f == Start || f == Fail || LifeOf(state) != Creation {
        SettleDial(found);
      }
    }

    /** The daemon reports a state; the transition has been validated. */
    method StateChanged(d: DaemonState, found: ContactMethod)
      requires Valid() && Available(found) && Validated(state, d)
      modifies this, Contacts()
      ensures Valid()
      ensures View() == M.DaemonEvent(old(View()), d, old(Seen(found).value))
    {
      hide M.RunDaemonCall, M.ChangeState, DaemonTarget, DaemonCallOf, LifeOf;
      var previous := state;
      ChangeCurrentState(DaemonTarget(state, d));
      holdOut := state == Hold;
      RunDaemonCall(DaemonCallOf(previous, d), found);
    }

    // ----- User actions -----

    method SendCall(found: ContactMethod, reply: M.Reply)
      requires Valid() && Available(found) && Seen(found) == Some(reply.found)
      modifies this, Contacts(), found
      ensures Valid()
      ensures View() == M.SendCall(old(View()), reply)
    {
      SettleDial(found);
      if reply.placedId == "" {
        ChangeCurrentState(Failure);
        id := "FAILED";
      } else {
        id := reply.placedId;
      }
    }

    method Place(found: ContactMethod, reply: M.Reply)
      requires Valid() && Available(found) && Seen(found) == Some(reply.found)
      modifies this, Contacts(), found
      ensures Valid()
      ensures View() == M.PlaceCall(old(View()), reply)
    {
      hide M.SendCall, M.ChangeState, LifeOf;
      var uri := if peer != null then peer.uri else if dialNumber != null then dialNumber.uri else "";
      if uri == "" {
        ChangeCurrentState(Aborted);
        dialNumber := null;
      } else if hasAccount || reply.peerAccountReady || reply.defaultAccount {
        hasAccount := true;
        SendCall(found, reply);
      } else {
        ChangeCurrentState(Error);
      }
    }

    method SetHoldOut(on: bool)
      modifies this`holdOut
      ensures View() == old(View()).(holdOut := on)
    {
      holdOut := on;
    }

    lemma ViewState()
      ensures View().state == state
    {
    }

    method RunActionCall(f: ActionCall, found: ContactMethod, reply: M.Reply)
      requires Valid() && Available(found) && Seen(found) == Some(reply.found)
      modifies this, Contacts(), found
      ensures Valid()
      ensures View() == M.RunActionCall(old(View()), f, reply)
      ensures f != ActionCall.Place ==> unchanged(found) && peer == old(peer) && dialNumber == old(dialNumber)
    {
      hide M.PlaceCall, M.ChangeState, LifeOf, View;
      ViewState();
      match f
      case RefuseCall => if !reply.ok { ChangeCurrentState(Error); }
      case HangUp => if !reply.ok { ChangeCurrentState(Over); }
      case CancelCall => if !reply.ok { ChangeCurrentState(Over); }
      case Discard => if LifeOf(state) != Finished { ChangeCurrentState(Error); }
      case PutOnHold => SetHoldOut(true);
      case TakeOffHold => SetHoldOut(false);
      case Place => Place(found, reply);
      case _ =>
    }

    method PerformAction(a: Action, found: ContactMethod, reply: M.Reply)
      requires Valid() && Available(found) && Seen(found) == Some(reply.found)
      modifies this, Contacts(), found
      ensures Valid()
      ensures View() == M.PerformAction(old(View()), a, reply)
      ensures ActionCallOf(old(state), a) != ActionCall.Place ==>
                unchanged(found) && peer == old(peer) && dialNumber == old(dialNumber)
    {
      hide M.RunActionCall, M.ChangeState, ActionTarget, LifeOf;
      var previous := state;
      ChangeCurrentState(ActionTarget(previous, a));
      RunActionCall(ActionCallOf(previous, a), found, reply);
    }

    // ----- Dial editing -----

    method SetDialUri(text: string)
      requires Valid()
      modifies if dialNumber == null then {} else {dialNumber}
      ensures View() == M.DialWith(old(View()), text)
    {
      if dialNumber != null {
        dialNumber.uri := text;
      }
    }

    method SetDialNumber(text: string)
      requires Valid()
      modifies this`state, Contacts()
      ensures Valid()
      ensures View() == M.SetDialNumberOf(old(View()), text)
    {
      if LifeOf(state) != Creation {
        return;
      }
      SetDialUri(text);
      if text != "" && state == New {
        ChangeCurrentState(Dialing);
      } else if text == "" && state == Dialing {
        ChangeCurrentState(New);
      }
    }

    method SetPeerContactMethod(k: ContactMethod)
      requires Valid() && k != dialNumber
      modifies this, Contacts(), k
      ensures Valid()
      ensures View() == M.SetPeerOf(old(View()), old(Seen(k).value))
    {
      if LifeOf(state) == Creation {
        peer := k;
        SetDialNumber(k.uri);
      }
    }

    method AppendText(text: string)
      requires Valid()
      modifies this, Contacts()
      ensures Valid()
      ensures View() == M.AppendTo(old(View()), text)
    {
      if M.Transferring(state) {
        if transferNumber.Some? {
          transferNumber := Some(transferNumber.value + text);
        }
      } else if LifeOf(state) == Creation {
        if text != "" {
          ChangeCurrentState(Dialing);
        }
        if dialNumber != null {
          SetDialUri(dialNumber.uri + text);
        }
      }
    }

    method BackspaceItemText()
      requires Valid()
      modifies this, Contacts()
      ensures Valid()
      ensures View() == M.EraseLast(old(View()))
    {
      if M.Transferring(state) {
        if transferNumber.Some? {
          var text := transferNumber.value;
          if |text| > 0 {
            transferNumber := Some(text[..|text| - 1]);
          } else {
            ChangeCurrentState(Aborted);
          }
        }
      } else if LifeOf(state) == Creation && dialNumber != null {
        EraseDialed();
      }
    }

    method EraseDialed()
      requires Valid() && LifeOf(state) == Creation && dialNumber != null
      modifies this, Contacts()
      ensures Valid()
      ensures View() == M.EraseLast(old(View()))
    {
      var text := dialNumber.uri;
      if |text| > 0 {
        ChangeCurrentState(Dialing);
        SetDialUri(text[..|text| - 1]);
      } else {
        ChangeCurrentState(Aborted);
      }
    }

    method Reset()
      requires Valid()
      modifies this, Contacts()
      ensures Valid()
      ensures View() == M.ClearText(old(View()))
    {
      if M.Transferring(state) {
        if transferNumber.Some? {
          transferNumber := Some("");
        }
      } else if LifeOf(state) == Creation {
        ChangeCurrentState(New);
        SetDialUri("");
      }
    }

    // ----- Transfers -----

    method SetTransferNumber(text: string)
      modifies this`transferNumber
      ensures View() == old(View()).(transferNumber := Some(text))
    {
      transferNumber := Some(text);
    }

    /** The first two calls of a transfer. */
    method AskTransfer(uri: string, found: ContactMethod, reply: M.Reply)
      requires Valid() && Available(found) && Seen(found) == Some(reply.found)
      modifies this, Contacts(), found
      ensures Valid() && state == Transferred
      ensures Available(found) && unchanged(found) && Contacts() == old(Contacts())
      ensures View() == M.TransferSteps(old(View()), uri, reply).1
    {
      hide M.PerformAction, M.ChangeState, ActionTarget, ActionCallOf, LifeOf, View;
      SetTransferNumber(uri);
      M.TransferCallsNothing(state);
      PerformAction(DoTransfer, found, reply);
      ChangeCurrentState(Transferred);
    }

    method TransferTo(uri: string, found: ContactMethod, reply: M.Reply)
      requires Valid() && Available(found) && Seen(found) == Some(reply.found)
      modifies this, Contacts(), found
      ensures Valid()
      ensures View() == M.TransferSteps(old(View()), uri, reply).3
    {
      hide M.RunActionCall, M.ChangeState, ActionTarget, ActionCallOf, LifeOf;
      ghost var steps := M.TransferSteps(View(), uri, reply);
      AskTransfer(uri, found, reply);
      M.TransferCallsNothing(state);
      PerformAction(Accept, found, reply);
      assert View() == steps.2;
      ChangeCurrentState(Over);
    }

    // ----- Conferences -----

    /** A conference copies the state of the daemon without any callback. */
    method ConferenceStateChanged(name: string)
      modifies this`state
      ensures state == ConferenceState(name)
    {
      state := ConferenceState(name);
    }
  }
}
