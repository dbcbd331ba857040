# LibRingClient: a verified model of its stateful core

This project models, in Dafny, the parts of LibRingClient where several structures have to agree while
signals from the daemon and actions of the user arrive in any order, and proves what they keep.

Each part has the same layout. A value (a record of lists and maps over an unspecified type of nodes)
and functions on it say what every operation does; lemmas prove properties of those functions, of
whole runs of them, and of their inverses. Classes with the fields of the original carry out the same
operations step by step on the heap, and every method ensures that the value of the object is the
function applied to the old value. `Valid()` is the invariant of the value, read off the heap.

| part | files |
|---|---|
| shared lists | `Options.dfy`, `Lists.dfy` |
| state machine of a call | `CallTables.dfy`, `CallMachine.dfy`, `CallRuns.dfy`, `CallEffects.dfy`, `CallObjects.dfy` |
| tree of calls and conferences | `CallForest.dfy`, `CallForestShape.dfy`, `CallForestRuns.dfy`, `CallForestRemoval.dfy`, `CallForestErrors.dfy`, `CallForestEffects.dfy`, `CallForestIndex.dfy`, `CallModel.dfy` |
| video watchdog of a call | `LiveMedia.dfy` |
| tree of bookmarks | `Bookmarks.dfy`, `BookmarkProofs.dfy`, `BookmarkRuns.dfy`, `BookmarkLists.dfy`, `BookmarkModel.dfy` |
| bootstrap servers | `Bootstrap.dfy`, `BootstrapModel.dfy` |
| codecs of an account | `Codecs.dfy`, `CodecModel.dfy` |
| merging contact methods | `Merging.dfy`, `MergingRuns.dfy`, `MergeModel.dfy` |
| list of accounts | `Accounts.dfy`, `AccountModel.dfy` |
| edit states of an account | `AccountEdit.dfy` |
| chain of trust | `ChainOfTrust.dfy` |

`dafny verify dfyconfig.toml` checks the whole project.

## How the source is read

- **Answers of the daemon** (participant lists, codec lists, account details, whether a request was
  accepted, new identifiers) are parameters. The strings of the daemon states come from a header,
  `call_const.h`, that is not part of this model; their spelling follows the protocol.
- **Transitions checked by an assertion** (`src/call.cpp:1375-1378`) are taken as enforced; without the
  check, `CallRuns.DaemonForward` says exactly when a daemon event still moves forward.
- **The table of user actions** lists five of the seven actions (`src/call.cpp:92-112`). The others get the
  zero-initialised column, NEW; `CallRuns.ActionForward` says exactly when that is harmless.
- **Conferences** take the daemon's state without the tables (`src/call.cpp:1445-1455`), so the life-cycle
  results are about ordinary calls.
- **Loops that remove conferences while iterating** over the same list (`src/callmodel.cpp:795-802`,
  `src/callmodel.cpp:1592-1595`) are read as "while such a conference exists, remove it".
- **Participant lists** have no duplicates and name calls, as the daemon promises.
- **A second removal.** A removed conference keeps its list of children (`src/callmodel.cpp:780-788`), and the
  delayed clean-up (`src/callmodel.cpp:1702-1716`) removes it again. `CallForestRemoval.RemovalKeepsExactly`
  gives the exact condition under which a removal keeps the tree a forest, and `SecondRemovalBreaks` shows
  that this second removal does not meet it while a child is still talking.
- **Changes reported in ERROR.** Every change of state is reported (`src/call.cpp:1463`, `src/call.cpp:1559`), and
  the report of a call or conference in ERROR removes it at once (`src/callmodel.cpp:1697-1700`). Calls are watched
  from the moment they are added, unless they are over by then (`src/callmodel.cpp:552`), and so are conferences
  (`src/callmodel.cpp:923`). Names of conference states other than three are read as ERROR (`src/call.cpp:710-717`),
  so a change may remove its own conference before it replaces the members (`src/callmodel.cpp:1551`).
  `CallForestErrors.ChangeKeepsExactly` gives the exact condition under which the tree survives that, and this
  condition is part of what `CallForestRuns.Allowed` asks of such an event. Within one event of a call the removal
  is made after the last change of that call; it touches conferences only, and repeated reports change nothing
  (`ReportOnce`). A report that comes later, in a call that stays in ERROR, is the event `CallRemoved`.
- **Written identifiers.** `CodecModel::setData` may write an identifier (`src/codecmodel.cpp:254-256`). A run allows
  that exactly if no other row has it (`CodecRuns.IdSetKeepsExactly`).
- **A joined call that comes out again.** Removing an empty conference also removes every conference whose first or
  last child is in ERROR (`src/callmodel.cpp:794-802`). If a change empties another conference while such a call is
  at either end of the changed one, that one is removed as well and its members are put back.
  `CallForestEffects.ChangedStep` gives the exact condition and `JoinedCallComesOut` an input.
- **Initials** of bookmarks are upper-case (`src/bookmarkmodel.cpp:148`), so none of them is the key `mp`.
- **Merging.** The documentation (`src/contactmethod.cpp:1182-1187`, `README.md:185-190`) promises that old
  handles keep working. The loop at `src/contactmethod.cpp:1233-1236` enters handles through the object of
  the merged handle, which is the old one until that handle itself has been redirected. Both are modelled:
  the code as written, with the exact condition under which handles stay alive, and the documented intent
  (`MergedAsIntended`), for which the results hold without condition. The order in which the set of
  parents is visited is a parameter.
- **Bootstrap servers** are loaded from the cached host name of the account and saved to its detail
  (`src/bootstrapmodel.cpp:121-123`, `src/bootstrapmodel.cpp:139`); text loaded and text saved are kept apart
  for that reason.
- **Hash look-ups that insert** a default value are read as look-ups; the inserted defaults are not
  distinguished from absent entries.

## Model

| member | source | states |
|---|---|---|
| `CallRuns.RunForward` | src/call.h:76-79 | over any interleaving of validated daemon events, listed actions, transfers and dial edits the life-cycle rank never decreases, FINISHED is never left and CREATION never re-entered |
| `CallRuns.StepForward` | src/call.cpp:213-233 | each kind of event, with what the source asks of it, keeps or raises the rank |
| `CallRuns.PathForward` | src/call.cpp:1529-1566 | so does every state that a call passes through inside one event, and the last of them is where the event ends |
| `CallRuns.DaemonForward` | src/call.cpp:134-157 | a daemon event moves forward if and only if it does not make a busy call current; every validated transition avoids that |
| `CallRuns.ActionForward` | src/call.cpp:92-112 | an action moves forward if and only if the table lists it or the call is still being created: the two actions without a column fall back to NEW |
| `CallRuns.TransferForward` | src/callmodel.cpp:844-853 | the four steps of a transfer go forward one after the other if and only if it starts in PROGRESS; it always ends in OVER |
| `CallRuns.AskTransfer` | src/call.cpp:92-112 | the TRANSFER action keeps a talking call talking and finishes any other call, whatever its callback does |
| `CallEffects.EndingEvents` | src/call.cpp:134-157 | under a validated transition HUNGUP and OVER end every call that has begun in OVER, FAILURE in FAILURE, and BUSY in BUSY, which only an initialising call can take |
| `CallEffects.HangUpEnds` | src/call.cpp:144 | HUNGUP is always valid for a call that has begun; it is then OVER, not on hold, and its peer does not list it any more |
| `CallEffects.EndLeavesLists` | src/call.cpp:1596-1606 | whichever event ends a call, its peer does not list it afterwards, and a number still being dialled becomes a peer that does not list it |
| `CallEffects.TalkingEvents` | src/call.cpp:134-157 | CURRENT and HOLD lead there from every call that has begun, and within a transfer to its two states; RINGING keeps a talking call talking; CONNECTING and INACTIVE are errors |
| `CallEffects.RingingEvents` | src/call.cpp:134-157 | what RINGING, CONNECTING and INACTIVE do before the peers talk |
| `CallEffects.CreationEvents` | src/call.cpp:134-157 | a call being created is started by INACTIVE or RINGING, and every other valid event is an error |
| `CallEffects.EndedEvents` | src/call.cpp:134-157 | a call that has ended stays ended, and which events a busy or failed call still takes |
| `CallEffects.HoldFlag` | src/call.cpp:1384-1397 | after a daemon event the hold flag is set if and only if the call is in HOLD |
| `CallEffects.TalkingNames` | src/call.cpp:678-706 | what each name that the daemon may report does to a talking call |
| `CallEffects.StartNames` | src/call.cpp:648-668 | a call found at start-up is in the state that the event of that name leads to, except for five names |
| `CallEffects.AcceptDoes` | src/call.cpp:92-112 | ACCEPT dials, places, waits for the daemon, or is an error, by state |
| `CallEffects.RefuseDoes` | src/call.cpp:92-112 | REFUSE gives up a call being created and asks the daemon to end one that has begun; the state for both of its answers |
| `CallEffects.TransferDoes` | src/call.cpp:92-112 | TRANSFER is asked for and taken back by talking calls only |
| `CallEffects.TransferTwice` | src/call.cpp:92-112 | asking for a transfer twice leaves a talking call in its state |
| `CallEffects.HoldDoes` | src/call.cpp:92-112 | HOLD keeps the state of a talking call and sets the flag to the opposite of being on hold |
| `CallEffects.RecordDoes` | src/call.cpp:92-112 | RECORD leaves every call with media in its state |
| `CallEffects.TypingDials` | src/call.cpp:2179-2225 | typing a number letter by letter appends it to the dialled number, moves to DIALING and touches nothing else |
| `CallEffects.TypedThenErased` | src/call.cpp:2228-2279 | erasing what was typed brings the number back; one more erasure of an empty number aborts |
| `CallEffects.TypingTransfers` | src/call.cpp:2179-2225 | in a transfer the letters go to the transfer number |
| `CallEffects.ErasingTransfers` | src/call.cpp:2228-2279 | and are erased from it |
| `CallEffects.NumberDecides` | src/call.cpp:1270-1289 | a number set at once replaces what was typed, and the state is NEW if and only if it is empty; a reset empties it |
| `CallEffects.PeerDialled` | src/call.cpp:1299-1308 | a chosen peer has its number dialled |
| `CallTables.DaemonTableForward` | src/call.cpp:134-157 | the only cell of the daemon table that goes back in the life cycle is BUSY x CURRENT |
| `CallTables.ActionTableForward` | src/call.cpp:92-112 | the action table never goes back for a listed action, and always does for an unlisted one outside CREATION |
| `CallRuns.RunListing` | src/call.cpp:1568-1606 | the two list invariants, at most and exactly, survive every run |
| `CallRuns.StepListing` | src/call.cpp:1529-1606 | each event keeps both list invariants, including the exchange of the dialled number for a peer |
| `CallRuns.ListedOnlyInStage` | src/contactmethod.cpp:1499-1543 | in every reachable state the peer lists a call as active only in PROGRESS and as initialising only in INITIALIZATION, at most once each |
| `CallRuns.ListedExactlyInStage` | src/contactmethod.cpp:1499-1543 | for a call created in NEW whose peer is chosen first, the peer lists it exactly in those stages |
| `CallObjects.CallObject.ChangeCurrentState` | src/call.cpp:1529-1566 | the object and the two contact lists end as the state machine says, with a stage callback only when the stage changes |
| `CallObjects.CallObject.StateChanged` | src/call.cpp:1357-1466 | a daemon event on the object: new state, hold flag, callback, and the dialled number turned into the peer |
| `CallObjects.CallObject.PerformAction` | src/call.cpp:1479-1526 | a user action on the object, through both action tables |
| `CallObjects.CallObject.Place` | src/call.cpp:1888-1995 | placing a call: aborted without a number, failed without an account or identifier, placed otherwise |
| `CallObjects.CallObject.RunActionCall` | src/call.cpp:1691-1875 | what each action callback does when the daemon accepts or refuses, and that only placing touches peer and dialled number |
| `CallObjects.CallObject.SettleDial` | src/call.cpp:1456-1462 | the dialled number becomes the peer if there is none, and is dropped |
| `CallObjects.CallObject.SetDialNumber` | src/call.cpp:1270-1289 | dialling text moves between NEW and DIALING |
| `CallObjects.CallObject.SetPeerContactMethod` | src/call.cpp:1299-1308 | only a call that is being created takes a peer |
| `CallObjects.CallObject.AppendText` | src/call.cpp:2179-2225 | typed text goes to the transfer number or the dialled number, depending on the stage |
| `CallObjects.CallObject.BackspaceItemText` | src/call.cpp:2228-2279 | erasing from an empty number aborts the call |
| `CallObjects.CallObject.Reset` | src/call.cpp:2282-2316 | the number is cleared and the call is NEW again |
| `CallObjects.CallObject.TransferTo` | src/callmodel.cpp:844-853 | the object goes through the four steps of a transfer |
| `CallObjects.ContactMethod.EnterStage` | src/call.cpp:1568-1606 | how often the contact lists the call after each stage callback, and that it lists every other call as often as before |
| `CallForestRuns.EveryRunIsAForest` | src/callmodel.cpp:507-575 | from the empty model, after any allowed events the tree is a two-level forest: nothing twice, children point back, top-level nodes name no top-level parent, every live call is in it, and at most one call is in CREATION |
| `CallForestRuns.StepKeeps` | src/callmodel.cpp:1417-1641 | each allowed event keeps the whole invariant, with the removals that a change to ERROR brings about; a conference read as ERROR is allowed exactly when nobody alive is in it or to join it |
| `CallForestRuns.ConferencesKeepLiveCalls` | src/callmodel.cpp:862-934 | creating, changing or removing a conference, if allowed, leaves the set of live calls in the tree unchanged, cleanup cascades included |
| `CallForestRuns.CreationOnlyByDialing` | src/callmodel.cpp:610-644 | a call in CREATION was there before, or has just been dialled because there was none |
| `CallForestRuns.DialingReuses` | src/callmodel.cpp:610-644 | dialling while a call is in CREATION gives that call back and changes nothing |
| `CallForestRuns.MachineMoves` | src/call.cpp:1529-1566 | every event the call state machine accepts is a run of state changes that the tree accepts, one for each state on the way, and ends in the same state |
| `CallForestRuns.MoveKeeps` | src/callmodel.cpp:1681-1700 | a state change of a call keeps the invariant, with the removal that is made at once when the state is ERROR |
| `CallForestRuns.DaemonMoveKeeps` | src/callmodel.cpp:1417-1498 | so does any validated daemon event |
| `CallForestRuns.DaemonMoveIs` | src/call.cpp:1357-1466 | a daemon event is a state change and then one report, unless a call in ERROR raises again |
| `CallForestRuns.DispatchedKeeps` | src/call.cpp:1888-1995 | placing a dialled call keeps the invariant, however it ends |
| `CallForestRuns.AddConferenceKeeps` | src/callmodel.cpp:862-934 | a new conference keeps the invariant and all that is known of the calls; CreatedStep says where they are |
| `CallForestEffects.CreatedStep` | src/callmodel.cpp:897-917 | the children of a new conference are exactly the known participants in the order of the daemon; each points to it, has left the list and is under no other conference; everybody else in the list stays |
| `CallForestEffects.ConferenceGathers` | src/callmodel.cpp:862-934 | the whole tree after a conference is created, in closed form |
| `CallForestEffects.ChangedStep` | src/callmodel.cpp:1528-1595 | after a change other than to ERROR the children are exactly the known participants in the order of the daemon, and under no other conference; live children that left are at top level without a parent; the conference stays in the list if and only if no conference was emptied or neither its first nor its last member is in ERROR, and only otherwise do members come back to the list |
| `CallForestEffects.ChangeRegroups` | src/callmodel.cpp:1551-1595 | the whole tree after a change in closed form: regrouped, and cleaned if and only if some conference was emptied |
| `CallForestEffects.RejoinedRegroups` | src/callmodel.cpp:1551-1589 | the loops that evict and take back participants amount to one regrouping |
| `CallForestEffects.JoinedCallComesOut` | src/callmodel.cpp:1592-1595 | a concrete change after which a joined call is at top level and its conference has gone |
| `CallForestEffects.ArrivedStep` | src/callmodel.cpp:507-575 | a call that arrives is at the end of the list unless it is over, and its identifier leads to it; nothing else changes |
| `CallForestRuns.ChangeConferenceKeeps` | src/callmodel.cpp:1528-1595 | a changed conference, with the removal of empty ones, keeps the invariant and all that is known of the calls, unless it is read as ERROR while somebody alive is concerned; ChangedStep says where they are |
| `CallForestErrors.ChangeKeepsExactly` | src/callmodel.cpp:1551-1589 | for every state and every participant list, a change keeps the invariant if and only if the state is not read as ERROR, or no child and no known participant is alive |
| `CallForestErrors.ErrorLoses` | src/callmodel.cpp:1697-1700 | a conference read as ERROR is removed before its members are looked at: a live participant then ends up nowhere in the tree |
| `CallForestErrors.ErrorDuplicates` | src/callmodel.cpp:1557-1571 | and a live child that leaves is in the list twice |
| `CallForestErrors.ErrorExample` | src/call.cpp:710-717 | a recorded conference (ACTIVE_ATTACHED_REC) with one talking call loses that call |
| `CallForestErrors.VacantKeeps` | src/callmodel.cpp:1551-1589 | with nobody alive concerned, the change keeps the invariant although the conference is off the tree |
| `CallForestErrors.ReportOnce` | src/callmodel.cpp:1681-1700 | reporting a call in ERROR several times is as good as once |
| `CallForestRuns.RegisterKeeps` | src/callmodel.cpp:498-504 | registering a placed call keeps the invariant |
| `CallForestShape.RemoveCallKeeps` | src/callmodel.cpp:764-805 | a removal with its cleanup keeps the invariant |
| `CallForestShape.RemoveConferenceKeeps` | src/callmodel.cpp:1054-1067 | ending a conference keeps the invariant |
| `CallForestShape.RejoinedKeeps` | src/callmodel.cpp:1551-1589 | for a state other than ERROR, evicting and taking back participants keeps the invariant; RejoinedRegroups says where they are |
| `CallForestShape.AdoptAllKeeps` | src/callmodel.cpp:897-918 | moving any number of participants, repeated ones too, under a new conference keeps the invariant |
| `CallForestEffects.AdoptAllGathers` | src/callmodel.cpp:897-917 | for distinct participants the loop moves all of them, in their order |
| `CallForest.RemovalShrinks` | src/callmodel.cpp:764-805 | each recursive removal leaves strictly fewer top-level conferences, so the mutual recursion ends |
| `CallForestRemoval.RemovalKeepsExactly` | src/callmodel.cpp:780-788 | a removal keeps the tree a forest if and only if the node is at top level or has no restorable child in the list |
| `CallForestRemoval.ConferenceKeepsExactly` | src/callmodel.cpp:1054-1067 | the same condition is exact for ending a conference |
| `CallForestRemoval.SecondRemovalBreaks` | src/callmodel.cpp:1702-1716 | removing a conference a second time, as the delayed clean-up does, duplicates each child that was put back |
| `CallForestRemoval.SecondRemovalExample` | src/callmodel.cpp:1702-1716 | a concrete conference of one talking call shows it |
| `CallForestRemoval.CleanupDone` | src/callmodel.cpp:794-802 | after the clean-up no stale conference is left |
| `CallForestEffects.CleanupCleans` | src/callmodel.cpp:794-802 | the recursive clean-up is the removal of all stale conferences at once, in the order of the list |
| `CallForestEffects.RemoveEmptyCleans` | src/callmodel.cpp:1592-1595 | removing empty conferences until none is left does nothing, or the same as that clean-up |
| `CallForestEffects.RemovalLeavesList` | src/callmodel.cpp:764-805 | which conferences and which calls are in the list after a removal, both directions |
| `CallForestEffects.RemovalOrder` | src/callmodel.cpp:764-805 | the order of the list after a removal |
| `CallForestIndex.IndexReadsBack` | src/callmodel.cpp:808-828 | a call has an index if and only if it is in the tree, and reading the index gives the call back |
| `CallForestIndex.ParentOfTop` | src/callmodel.cpp:1205-1222 | the parent of a top-level index is invalid, even if the node names a removed conference |
| `CallForestIndex.ParentOfChild` | src/callmodel.cpp:1205-1240 | the parent of a child index is the index it was asked from |
| `CallModels.CallModel.AddCall2` | src/callmodel.cpp:507-575 | a call gets a node; list, maps and tree become those of the specification and stay valid |
| `CallModels.CallModel.GetActiveCalls` | src/callmodel.cpp:327-339 | every top-level call, followed by its participants |
| `CallModels.CallModel.DialingCall` | src/callmodel.cpp:610-644 | returns the call in CREATION if there is one, and otherwise a fresh one in NEW |
| `CallModels.CallModel.PlaceCall` | src/call.cpp:1888-1995 | accepting a dialled call on a valid model: placed and registered, refused, aborted, or removed in ERROR; the model stays valid in each case |
| `CallModels.CallModel.RemoveInternal` | src/callmodel.cpp:724-739 | the node leaves the top-level list, if it is there |
| `CallModels.CallModel.RemoveCall` | src/callmodel.cpp:764-805 | node removed, children put back, stale conferences removed recursively, and the recursion ends; a valid model stays valid if and only if nothing is put back twice |
| `CallModels.CallModel.RemoveConference` | src/callmodel.cpp:1054-1067 | removal and then the state OVER; a valid model stays valid if and only if nothing is put back twice |
| `CallModels.CallModel.NewConference` | src/callmodel.cpp:881-895 | a conference node with its identifier at the end of the list |
| `CallModels.CallModel.AddConference` | src/callmodel.cpp:862-934 | no conference without a known first participant with an account; otherwise exactly the known participants are its children, in the order of the daemon, and the model stays valid |
| `CallModels.CallModel.MoveUnder` | src/callmodel.cpp:905-909 | the node leaves its old parent and the list, and points to the new parent |
| `CallModels.CallModel.Evict` | src/callmodel.cpp:1557-1571 | live children that are no participants go to the end of the list without parent; the child list is cleared |
| `CallModels.CallModel.SlotChangingConference` | src/callmodel.cpp:1528-1595 | the whole signal, with the report of the new state before the members are replaced: ends in the specified tree, keeps it valid, and except for ERROR the known participants are the children, in the order of the daemon |
| `CallModels.CallModel.SlotCallStateChanged` | src/callmodel.cpp:1417-1498 | a daemon state of a known call moves that call, and removes it with the cleanup if it reports ERROR |
| `CallModels.CallModel.SlotCallChanged` | src/callmodel.cpp:1681-1700 | a reported change in ERROR removes the call; a valid model stays valid if and only if nothing is put back twice |
| `CallModels.CallModel.GetIndex` | src/callmodel.cpp:808-828 | the index search of the two loops |
| `CallModels.CallModel.IndexAt` | src/callmodel.cpp:1225-1240 | index of a row at either level |
| `CallModels.CallModel.ParentIndex` | src/callmodel.cpp:1205-1222 | the parent index, none if the parent is no longer in the list |
| `CallModels.CallModel.CallAt` | src/callmodel.cpp:1115-1131 | the call behind an index |
| `LiveMedia.RaisedExactly` | src/call.cpp:2324-2344 | with fewer than 10000 frames between resets, a tick raises the failure if and only if it is the fifth counted one since the last reset and no frame has come |
| `LiveMedia.CounterIsWindow` | src/call.cpp:1058-1106 | the one counter is 10000 times the ticks plus the frames since the last reset, over any run |
| `LiveMedia.RaisedByHistory` | src/call.cpp:2324-2344 | the same, with ticks and frames counted over the events since a reset |
| `LiveMedia.RaisedBySum` | src/call.cpp:2328-2333 | without the bound, the failure is raised if and only if ticks and frames add up to 40000 |
| `LiveMedia.RaisedWithFrames` | src/call.cpp:2328-2333 | so 10000 frames after three ticks raise it |
| `LiveMedia.Watchdog.Updated` | src/call.cpp:2324-2366 | a tick on the object, with the unhold check, and whether it reports the failure |
| `LiveMedia.Watchdog.SlotFrameAcquired` | src/call.cpp:1058-1069 | a frame clears a raised failure and counts one |
| `BookmarkRuns.EveryRunAgrees` | src/bookmarkmodel.cpp:455-577 | after any adds, removals and reloads stored positions are real positions, the reverse map is a bijection with the bookmarks, categories are filed under their names, only "most popular" is empty, and every bookmark is under its initial |
| `BookmarkRuns.AddThenRemove` | src/bookmarkmodel.cpp:455-577 | adding a fresh contact and removing it restores the exact tree and maps |
| `BookmarkLists.EveryRunShowsLists` | src/bookmarkmodel.cpp:155-577 | after any adds, removals and reloads the tree shows a plain list of contacts, each category those with its initial in their order, and a plain list of keys |
| `BookmarkLists.RemoveAgrees` | src/bookmarkmodel.cpp:517-577 | removing a bookmark takes it out of its category, keeps the order of all others, and takes the category out if it was the last one |
| `BookmarkLists.AddAgrees` | src/bookmarkmodel.cpp:455-515 | adding appends to the category and the category to the list of keys if it is new, and does nothing for known identities and the user |
| `BookmarkRuns.ReloadGroups` | src/bookmarkmodel.cpp:165-188 | a reload is an order-preserving group-by: categories in order of first occurrence, each with the first occurrences of its contacts |
| `BookmarkRuns.FirstsDistinct` | src/bookmarkmodel.cpp:455-461 | no contact is bookmarked twice, and the user not at all |
| `BookmarkRuns.FirstsCover` | src/bookmarkmodel.cpp:455-461 | the first listed contact of each identity that is not the user is bookmarked |
| `BookmarkRuns.ParentOfRow` | src/bookmarkmodel.cpp:289-330 | parent inverts index for every row under a category |
| `BookmarkRuns.ParentOfCategory` | src/bookmarkmodel.cpp:289-330 | categories have no parent |
| `BookmarkProofs.AddItemKeeps` | src/bookmarkmodel.cpp:455-515 | adding a contact keeps the invariant |
| `BookmarkProofs.RemoveItemKeeps` | src/bookmarkmodel.cpp:517-577 | removing a contact keeps the invariant and the contact is no longer tracked |
| `BookmarkProofs.RenumberTail` | src/bookmarkmodel.cpp:541-547 | after a removal and the renumbering loop every listed position is right again |
| `BookmarkModels.BookmarkModel.GetCategory` | src/bookmarkmodel.cpp:146-163 | the category of an initial, created on demand at the end |
| `BookmarkModels.BookmarkModel.AddItemCallback` | src/bookmarkmodel.cpp:455-515 | skipped contacts change nothing; others give the specified tree, and the model stays valid |
| `BookmarkModels.BookmarkModel.Renumber` | src/bookmarkmodel.cpp:541-542 | every listed node moves one position down |
| `BookmarkModels.BookmarkModel.RemoveLeaf` | src/bookmarkmodel.cpp:537-544 | the bookmark leaves its category and the following ones move up |
| `BookmarkModels.BookmarkModel.RemoveCategory` | src/bookmarkmodel.cpp:547-561 | an empty category leaves list and index, and the following ones move up |
| `BookmarkModels.BookmarkModel.RemoveItemCallback` | src/bookmarkmodel.cpp:517-577 | true if and only if the contact was tracked; ends in the specified, valid tree |
| `BookmarkModels.BookmarkModel.ReloadCategories` | src/bookmarkmodel.cpp:165-188 | on any list, ends in the group-by of its contacts |
| `BookmarkModels.BookmarkModel.IndexAt` | src/bookmarkmodel.cpp:310-330 | index of a row at either level |
| `BookmarkModels.BookmarkModel.ParentIndex` | src/bookmarkmodel.cpp:289-307 | the parent index through stored positions |
| `BootstrapText.RoundTripExactly` | src/bootstrapmodel.cpp:98-153 | parsing what was printed gives back the same rows if and only if all hosts are non-empty, trimmed and free of separators and all ports are -1 or non-negative 32-bit integers |
| `BootstrapText.ParsePrint` | src/bootstrapmodel.cpp:98-153 | for rows as parsing makes them, printing and parsing only drops blank hosts and replaces negative ports by -1 |
| `BootstrapText.PrintParseIdempotent` | src/bootstrapmodel.cpp:98-153 | for every text, parsing and printing twice is the same as once |
| `BootstrapText.ParseClean` | src/bootstrapmodel.cpp:139-151 | every parsed host is trimmed and free of separators |
| `BootstrapText.ToIntReadsBack` | src/bootstrapmodel.cpp:145 | a printed port reads back as the same number |
| `BootstrapText.SplitJoin` | src/bootstrapmodel.cpp:139-140 | splitting undoes joining for parts without the separator |
| `BootstrapText.CleanupPrints` | src/bootstrapmodel.cpp:109-119 | removing blank rows never changes the saved text |
| `BootstrapText.CleanupComplete` | src/bootstrapmodel.cpp:109-119 | all blank rows go if and only if no two of them are adjacent |
| `BootstrapRuns.EveryRunInSync` | src/bootstrapmodel.cpp:76-84 | after any actions and edits the model is READY or MODIFIED, and READY rows print as the saved text or come from a loaded one |
| `BootstrapRuns.EditsAreNoticed` | src/bootstrapmodel.cpp:275-314 | an edit that changes the text to be saved leaves the model modified |
| `BootstrapRuns.SaveThenReload` | src/bootstrapmodel.cpp:98-153 | saving and loading the saved text back keeps the rows exactly as far as they can be saved |
| `BootstrapRuns.ResetThenSave` | src/bootstrapmodel.cpp:402-429 | a reset shows the given servers or the default one, counts as modified once, and a save tells the account exactly these |
| `BootstrapRuns.ClearThenSave` | src/bootstrapmodel.cpp:76-84 | clearing and saving tells the account that there are no servers |
| `BootstrapRuns.EditsAreTold` | src/bootstrapmodel.cpp:275-314 | a written host name is told to the account at once, a written port only if it is out of range; all other rows go as they are |
| `BootstrapRuns.ReloadDropsEdits` | src/bootstrapmodel.cpp:76-84 | reloading drops what was not saved |
| `BootstrapModels.BootstrapModel.Save` | src/bootstrapmodel.cpp:98-126 | both loops: the property is the printed text and blank rows are removed in place |
| `BootstrapModels.BootstrapModel.CleanLines` | src/bootstrapmodel.cpp:109-119 | the removal loop, which skips the row behind a removed one |
| `BootstrapModels.BootstrapModel.Reload` | src/bootstrapmodel.cpp:134-153 | the rows become those of the text and the state READY |
| `BootstrapModels.BootstrapModel.Reset` | src/bootstrapmodel.cpp:402-429 | the rows become the given servers, or the default one, and count as modified |
| `BootstrapModels.BootstrapModel.PerformAction` | src/bootstrapmodel.cpp:76-91 | the state machine on the object |
| `BootstrapModels.BootstrapModel.SetHostname` | src/bootstrapmodel.cpp:275-314 | a host name is saved at once and counts as modified |
| `BootstrapModels.BootstrapModel.SetPort` | src/bootstrapmodel.cpp:275-314 | a port outside 1..65534 falls back to the default and is saved |
| `CodecRuns.ReloadLists` | src/codecmodel.cpp:324-405 | any reload keeps the known rows, appends new active codecs and then other new ones in daemon order, and fixes which codecs are enabled |
| `CodecRuns.ReloadFromEmpty` | src/codecmodel.cpp:324-405 | into an empty model: the active list and then the rest, without duplicates, enabled exactly if active |
| `CodecRuns.SaveSendsActive` | src/codecmodel.cpp:408-422 | a save after loading into an empty model sends back the active list if and only if no active codec comes twice in either list |
| `CodecContents.ReloadShows` | src/codecmodel.cpp:344-401 | after any reload each codec that the daemon lists has a row in which every field holds the text of the daemon or is empty where it gives none; rows of other codecs keep their details |
| `CodecContents.ReloadDropsEdits` | src/codecmodel.cpp:97-104 | so reloading drops every edit, from any reachable state |
| `CodecContents.SaveSendsRows` | src/codecmodel.cpp:408-444 | every codec is sent with exactly the details of its row |
| `CodecContents.TextIsSent` | src/codecmodel.cpp:227-280 | a written text is what the next save sends for that codec, and the others go as they are |
| `CodecContents.CheckIsSent` | src/codecmodel.cpp:227-280 | a written check mark decides whether the next save activates that codec, and no other one |
| `CodecContents.ClearThenReload` | src/codecmodel.cpp:97-104 | clearing and reloading gives what a new model would load |
| `CodecRuns.ReloadIsSilent` | src/codecmodel.cpp:97-104 | a reload neither notifies the account nor sends anything, and ends in READY |
| `CodecRuns.RestCounts` | src/codecmodel.cpp:372-375 | each active codec takes exactly one occurrence off the list of all codecs |
| `CodecRuns.MovedKeepsOthers` | src/codecmodel.cpp:595-613 | a move is a permutation that keeps the order of all other rows |
| `CodecRuns.UpThenDown` | src/codecmodel.cpp:482-505 | up and then down is the identity at every row, with wrap-around |
| `CodecRuns.DownThenUp` | src/codecmodel.cpp:482-505 | down and then up is the identity at every row, with wrap-around |
| `CodecRuns.EveryRunReorders` | src/codecmodel.cpp:564-619 | in every reachable state identifiers are distinct and both of these hold at every row |
| `CodecRuns.IdSetKeepsExactly` | src/codecmodel.cpp:254-256 | writing an identifier keeps them distinct if and only if no other row has it |
| `CodecModels.CodecModel.FindCodec` | src/codecmodel.cpp:508-515 | whether some row has the identifier |
| `CodecModels.CodecModel.IndexOfCodec` | src/codecmodel.cpp:549-557 | the first row with the identifier |
| `CodecModels.CodecModel.SetText` | src/codecmodel.cpp:227-280 | one field of one row changes, and the model counts as modified unless it is reloading |
| `CodecModels.CodecModel.LoadCodec` | src/codecmodel.cpp:344-370 | row created if needed, all fields written, check mark set, nothing notified |
| `CodecModels.CodecModel.LoadActive` | src/codecmodel.cpp:335-375 | the first loop, and what it leaves of the list of all codecs |
| `CodecModels.CodecModel.Reload` | src/codecmodel.cpp:324-405 | both loops end in the specified list |
| `CodecModels.CodecModel.Save` | src/codecmodel.cpp:408-444 | the enabled identifiers in row order and all details are sent |
| `CodecModels.CodecModel.PerformAction` | src/codecmodel.cpp:97-104 | the state machine on the object |
| `CodecModels.CodecModel.DropMimeData` | src/codecmodel.cpp:564-619 | refused on items, other columns and other data; otherwise the codec moves in place |
| `CodecModels.CodecModel.MoveUp` | src/codecmodel.cpp:482-492 | the codec of a row is dropped one row up |
| `CodecModels.CodecModel.MoveDown` | src/codecmodel.cpp:495-505 | the codec of a row is dropped one row down |
| `MergingRuns.EveryRunConverges` | src/contactmethod.cpp:1182-1187 | with the documented treatment of the handles, after any merges every handle leads to a live object, two handles are equal if and only if successful merges connect them, and flags and longest URI are those of all absorbed objects |
| `MergingRuns.IntendedKeeps` | src/contactmethod.cpp:1188-1256 | one such merge keeps parents and handles in exact agreement |
| `Merging.RunStaysLiveExactly` | src/contactmethod.cpp:1230-1256 | as written, a run of merges leaves every handle with a live object if and only if no merge absorbs an object that has absorbed another one before |
| `Merging.StaysLiveExactly` | src/contactmethod.cpp:1233-1236 | as written, one merge is safe if and only if the absorbed object knows of all its handles |
| `Merging.MergedIsUnregistered` | src/contactmethod.cpp:1233-1236 | as written, the merged handle is never entered with the surviving object |
| `Merging.TwoMergesDangle` | src/contactmethod.cpp:1233-1253 | three fresh duplicates and two merges leave a handle with a deleted object |
| `Merging.RedirectedIs` | src/contactmethod.cpp:1233-1236 | what the loop leaves behind for any order of the set: only handles visited after the merged one are entered |
| `MergingRuns.UrisKeptExactly` | src/contactmethod.cpp:1240-1245 | of all URIs of the absorbed object only the main one is handed on: none is lost if and only if the survivor had the others already |
| `MergingRuns.AccountsConnect` | src/contactmethod.cpp:1193-1195 | numbers of different accounts cannot be merged, but a number without account connects them |
| `MergeModels.Directory.Merge` | src/contactmethod.cpp:1188-1256 | the result tells whether the merge was refused; the heap ends as the code is written |
| `MergeModels.Directory.MergeAsIntended` | src/contactmethod.cpp:1188-1256 | the heap ends as documented |
| `MergeModels.Directory.Redirect` | src/contactmethod.cpp:1232-1236 | the loop over the parents, through the changing object of the merged handle |
| `MergeModels.Directory.Create` | src/contactmethod.cpp:200-209 | a contact method starts out with an object of its own that knows it |
| `Accounts.UpdateReconciles` | src/accountmodel.cpp:613-645 | for distinct non-empty identifiers: the survivors in their old order, then the unknown ones in daemon order, one account for every identifier |
| `Accounts.UpdateCovers` | src/accountmodel.cpp:613-645 | for any list, afterwards exactly the listed identifiers have an account |
| `Accounts.SecondUpdate` | src/accountmodel.cpp:870-892 | a second update changes nothing if and only if no identifier is empty |
| `AccountModels.AccountModel.UpdateAccounts` | src/accountmodel.cpp:613-645 | both loops: surviving account objects stay in place, new ones are appended, removed ones are remembered, found ones are reloaded |
| `AccountModels.AccountModel.InsertAccount` | src/accountmodel.cpp:1067-1092 | at any position; the lists per protocol stay the filtered list of accounts if and only if no account of that protocol comes behind |
| `AccountModels.AccountModel.Remove` | src/accountmodel.cpp:1094-1115 | the account leaves both lists it is in, and its identifier is remembered |
| `AccountModels.AccountModel.GetById` | src/accountmodel.cpp:870-892 | null if and only if the identifier is empty or unknown |
| `AccountModels.AccountModel.Partition` | src/accountmodel.cpp:1082-1091 | the two lists together hold every account exactly once |
| `AccountEdit.EveryRunClassifies` | src/account.cpp:2746-2823 | after any changes to an existing account: while it is modified, it is MODIFIED_COMPLETE if and only if it has what its protocol requires; the cached host name of a SIP account is its detail |
| `AccountEdit.CancelReloads` | src/account.cpp:93-96 | cancelling a modified or outdated account that the daemon knows: READY, every detail, the cached host name and the password as the daemon has them, and nothing sent |
| `AccountEdit.CancelUndoesEdits` | src/account.cpp:90-98 | the same after any run of edits; an account that was only opened keeps its details |
| `AccountEdit.EditThenCancel` | src/account.cpp:90-98 | one edit and its cancellation |
| `AccountEdit.ReloadSparesEdits` | src/account.cpp:90-98 | a reload loads a ready account, marks an opened one as outdated, and leaves a modified one alone |
| `AccountEdit.OpenAndSave` | src/account.cpp:90-98 | opening is for ready accounts and saving for new and modified ones; anywhere else they do nothing |
| `AccountEdit.RolesSay` | src/account.cpp:2746-2823 | which role the check finds empty or invalid, per protocol |
| `AccountEdit.SettersWrite` | src/account.cpp:1554-1721 | each setter writes its own detail of a modified account and leaves all others alone |
| `AccountEdit.StepKeeps` | src/account.cpp:90-98 | every action and setter keeps that |
| `AccountEdit.ModifiedClassifies` | src/account.cpp:2746-2823 | the role check decides completeness, given the right cached host name |
| `AccountEdit.SetHostnameKeeps` | src/account.cpp:1613-1623 | setting the host name keeps cache, detail and classification in agreement |
| `AccountEdit.EditIsLostExactly` | src/account.cpp:1554-1578 | a setter does not leave its text if and only if the text is a change, the detail is not the status, and it is overwritten: by the reload of an outdated account, or by the renewed look-up of a cleared Ring user name |
| `AccountEdit.ClearedNameComesBack` | src/account.cpp:752-765 | clearing the user name of a ready Ring account brings the name of the daemon back |
| `AccountEdit.RemovedEditsStay` | src/account.cpp:90-98 | whatever is done between removing an account and cancelling that, it is ready afterwards as it stands: nothing was saved or loaded again, and saving has no effect |
| `AccountEdit.EditIsSavedExactly` | src/account.cpp:2579-2642 | from an edit to the next save, with any edits of other details in between: the daemon gets the text if and only if the edit was not overwritten |
| `EditedAccounts.EditedAccount.Modify` | src/account.cpp:2746-2823 | the role statuses and the new state, branch by branch |
| `EditedAccounts.EditedAccount.Reload` | src/account.cpp:2645-2735 | details replaced, cached host name and credentials follow |
| `EditedAccounts.EditedAccount.SetAccountProperty` | src/account.cpp:1554-1578 | only a change counts as a modification, and never one of the status |
| `EditedAccounts.EditedAccount.SetHostname` | src/account.cpp:1613-1623 | cache and detail change together |
| `EditedAccounts.EditedAccount.SetAlias` | src/account.cpp:711-723 | an alias cannot be emptied |
| `EditedAccounts.EditedAccount.SetUsername` | src/account.cpp:1661-1680 | the detail changes, and SIP credentials may notify once more |
| `EditedAccounts.EditedAccount.SetPassword` | src/account.cpp:1701-1721 | always counts as a modification |
| `EditedAccounts.EditedAccount.PerformAction` | src/account.cpp:90-98 | the edit-state table on the object |
| `SignerChains.EndsExactly` | src/chainoftrustmodel.cpp:47-60 | following the signers ends if and only if no certificate comes twice on the way up |
| `SignerChains.EndsOnce` | src/chainoftrustmodel.cpp:47-60 | the chain has one length |
| `SignerChains.MutualSignersNeverEnd` | src/chainoftrustmodel.cpp:58-59 | two certificates that sign each other keep the loop going |
| `ChainOfTrust.ChainOfTrustModel.constructor` | src/chainoftrustmodel.cpp:39-65 | without such a cycle the loop ends with a doubly linked list that is the reversed signer chain and ends at the viewed certificate |
| `ChainOfTrust.ChainOfTrustModel.ParentInvertsIndex` | src/chainoftrustmodel.cpp:121-168 | parent and index are inverse on the list, and only the viewed certificate has no rows |
| `ChainOfTrust.ChainOfTrustModel.Walk` | src/chainoftrustmodel.cpp:157-168 | walking down from the root shows the signer chain from its end |

## Left out

- CodecModels.CodecModel.DropMimeData: does not model dropped data that names an unknown identifier, because the source then takes row -1 out of the list (`src/codecmodel.cpp:590-606`).
- AccountModels.AccountModel.GetById: does not model the flag that asks for a placeholder account instead of null.
- The consistency check after a conference change (`src/callmodel.cpp:1597-1634`), whose repairs set one side of the parent and child link only: participant lists are taken to agree with the calls.
- Placing a call a second time, which would give it a second identifier: the tree only sees the first one.
- The signal that erasing text in transfer mode sends with a dial number that may be null.
- Histories, statistics and media lists that the life-cycle callbacks also update.
- D-Bus, Qt signals, timers, QML roles, icons, MIME encodings and translated strings: plumbing.
- The role switches and role tables of accounts, calls and certificates, and the table of account messages: finite look-ups.
- Renaming a bookmark: its connection is stored on the category (`src/bookmarkmodel.cpp:487`) but tested on the bookmark, so that path does not run as written.
- Rebasing a bookmark onto a contact that is tracked already.
- `BootstrapModel::removeRows`, which skips rows while it removes them.
- The selection that follows a moved codec: at the edges of the list it is set to an invalid index, so moving by selection does not wrap back. The results are about rows.
- The ten text fields of a codec are one map from field to text.
- The number of enabled codecs per type (`src/codecmodel.cpp:355`), which only ever grows.
- Text recordings, events, persons and registered names in `merge`, and the destruction of handles.
- Setters of contact methods between merges.
- `AccountModel::editState` and dragging accounts, whose counts and lists drift apart in the code.
- Placeholder accounts, contact requests and presence subscriptions of a new account.
- The names, certificates and archive passwords that saving or reloading an account also copies, and the repeated reload of a Ring account that waits for its user name.
- Editing credentials behind the account's back: the password is a field, and only `setPassword` changes it.
- An account that stays without identifier because the daemon refuses it.
- Allow and ban lists of certificates, whose bit masks go stale on removal (`src/certificatemodel.cpp:297`).
- The visible counters of the contact model and the categories of the call history.
- Mutexes and the release of memory, except for the objects that a merge deletes.
