/** The codec list of an account as a value: reconciliation with the daemon, saving and reordering. */
module Codecs {
  import opened Lists

  datatype EditState = LOADING | READY | MODIFIED | OUTDATED | RELOADING
  datatype EditAction = SAVE | MODIFY | RELOAD | CLEAR
  datatype Handler = Nothing | Save | Modify | Reload | Clear

  /** The text fields of a codec. */
  datatype Field =
    | NAME | SAMPLERATE | BITRATE | MIN_BITRATE | MAX_BITRATE | TYPE | QUALITY | MIN_QUALITY | MAX_QUALITY
    | AUTO_QUALITY_ENABLED

  const FIELDS: seq<Field> :=
    [NAME, SAMPLERATE, BITRATE, MIN_BITRATE, MAX_BITRATE, TYPE, QUALITY, MIN_QUALITY, MAX_QUALITY,
     AUTO_QUALITY_ENABLED]

  type Details = map<Field, string>

  datatype Row = Row(id: int, details: Details)

  /**
    What the daemon answers: every codec, those active for the account, and their details. An account
    that does not exist yet counts all of them as active.
   */
  datatype Daemon = Daemon(codecs: seq<int>, accountIsNew: bool, activeCodecs: seq<int>, details: map<int, Details>)

  /** The last two fields are what was sent to the daemon; notified counts MODIFY notifications of the account. */
  datatype State = State(
    rows: seq<Row>, enabled: map<int, bool>, edit: EditState, notified: nat,
    sentActive: seq<int>, sentDetails: map<int, Details>)

  function HandlerOf(edit: EditState, action: EditAction): Handler {
    match edit
    case LOADING => if action == RELOAD then Reload else Nothing
    case READY =>
      (match action case SAVE => Nothing case MODIFY => Modify case RELOAD => Reload case CLEAR => Clear)
    case MODIFIED =>
      (match action case SAVE => Save case MODIFY => Nothing case RELOAD => Reload case CLEAR => Clear)
    case OUTDATED =>
      (match action case SAVE => Save case MODIFY => Nothing case RELOAD => Reload case CLEAR => Clear)
    case RELOADING => Nothing
  }

  function Ids(rows: seq<Row>): (ids: seq<int>)
    ensures |ids| == |rows| && forall i :: 0 <= i < |rows| ==> ids[i] == rows[i].id
  {
    seq(|rows|, i requires 0 <= i < |rows| => rows[i].id)
  }

  /** The first row with that identifier, or -1. */
  function RowOf(rows: seq<Row>, id: int): (r: int)
    ensures -1 <= r < |rows| && (r == -1 <==> id !in Ids(rows)) && (r >= 0 ==> rows[r].id == id)
  {
    IndexOf(Ids(rows), id)
  }

  predicate Enabled(enabled: map<int, bool>, id: int) {
    id in enabled && enabled[id]
  }

  function DetailsOf(daemon: Daemon, id: int): Details {
    if id in daemon.details then daemon.details[id] else map[]
  }

  /** A text that the daemon does not give is empty. */
  function Text(details: Details, field: Field): string {
    if field in details then details[field] else ""
  }

  function Active(daemon: Daemon): seq<int> {
    if daemon.accountIsNew then daemon.codecs else daemon.activeCodecs
  }

  // ----- Editing -----

  function Modified(s: State): State {
    if HandlerOf(s.edit, MODIFY) == Modify then s.(edit := MODIFIED, notified := s.notified + 1) else s
  }

  function SetId(s: State, row: nat, id: int): State
    requires row < |s.rows|
  {
    Modified(s.(rows := s.rows[row := s.rows[row].(id := id)]))
  }

  function SetText(s: State, row: nat, field: Field, text: string): State
    requires row < |s.rows|
  {
    Modified(s.(rows := s.rows[row := s.rows[row].(details := s.rows[row].details[field := text])]))
  }

  function SetEnabled(s: State, row: nat, enabled: bool): State
    requires row < |s.rows|
  {
    Modified(s.(enabled := s.enabled[s.rows[row].id := enabled]))
  }

  // ----- Reloading -----

  /** All ten fields are written. */
  function Overwritten(was: Details, codec: Details, fields: seq<Field>): Details
    decreases |fields|
  {
    if fields == [] then was else Overwritten(was[fields[0] := Text(codec, fields[0])], codec, fields[1..])
  }

  /** The row of a codec is created if there is none, written, and checked or not. */
  function Load(s: State, id: int, codec: Details, checked: bool): State {
    var rows := if id in Ids(s.rows) then s.rows else s.rows + [Row(id, map[])];
    var r := RowOf(rows, id);
    s.(rows := if r >= 0 then rows[r := rows[r].(details := Overwritten(rows[r].details, codec, FIELDS))] else rows,
       enabled := s.enabled[id := checked])
  }

  function LoadAll(s: State, ids: seq<int>, daemon: Daemon, checked: bool): State
    decreases |ids|
  {
    if ids == [] then s
    else LoadAll(Load(s, ids[0], DetailsOf(daemon, ids[0]), checked), ids[1..], daemon, checked)
  }

  /** What is left of the daemon's list: every active codec takes one occurrence off. */
  function Rest(codecs: seq<int>, active: seq<int>): seq<int>
    decreases |active|
  {
    if active == [] then codecs else Rest(RemoveFirst(codecs, active[0]), active[1..])
  }

  /** The active codecs are loaded first, and then the remaining ones. */
  function Reloaded(s: State, daemon: Daemon): State {
    var active := Active(daemon);
    var t := LoadAll(s.(edit := RELOADING), active, daemon, true);
    LoadAll(t, Rest(daemon.codecs, active), daemon, false).(edit := READY)
  }

  // ----- Saving -----

  function EnabledIds(rows: seq<Row>, enabled: map<int, bool>): seq<int> {
    if rows == [] then []
    else (if Enabled(enabled, rows[0].id) then [rows[0].id] else []) + EnabledIds(rows[1..], enabled)
  }

  function SentDetails(rows: seq<Row>, sent: map<int, Details>): map<int, Details> {
    if rows == [] then sent else SentDetails(rows[1..], sent[rows[0].id := rows[0].details])
  }

  function Saved(s: State): State {
    s.(sentActive := EnabledIds(s.rows, s.enabled), sentDetails := SentDetails(s.rows, s.sentDetails), edit := READY)
  }

  function Cleared(s: State): State {
    s.(rows := [], enabled := map[], edit := READY)
  }

  function Perform(s: State, action: EditAction, daemon: Daemon): State {
    match HandlerOf(s.edit, action)
    case Nothing => s
    case Save => Saved(s)
    case Modify => Modified(s)
    case Reload => Reloaded(s, daemon)
    case Clear => Cleared(s)
  }

  // ----- Reordering -----

  /** Dropping above the list means the last row, and below it the first one. */
  function Destination(row: int, size: nat): (d: nat)
    requires size > 0
    ensures d < size
  {
    if row < 0 then size - 1 else if row >= size then 0 else row
  }

  function Moved<T>(rows: seq<T>, from: nat, to: nat): seq<T>
    requires from < |rows| && to < |rows|
  {
    var rest := RemoveAt(rows, from);
    rest[..to] + [rows[from]] + rest[to..]
  }

  /** The codec with that identifier is dropped on a row. */
  function Dropped(s: State, id: int, row: int): State
    requires id in Ids(s.rows)
  {
    Modified(s.(rows := Moved(s.rows, RowOf(s.rows, id), Destination(row, |s.rows|))))
  }

  function MovedUp(s: State, row: nat): State
    requires row < |s.rows|
  {
    Dropped(s, Ids(s.rows)[row], row - 1)
  }

  function MovedDown(s: State, row: nat): State
    requires row < |s.rows|
  {
    Dropped(s, Ids(s.rows)[row], row + 1)
  }
}

/** What reloading, saving and reordering codecs promise. */
module CodecRuns {
  import opened Lists
  import opened Codecs

  /** The first occurrences that are not known yet. */
  function News(ids: seq<int>, known: set<int>): seq<int> {
    if ids == [] then []
    else if ids[0] in known then News(ids[1..], known)
    else [ids[0]] + News(ids[1..], known + {ids[0]})
  }

  lemma LoadIds(s: State, id: int, codec: Details, checked: bool)
    ensures Ids(Load(s, id, codec, checked).rows) == if id in Ids(s.rows) then Ids(s.rows) else Ids(s.rows) + [id]
    ensures Load(s, id, codec, checked).enabled == s.enabled[id := checked]
  {
    hide Overwritten;
    if id !in Ids(s.rows) {
      var rows := s.rows + [Row(id, map[])];
      assert Ids(rows)[|s.rows|] == id;
      assert id in Ids(rows);
    }
  }

  /** Known codecs keep their rows, and new ones are appended in the order in which they come. */
  lemma {:induction false} LoadAllIds(s: State, ids: seq<int>, daemon: Daemon, checked: bool)
    ensures Ids(LoadAll(s, ids, daemon, checked).rows) == Ids(s.rows) + News(ids, Elements(Ids(s.rows)))
    decreases |ids|
  {
    hide Load, DetailsOf, Ids, Overwritten, Text, NoDup;
    if ids != [] {
      var id := ids[0];
      var t := Load(s, id, DetailsOf(daemon, id), checked);
      LoadIds(s, id, DetailsOf(daemon, id), checked);
      LoadAllIds(t, ids[1..], daemon, checked);
      if id in Ids(s.rows) {
        assert id in Elements(Ids(s.rows));
      } else {
        assert Elements(Ids(t.rows)) == Elements(Ids(s.rows)) + {id};
      }
    }
  }

  /** Every listed codec gets the same check mark; the others keep theirs. */
  lemma {:induction false} LoadAllEnabled(s: State, ids: seq<int>, daemon: Daemon, checked: bool, id: int)
    ensures Enabled(LoadAll(s, ids, daemon, checked).enabled, id)
         == if id in ids then checked else Enabled(s.enabled, id)
    decreases |ids|
  {
    hide Load, DetailsOf, Ids, Overwritten, Text, NoDup;
    if ids != [] {
      LoadIds(s, ids[0], DetailsOf(daemon, ids[0]), checked);
      LoadAllEnabled(Load(s, ids[0], DetailsOf(daemon, ids[0]), checked), ids[1..], daemon, checked, id);
      assert ids == [ids[0]] + ids[1..];
    }
  }

  lemma {:induction false} LoadAllRest(s: State, ids: seq<int>, daemon: Daemon, checked: bool)
    ensures LoadAll(s, ids, daemon, checked) ==
            s.(rows := LoadAll(s, ids, daemon, checked).rows, enabled := LoadAll(s, ids, daemon, checked).enabled)
    decreases |ids|
  {
    if ids != [] {
      LoadAllRest(Load(s, ids[0], DetailsOf(daemon, ids[0]), checked), ids[1..], daemon, checked);
    }
  }

  lemma {:induction false} NewsDistinct(ids: seq<int>, known: set<int>)
    ensures NoDup(News(ids, known)) && forall id :: id in News(ids, known) <==> id in ids && id !in known
  {
    if ids != [] {
      NewsDistinct(ids[1..], if ids[0] in known then known else known + {ids[0]});
      assert ids == [ids[0]] + ids[1..];
    }
  }

  lemma {:induction false} NewsOfDistinct(ids: seq<int>, known: set<int>)
    requires NoDup(ids) && forall id :: id in ids ==> id !in known
    ensures News(ids, known) == ids
  {
    if ids != [] {
      assert ids[0] in ids;
      forall id | id in ids[1..] ensures id !in known + {ids[0]} {
        var j :| 0 <= j < |ids[1..]| && ids[1..][j] == id;
        assert ids[j + 1] == id && id in ids;
      }
      NewsOfDistinct(ids[1..], known + {ids[0]});
      assert ids == [ids[0]] + ids[1..];
    }
  }

  lemma {:induction false} NewsAppend(a: seq<int>, b: seq<int>, known: set<int>)
    ensures News(a + b, known) == News(a, known) + News(b, known + Elements(a))
  {
    if a == [] {
      assert a + b == b && known + Elements(a) == known;
    } else {
      var more := if a[0] in known then known else known + {a[0]};
      NewsAppend(a[1..], b, more);
      assert (a + b)[1..] == a[1..] + b;
      assert more + Elements(a[1..]) == known + Elements(a) by {
        assert a == [a[0]] + a[1..];
      }
    }
  }

  lemma {:induction false} RemoveFirstCounts(s: seq<int>, x: int)
    ensures multiset(RemoveFirst(s, x)) == multiset(s) - multiset{x}
  {
    if s != [] {
      assert s == [s[0]] + s[1..];
      if s[0] != x {
        RemoveFirstCounts(s[1..], x);
      }
    }
  }

  /** The active codecs are taken off the daemon's list one occurrence at a time. */
  lemma {:induction false} RestCounts(codecs: seq<int>, active: seq<int>, id: int)
    ensures
      var listed, taken := multiset(codecs)[id], multiset(active)[id];
      multiset(Rest(codecs, active))[id] == if listed > taken then listed - taken else 0
    decreases |active|
  {
    if active != [] {
      hide RemoveFirst;
      RemoveFirstCounts(codecs, active[0]);
      RestCounts(RemoveFirst(codecs, active[0]), active[1..], id);
      CountSplit(active, id);
    }
  }

  lemma CountSplit(s: seq<int>, id: int)
    requires s != []
    ensures multiset(s)[id] == multiset(s[1..])[id] + if s[0] == id then 1 else 0
  {
    assert s == [s[0]] + s[1..];
  }

  /**
    Reloading keeps the rows there are and appends the new active codecs and then the other new ones, in
    the daemon's order. Afterwards a codec is enabled if it was active and did not remain in the list.
   */
  lemma ReloadLists(s: State, daemon: Daemon)
    ensures
      var active, rest := Active(daemon), Rest(daemon.codecs, Active(daemon));
      var t := Reloaded(s, daemon);
      && Ids(t.rows) == Ids(s.rows) + News(active + rest, Elements(Ids(s.rows)))
      && (forall id ::
            Enabled(t.enabled, id)
            == if id in rest then false else if id in active then true else Enabled(s.enabled, id))
      && (NoDup(Ids(s.rows)) ==> NoDup(Ids(t.rows)))
  {
    hide Ids, LoadAll, Enabled, Rest, News, Elements, NoDup;
    ReloadIds(s, daemon);
    forall id {
      ReloadEnabled(s, daemon, id);
    }
  }

  lemma SetAppend(ids: seq<int>, news: seq<int>, active: seq<int>)
    requires forall id :: id in news <==> id in active && id !in Elements(ids)
    ensures Elements(ids + news) == Elements(ids) + Elements(active)
  {
    forall id | id in Elements(ids + news) ensures id in Elements(ids) + Elements(active) {
      assert id in ids || id in news;
    }
    forall id | id in Elements(ids) + Elements(active) ensures id in Elements(ids + news) {
      if id !in Elements(ids) {
        assert id in news;
      } else {
        assert id in ids;
      }
      assert id in ids + news;
    }
  }

  lemma ReloadIds(s: State, daemon: Daemon)
    ensures
      var active, rest := Active(daemon), Rest(daemon.codecs, Active(daemon));
      var t := Reloaded(s, daemon);
      && Ids(t.rows) == Ids(s.rows) + News(active + rest, Elements(Ids(s.rows)))
      && (NoDup(Ids(s.rows)) ==> NoDup(Ids(t.rows)))
  {
    hide Ids, LoadAll, News, Rest;
    var active, rest := Active(daemon), Rest(daemon.codecs, Active(daemon));
    var r := s.(edit := RELOADING);
    var m := LoadAll(r, active, daemon, true);
    LoadAllIds(r, active, daemon, true);
    LoadAllIds(m, rest, daemon, false);
    var known := Elements(Ids(s.rows));
    NewsDistinct(active, known);
    SetAppend(Ids(s.rows), News(active, known), active);
    NewsAppend(active, rest, known);
    NewsDistinct(active + rest, known);
    if NoDup(Ids(s.rows)) {
      NoDupAppend(Ids(s.rows), News(active + rest, known));
    }
  }

  lemma ReloadEnabled(s: State, daemon: Daemon, id: int)
    ensures
      var active, rest := Active(daemon), Rest(daemon.codecs, Active(daemon));
      Enabled(Reloaded(s, daemon).enabled, id) ==
      if id in rest then false else if id in active then true else Enabled(s.enabled, id)
  {
    hide LoadAll, Enabled, Rest;
    var r := s.(edit := RELOADING);
    LoadAllEnabled(r, Active(daemon), daemon, true, id);
    LoadAllEnabled(LoadAll(r, Active(daemon), daemon, true), Rest(daemon.codecs, Active(daemon)), daemon, false, id);
  }

  /** Despite all its edits, reloading neither notifies the account nor sends anything, and ends in READY. */
  lemma ReloadIsSilent(s: State, daemon: Daemon)
    ensures
      var t := Reloaded(s, daemon);
      t == s.(rows := t.rows, enabled := t.enabled, edit := READY)
  {
    hide LoadAll;
    var r := s.(edit := RELOADING);
    LoadAllRest(r, Active(daemon), daemon, true);
    LoadAllRest(LoadAll(r, Active(daemon), daemon, true), Rest(daemon.codecs, Active(daemon)), daemon, false);
  }

  lemma {:induction false} EnabledAre(rows: seq<Row>, enabled: map<int, bool>)
    ensures forall id :: id in EnabledIds(rows, enabled) <==> id in Ids(rows) && Enabled(enabled, id)
    ensures NoDup(Ids(rows)) ==> NoDup(EnabledIds(rows, enabled))
  {
    if rows != [] {
      EnabledAre(rows[1..], enabled);
      assert Ids(rows) == [rows[0].id] + Ids(rows[1..]);
      assert NoDup(Ids(rows)) ==> NoDup(Ids(rows[1..])) && rows[0].id !in Ids(rows[1..]);
    }
  }

  /** A prefix of enabled rows before rows that are not. */
  lemma {:induction false} EnabledPrefix(rows: seq<Row>, enabled: map<int, bool>, on: seq<int>, off: seq<int>)
    requires Ids(rows) == on + off
    requires (forall id :: id in on ==> Enabled(enabled, id)) && (forall id :: id in off ==> !Enabled(enabled, id))
    ensures EnabledIds(rows, enabled) == on
    decreases |rows|
  {
    if rows != [] {
      assert Ids(rows)[0] == rows[0].id && Ids(rows[1..]) == Ids(rows)[1..];
      if on == [] {
        assert off[0] == rows[0].id && off[0] in off;
        EnabledPrefix(rows[1..], enabled, [], off[1..]);
      } else {
        assert on[0] == rows[0].id && on[0] in on;
        assert (on + off)[1..] == on[1..] + off;
        EnabledPrefix(rows[1..], enabled, on[1..], off);
        assert on == [on[0]] + on[1..];
      }
    }
  }

  predicate OnceEach(daemon: Daemon) {
    NoDup(Active(daemon)) && forall id :: id in Active(daemon) ==> multiset(daemon.codecs)[id] <= 1
  }

  lemma RestOnce(daemon: Daemon)
    ensures forall id :: id in Rest(daemon.codecs, Active(daemon)) <==>
                         multiset(daemon.codecs)[id] > multiset(Active(daemon))[id]
  {
    forall id ensures id in Rest(daemon.codecs, Active(daemon)) <==>
                      multiset(daemon.codecs)[id] > multiset(Active(daemon))[id] {
      RestCounts(daemon.codecs, Active(daemon), id);
      assert id in Rest(daemon.codecs, Active(daemon)) <==> multiset(Rest(daemon.codecs, Active(daemon)))[id] > 0;
    }
  }

  lemma {:induction false} CountOfDistinct(s: seq<int>, x: int)
    requires NoDup(s)
    ensures multiset(s)[x] == if x in s then 1 else 0
  {
    if s != [] {
      assert s == [s[0]] + s[1..];
      CountOfDistinct(s[1..], x);
    }
  }

  /**
    Loaded into an empty model, the codecs that a following save sends back are exactly the active ones,
    in order, if and only if no active codec comes twice.
   */
  lemma SaveSendsActive(s: State, daemon: Daemon)
    requires s.rows == []
    ensures Saved(Reloaded(s, daemon)).sentActive == Active(daemon) <==> OnceEach(daemon)
  {
    hide LoadAll, Rest, Reloaded;
    var active, rest := Active(daemon), Rest(daemon.codecs, Active(daemon));
    var t := Reloaded(s, daemon);
    ReloadLists(s, daemon);
    assert Ids(s.rows) == [] && Elements(Ids(s.rows)) == {};
    NewsAppend(active, rest, {});
    RestOnce(daemon);
    NewsDistinct(active, {});
    NewsDistinct(rest, {} + Elements(active));
    EnabledAre(t.rows, t.enabled);
    if OnceEach(daemon) {
      NewsOfDistinct(active, {});
      forall id | id in active ensures id !in rest {
        CountOfDistinct(active, id);
      }
      EnabledPrefix(t.rows, t.enabled, active, News(rest, {} + Elements(active)));
    } else if NoDup(active) {
      NotOnce(daemon);
    }
  }

  /** Some active codec remains in the list, and ends up disabled. */
  lemma NotOnce(daemon: Daemon)
    requires NoDup(Active(daemon)) && !OnceEach(daemon)
    ensures exists id :: id in Active(daemon) && id in Rest(daemon.codecs, Active(daemon))
  {
    RestOnce(daemon);
    var id :| id in Active(daemon) && multiset(daemon.codecs)[id] > 1;
    CountOfDistinct(Active(daemon), id);
  }

  /** From an empty model the rows are the active codecs and then the others, without duplicates. */
  lemma ReloadFromEmpty(s: State, daemon: Daemon)
    requires s.rows == [] && OnceEach(daemon)
    ensures
      var t := Reloaded(s, daemon);
      var rest := Rest(daemon.codecs, Active(daemon));
      && Ids(t.rows) == Active(daemon) + News(rest, Elements(Active(daemon)))
      && NoDup(Ids(t.rows))
      && forall id :: id in Ids(t.rows) ==> (Enabled(t.enabled, id) <==> id in Active(daemon))
  {
    hide LoadAll, Rest, Reloaded;
    var active, rest := Active(daemon), Rest(daemon.codecs, Active(daemon));
    ReloadLists(s, daemon);
    assert Ids(s.rows) == [] && Elements(Ids(s.rows)) == {};
    NewsAppend(active, rest, {});
    NewsOfDistinct(active, {});
    NewsDistinct(rest, Elements(active));
    assert {} + Elements(active) == Elements(active);
    RestOnce(daemon);
    forall id | id in active ensures id !in rest {
      CountOfDistinct(active, id);
    }
  }

  // ----- Reordering -----

  /** A move takes one row to its destination and leaves the others in their order. */
  lemma MovedKeepsOthers<T>(rows: seq<T>, from: nat, to: nat)
    requires from < |rows| && to < |rows|
    ensures
      var r := Moved(rows, from, to);
      && |r| == |rows| && r[to] == rows[from] && RemoveAt(r, to) == RemoveAt(rows, from)
      && multiset(r) == multiset(rows)
  {
    var r, rest := Moved(rows, from, to), RemoveAt(rows, from);
    assert r[..to] == rest[..to] && r[to + 1..] == rest[to..];
    assert rest == rest[..to] + rest[to..];
    assert rows == rows[..from] + [rows[from]] + rows[from + 1..];
    calc {
      multiset(r);
      multiset(rest[..to]) + multiset{rows[from]} + multiset(rest[to..]);
      multiset(rest) + multiset{rows[from]};
      multiset(rows);
    }
  }

  lemma MovedBack<T>(rows: seq<T>, from: nat, to: nat)
    requires from < |rows| && to < |rows|
    ensures |Moved(rows, from, to)| == |rows| && Moved(Moved(rows, from, to), to, from) == rows
  {
    MovedKeepsOthers(rows, from, to);
    var rest := RemoveAt(rows, from);
    assert rest[..from] == rows[..from] && rest[from..] == rows[from + 1..];
  }

  lemma RowOfDistinct(rows: seq<Row>, row: nat)
    requires row < |rows| && NoDup(Ids(rows))
    ensures RowOf(rows, Ids(rows)[row]) == row
  {
    var r := RowOf(rows, Ids(rows)[row]);
    assert Ids(rows)[r] == Ids(rows)[row];
  }

  /** Where the row that ends up at position k comes from. */
  function Source(from: nat, to: nat, k: nat): nat {
    if k == to then from
    else
      var rest := if k < to then k else k - 1;
      if rest < from then rest else rest + 1
  }

  lemma MovedSize<T>(rows: seq<T>, from: nat, to: nat)
    requires from < |rows| && to < |rows|
    ensures |Moved(rows, from, to)| == |rows|
  {
  }

  lemma MovedAt<T>(rows: seq<T>, from: nat, to: nat, k: nat)
    requires from < |rows| && to < |rows| && k < |rows|
    ensures |Moved(rows, from, to)| == |rows| && Source(from, to, k) < |rows|
    ensures Moved(rows, from, to)[k] == rows[Source(from, to, k)]
  {
    var rest := RemoveAt(rows, from);
    assert k != to ==> Moved(rows, from, to)[k] == rest[if k < to then k else k - 1];
  }

  lemma MovedDistinct(rows: seq<Row>, from: nat, to: nat)
    requires from < |rows| && to < |rows| && NoDup(Ids(rows))
    ensures NoDup(Ids(Moved(rows, from, to)))
  {
    hide Moved;
    MovedSize(rows, from, to);
    var r := Moved(rows, from, to);
    forall i, j | 0 <= i < j < |r| ensures r[i].id != r[j].id {
      MovedAt(rows, from, to, i);
      MovedAt(rows, from, to, j);
      var k, l := Source(from, to, i), Source(from, to, j);
      assert Ids(rows)[k] != Ids(rows)[l];
    }
  }

  /** Up and then down again is the identity at every row, with wrap-around. */
  lemma UpThenDown(s: State, row: nat)
    requires row < |s.rows| && NoDup(Ids(s.rows))
    ensures
      var up := MovedUp(s, row);
      var now := Destination(row - 1, |s.rows|);
      |up.rows| == |s.rows| && up.rows[now] == s.rows[row] && MovedDown(up, now).rows == s.rows
  {
    hide Moved, Ids;
    Returns(s, row, row - 1);
  }

  lemma DownThenUp(s: State, row: nat)
    requires row < |s.rows| && NoDup(Ids(s.rows))
    ensures
      var down := MovedDown(s, row);
      var now := Destination(row + 1, |s.rows|);
      |down.rows| == |s.rows| && down.rows[now] == s.rows[row] && MovedUp(down, now).rows == s.rows
  {
    hide Moved, Ids;
    Returns(s, row, row + 1);
  }

  /** Any move is undone by dropping the codec on the row it came from. */
  lemma Returns(s: State, row: nat, onto: int)
    requires row < |s.rows| && NoDup(Ids(s.rows))
    ensures
      var t := Dropped(s, Ids(s.rows)[row], onto);
      var now := Destination(onto, |s.rows|);
      && |t.rows| == |s.rows| && t.rows[now] == s.rows[row] && Ids(t.rows)[now] == Ids(s.rows)[row]
      && Dropped(t, Ids(t.rows)[now], row).rows == s.rows
      && forall edge :: Destination(edge, |s.rows|) == row ==> Dropped(t, Ids(t.rows)[now], edge).rows == s.rows
  {
    hide Moved, IndexOf;
    var now := Destination(onto, |s.rows|);
    RowOfDistinct(s.rows, row);
    MovedKeepsOthers(s.rows, row, now);
    MovedDistinct(s.rows, row, now);
    RowOfDistinct(Moved(s.rows, row, now), now);
    MovedBack(s.rows, row, now);
  }

  // ----- Runs -----

  datatype Event =
    | Performed(action: EditAction, daemon: Daemon)
    | TextSet(row: nat, field: Field, text: string)
    | IdSet(row: nat, id: int)
    | EnabledSet(row: nat, enabled: bool)
    | DroppedOn(id: int, onto: int)

  /** No other row has the identifier. */
  predicate Unused(s: State, row: nat, id: int) {
    forall i :: 0 <= i < |s.rows| && i != row ==> s.rows[i].id != id
  }

  predicate Allowed(s: State, e: Event) {
    match e
    case Performed(_, _) => true
    case TextSet(row, _, _) => row < |s.rows|
    case IdSet(row, id) => row < |s.rows| && Unused(s, row, id)
    case EnabledSet(row, _) => row < |s.rows|
    case DroppedOn(id, _) => id in Ids(s.rows)
  }

  function Step(s: State, e: Event): State
    requires Allowed(s, e)
  {
    match e
    case Performed(action, daemon) => Perform(s, action, daemon)
    case TextSet(row, field, text) => SetText(s, row, field, text)
    case IdSet(row, id) => SetId(s, row, id)
    case EnabledSet(row, enabled) => SetEnabled(s, row, enabled)
    case DroppedOn(id, onto) => Dropped(s, id, onto)
  }

  predicate AllowedRun(s: State, events: seq<Event>)
    decreases |events|
  {
    events != [] ==> Allowed(s, events[0]) && AllowedRun(Step(s, events[0]), events[1..])
  }

  function Run(s: State, events: seq<Event>): State
    requires AllowedRun(s, events)
    decreases |events|
  {
    if events == [] then s else Run(Step(s, events[0]), events[1..])
  }

  /** No codec has two rows, and no reload is left half done. */
  ghost predicate Inv(s: State) {
    NoDup(Ids(s.rows)) && (s.edit == LOADING || s.edit == READY || s.edit == MODIFIED)
  }

  /** A written identifier keeps the rows distinct exactly if no other row has it. */
  lemma IdSetKeepsExactly(s: State, row: nat, id: int)
    requires Inv(s) && row < |s.rows|
    ensures Inv(SetId(s, row, id)) <==> Unused(s, row, id)
  {
    var t := SetId(s, row, id);
    forall i | 0 <= i < |s.rows| && i != row ensures Ids(t.rows)[i] == s.rows[i].id && Ids(t.rows)[row] == id {
    }
    if Unused(s, row, id) {
      forall i, j | 0 <= i < j < |s.rows| ensures Ids(t.rows)[i] != Ids(t.rows)[j] {
        assert Ids(s.rows)[i] != Ids(s.rows)[j];
      }
    } else {
      var i :| 0 <= i < |s.rows| && i != row && s.rows[i].id == id;
      assert Ids(t.rows)[i] == Ids(t.rows)[row];
    }
  }

  lemma StepKeeps(s: State, e: Event)
    requires Inv(s) && Allowed(s, e)
    ensures Inv(Step(s, e))
  {
    hide Reloaded, Moved, EnabledIds, SentDetails;
    match e
    case Performed(action, daemon) =>
      ReloadLists(s, daemon);
      ReloadIsSilent(s, daemon);
    case TextSet(row, field, text) =>
      assert Ids(SetText(s, row, field, text).rows) == Ids(s.rows);
    case IdSet(row, id) => IdSetKeepsExactly(s, row, id);
    case EnabledSet(row, enabled) =>
    case DroppedOn(id, onto) =>
      MovedDistinct(s.rows, RowOf(s.rows, id), Destination(onto, |s.rows|));
  }

  lemma {:induction false} RunKeeps(s: State, events: seq<Event>)
    requires Inv(s) && AllowedRun(s, events)
    ensures Inv(Run(s, events))
    decreases |events|
  {
    if events != [] {
      StepKeeps(s, events[0]);
      RunKeeps(Step(s, events[0]), events[1..]);
    }
  }

  /** In every state a new model can reach, every row can be moved up and down again. */
  lemma EveryRunReorders(events: seq<Event>, row: nat)
    requires
      var s := State([], map[], LOADING, 0, [], map[]);
      AllowedRun(s, events) && row < |Run(s, events).rows|
    ensures
      var s := Run(State([], map[], LOADING, 0, [], map[]), events);
      && Inv(s)
      && MovedDown(MovedUp(s, row), Destination(row - 1, |s.rows|)).rows == s.rows
      && MovedUp(MovedDown(s, row), Destination(row + 1, |s.rows|)).rows == s.rows
  {
    hide Moved;
    var s := State([], map[], LOADING, 0, [], map[]);
    RunKeeps(s, events);
    UpThenDown(Run(s, events), row);
    DownThenUp(Run(s, events), row);
  }
}

/** What the rows show after a reload, and what a save sends. */
module CodecContents {
  import opened Lists
  import opened Codecs
  import opened CodecRuns

  /** The details of the row of a codec. */
  function RowDetails(rows: seq<Row>, id: int): Details {
    if id in Ids(rows) then rows[RowOf(rows, id)].details else map[]
  }

  /** Every field has the text of the daemon, or is empty where the daemon gives none. */
  ghost predicate Shows(details: Details, given: Details) {
    forall f: Field :: f in details && details[f] == (if f in given then given[f] else "")
  }

  lemma {:induction false} OverwrittenIs(was: Details, codec: Details, fields: seq<Field>)
    ensures forall f: Field :: f in fields ==>
              f in Overwritten(was, codec, fields) && Overwritten(was, codec, fields)[f] == Text(codec, f)
    ensures forall f: Field :: f !in fields ==>
              Text(Overwritten(was, codec, fields), f) == Text(was, f)
              && (f in Overwritten(was, codec, fields) <==> f in was)
    decreases |fields|
  {
    if fields != [] {
      OverwrittenIs(was[fields[0] := Text(codec, fields[0])], codec, fields[1..]);
    }
  }

  /** The list of fields misses none of them. */
  lemma AllFields(f: Field)
    ensures f in FIELDS
  {
    assert FIELDS[0] == NAME && FIELDS[1] == SAMPLERATE && FIELDS[2] == BITRATE && FIELDS[3] == MIN_BITRATE;
    assert FIELDS[4] == MAX_BITRATE && FIELDS[5] == TYPE && FIELDS[6] == QUALITY && FIELDS[7] == MIN_QUALITY;
    assert FIELDS[8] == MAX_QUALITY && FIELDS[9] == AUTO_QUALITY_ENABLED;
  }

  lemma OverwrittenShows(was: Details, codec: Details)
    ensures Shows(Overwritten(was, codec, FIELDS), codec)
  {
    OverwrittenIs(was, codec, FIELDS);
    forall f: Field ensures f in FIELDS {
      AllFields(f);
    }
  }

  /** The row that a codec is loaded into, and its place. */
  lemma LoadPlace(s: State, id: int, codec: Details, checked: bool)
    requires NoDup(Ids(s.rows))
    ensures
      var t := Load(s, id, codec, checked);
      var r := RowOf(t.rows, id);
      && NoDup(Ids(t.rows)) && id in Ids(t.rows) && Shows(t.rows[r].details, codec)
      && |s.rows| <= |t.rows| && Ids(t.rows)[..|s.rows|] == Ids(s.rows)
      && forall i :: 0 <= i < |s.rows| && i != r ==> t.rows[i] == s.rows[i]
  {
    hide Overwritten, Shows;
    var t := Load(s, id, codec, checked);
    var rows := if id in Ids(s.rows) then s.rows else s.rows + [Row(id, map[])];
    LoadIds(s, id, codec, checked);
    assert Ids(rows) == Ids(t.rows);
    OverwrittenShows(rows[RowOf(rows, id)].details, codec);
  }

  /** Loading a codec writes its row and no other. */
  lemma LoadShows(s: State, id: int, codec: Details, checked: bool, other: int)
    requires NoDup(Ids(s.rows))
    ensures
      var t := Load(s, id, codec, checked);
      && NoDup(Ids(t.rows)) && id in Ids(t.rows) && Shows(RowDetails(t.rows, id), codec)
      && (other in Ids(s.rows) && other != id ==>
            other in Ids(t.rows) && RowDetails(t.rows, other) == RowDetails(s.rows, other))
  {
    hide Load, Shows, IndexOf, NoDup;
    var t := Load(s, id, codec, checked);
    LoadPlace(s, id, codec, checked);
    if other in Ids(s.rows) && other != id {
      var i := RowOf(s.rows, other);
      assert Ids(t.rows)[i] == Ids(t.rows)[..|s.rows|][i] == other;
      RowOfDistinct(t.rows, i);
    }
  }

  /** After a loop over some codecs, these show the daemon's texts and the others are as before. */
  lemma {:induction false} LoadAllShows(s: State, ids: seq<int>, daemon: Daemon, checked: bool, id: int)
    requires NoDup(Ids(s.rows))
    ensures
      var t := LoadAll(s, ids, daemon, checked);
      && NoDup(Ids(t.rows))
      && (id in ids ==> id in Ids(t.rows) && Shows(RowDetails(t.rows, id), DetailsOf(daemon, id)))
      && (id !in ids && id in Ids(s.rows) ==> id in Ids(t.rows) && RowDetails(t.rows, id) == RowDetails(s.rows, id))
    decreases |ids|
  {
    hide Load, Ids, NoDup, Shows, RowDetails, DetailsOf;
    if ids != [] {
      var t := Load(s, ids[0], DetailsOf(daemon, ids[0]), checked);
      LoadShows(s, ids[0], DetailsOf(daemon, ids[0]), checked, id);
      LoadAllShows(t, ids[1..], daemon, checked, id);
      assert ids == [ids[0]] + ids[1..];
    }
  }

  lemma {:induction false} RestListed(codecs: seq<int>, active: seq<int>, id: int)
    ensures id in Rest(codecs, active) ==> id in codecs
    ensures id in codecs && id !in active ==> id in Rest(codecs, active)
    decreases |active|
  {
    if active != [] {
      RestListed(RemoveFirst(codecs, active[0]), active[1..], id);
      assert active == [active[0]] + active[1..];
    }
  }

  /**
    After a reload, each codec that the daemon lists, as active or at all, has a row in which every one of
    the fields holds the daemon's text; the rows of other codecs are as they were.
   */
  lemma ReloadShows(s: State, daemon: Daemon, id: int)
    requires NoDup(Ids(s.rows))
    ensures
      var t := Reloaded(s, daemon);
      && NoDup(Ids(t.rows))
      && (id in Active(daemon) || id in daemon.codecs ==>
            id in Ids(t.rows) && Shows(RowDetails(t.rows, id), DetailsOf(daemon, id)))
      && (id !in Active(daemon) && id !in daemon.codecs && id in Ids(s.rows) ==>
            id in Ids(t.rows) && RowDetails(t.rows, id) == RowDetails(s.rows, id))
  {
    hide LoadAll, Ids, NoDup, Shows, RowDetails, DetailsOf, Rest;
    var r := s.(edit := RELOADING);
    var m := LoadAll(r, Active(daemon), daemon, true);
    LoadAllShows(r, Active(daemon), daemon, true, id);
    LoadAllShows(m, Rest(daemon.codecs, Active(daemon)), daemon, false, id);
    RestListed(daemon.codecs, Active(daemon), id);
  }

  lemma {:induction false} SentDetailsAre(rows: seq<Row>, sent: map<int, Details>, id: int)
    requires NoDup(Ids(rows))
    ensures
      var r := SentDetails(rows, sent);
      if id in Ids(rows) then id in r && r[id] == RowDetails(rows, id)
      else (id in r <==> id in sent) && (id in sent ==> r[id] == sent[id])
  {
    if rows != [] {
      var rest := rows[1..];
      assert Ids(rows) == [rows[0].id] + Ids(rest);
      assert Ids(rest) == Ids(rows)[1..];
      SentDetailsAre(rest, sent[rows[0].id := rows[0].details], id);
      if id in Ids(rest) {
        var i := RowOf(rest, id);
        assert Ids(rows)[i + 1] == id && rows[i + 1] == rest[i];
        RowOfDistinct(rows, i + 1);
      } else if id == rows[0].id {
        RowOfDistinct(rows, 0);
      }
    }
  }

  /** A save sends every codec with exactly the details of its row. */
  lemma SaveSendsRows(s: State)
    requires NoDup(Ids(s.rows))
    ensures
      var t := Saved(s);
      && (forall i :: 0 <= i < |s.rows| ==>
            s.rows[i].id in t.sentDetails && t.sentDetails[s.rows[i].id] == s.rows[i].details)
      && (forall id :: id !in Ids(s.rows) ==> (id in t.sentDetails <==> id in s.sentDetails))
      && t.rows == s.rows && t.enabled == s.enabled && t.edit == READY
  {
    hide SentDetails, EnabledIds, NoDup, Ids;
    var t := Saved(s);
    forall i | 0 <= i < |s.rows|
      ensures s.rows[i].id in t.sentDetails && t.sentDetails[s.rows[i].id] == s.rows[i].details
    {
      assert Ids(s.rows)[i] == s.rows[i].id;
      SentDetailsAre(s.rows, s.sentDetails, s.rows[i].id);
      RowOfDistinct(s.rows, i);
    }
    forall id | id !in Ids(s.rows) ensures id in t.sentDetails <==> id in s.sentDetails {
      SentDetailsAre(s.rows, s.sentDetails, id);
    }
  }

  // ----- Edits and what becomes of them -----

  /** A text that is written, and then saved, is what the daemon gets for that codec; other codecs go as they are. */
  lemma TextIsSent(s: State, row: nat, field: Field, text: string, daemon: Daemon)
    requires Inv(s) && s.edit != LOADING && row < |s.rows|
    ensures
      var t := Perform(SetText(s, row, field, text), SAVE, daemon);
      && t.edit == READY && |t.rows| == |s.rows|
      && (forall i :: 0 <= i < |s.rows| ==>
            s.rows[i].id in t.sentDetails && t.sentDetails[s.rows[i].id]
            == if i == row then s.rows[i].details[field := text] else s.rows[i].details)
  {
    hide SentDetails, EnabledIds, NoDup, Saved;
    var u := SetText(s, row, field, text);
    assert Ids(u.rows) == Ids(s.rows);
    SaveSendsRows(u);
    assert forall i :: 0 <= i < |s.rows| ==> u.rows[i].id == s.rows[i].id;
  }

  lemma {:induction false} EnabledIdsAre(rows: seq<Row>, enabled: map<int, bool>)
    ensures forall id :: id in EnabledIds(rows, enabled) ==> id in Ids(rows) && Enabled(enabled, id)
    ensures forall i :: 0 <= i < |rows| && Enabled(enabled, rows[i].id) ==> rows[i].id in EnabledIds(rows, enabled)
  {
    if rows != [] {
      EnabledIdsAre(rows[1..], enabled);
      assert Ids(rows) == [rows[0].id] + Ids(rows[1..]);
    }
  }

  /** A check mark that is set, and then saved, decides whether the daemon activates that codec. */
  lemma CheckIsSent(s: State, row: nat, on: bool, daemon: Daemon)
    requires Inv(s) && s.edit != LOADING && row < |s.rows|
    ensures
      var t := Perform(SetEnabled(s, row, on), SAVE, daemon);
      && (s.rows[row].id in t.sentActive <==> on)
      && (forall i :: 0 <= i < |s.rows| && i != row ==>
            (s.rows[i].id in t.sentActive <==> Enabled(s.enabled, s.rows[i].id)))
  {
    hide SentDetails, NoDup;
    var u := SetEnabled(s, row, on);
    EnabledIdsAre(u.rows, u.enabled);
    forall i | 0 <= i < |s.rows| && i != row ensures s.rows[i].id != s.rows[row].id {
      RowOfDistinct(s.rows, i);
      RowOfDistinct(s.rows, row);
      assert Ids(s.rows)[i] == s.rows[i].id && Ids(s.rows)[row] == s.rows[row].id;
    }
  }

  /** Reloading drops every edit of a codec that the daemon lists, from any state a run can reach. */
  lemma ReloadDropsEdits(s: State, daemon: Daemon, id: int)
    requires Inv(s) && (id in Active(daemon) || id in daemon.codecs)
    ensures
      var t := Perform(s, RELOAD, daemon);
      t.edit == READY && id in Ids(t.rows) && Shows(RowDetails(t.rows, id), DetailsOf(daemon, id))
  {
    hide Reloaded, Shows, RowDetails, NoDup;
    ReloadShows(s, daemon, id);
    ReloadIsSilent(s, daemon);
  }

  /** Loading looks at the rows and the check marks only. */
  lemma {:induction false} LoadAllRows(s: State, t: State, ids: seq<int>, daemon: Daemon, checked: bool)
    requires s.rows == t.rows && s.enabled == t.enabled
    ensures LoadAll(s, ids, daemon, checked).rows == LoadAll(t, ids, daemon, checked).rows
    ensures LoadAll(s, ids, daemon, checked).enabled == LoadAll(t, ids, daemon, checked).enabled
    decreases |ids|
  {
    if ids != [] {
      var codec := DetailsOf(daemon, ids[0]);
      LoadAllRows(Load(s, ids[0], codec, checked), Load(t, ids[0], codec, checked), ids[1..], daemon, checked);
    }
  }

  /** Clearing and reloading gives the rows and check marks that a new model would load. */
  lemma ClearThenReload(s: State, daemon: Daemon)
    requires Inv(s) && s.edit != LOADING
    ensures
      var t := Perform(Perform(s, CLEAR, daemon), RELOAD, daemon);
      var created := Perform(State([], map[], LOADING, 0, [], map[]), RELOAD, daemon);
      && t.rows == created.rows && t.enabled == created.enabled && t.edit == created.edit == READY
      && t.sentActive == s.sentActive
  {
    hide LoadAll, NoDup, Rest;
    var a := s.(rows := [], enabled := map[], edit := READY);
    var b := State([], map[], LOADING, 0, [], map[]);
    var x, y := a.(edit := RELOADING), b.(edit := RELOADING);
    var active, rest := Active(daemon), Rest(daemon.codecs, Active(daemon));
    LoadAllRows(x, y, active, daemon, true);
    LoadAllRows(LoadAll(x, active, daemon, true), LoadAll(y, active, daemon, true), rest, daemon, false);
    ReloadIsSilent(a, daemon);
  }
}
