/** The codecs of an account, edited in place. */
module CodecModels {
  import opened Options
  import opened Lists
  import opened Codecs
  import R = CodecRuns

  /** A new codec has no meaningful identifier until one is written. */
  class CodecData {
    var id: int
    var details: Details

    constructor ()
      ensures details == map[]
    {
      details := map[];
    }

    function Value(): Row
      reads this
    {
      Row(id, details)
    }
  }

  class CodecModel {
    var codecs: seq<CodecData>
    var enabled: map<int, bool>
    var editState: EditState
    var notified: nat
    var sentActive: seq<int>
    var sentDetails: map<int, Details>

    static ghost function Values(codecs: seq<CodecData>): (rows: seq<Row>)
      reads codecs
      ensures |rows| == |codecs| && forall i :: 0 <= i < |codecs| ==> rows[i] == codecs[i].Value()
    {
      seq(|codecs|, i requires 0 <= i < |codecs| reads codecs => codecs[i].Value())
    }

    ghost function Rows(): (rows: seq<Row>)
      reads this`codecs, codecs
      ensures |rows| == |codecs|
    {
      Values(codecs)
    }

    ghost function State(): State
      reads this, codecs
    {
      Codecs.State(Rows(), enabled, editState, notified, sentActive, sentDetails)
    }

    ghost predicate Valid()
      reads this`codecs
    {
      NoDup(codecs)
    }

    /** The codec objects that were not listed before are new. */
    twostate predicate OldOrFresh()
      reads this`codecs
    {
      forall i :: 0 <= i < |codecs| ==> codecs[i] in old(codecs) || fresh(codecs[i])
    }

    constructor ()
      ensures Valid() && codecs == [] && State() == Codecs.State([], map[], LOADING, 0, [], map[])
    {
      codecs, enabled, editState, notified, sentActive, sentDetails := [], map[], LOADING, 0, [], map[];
    }

    // ----- Editing -----

    method PerformModify()
      modifies this`editState, this`notified
      ensures State() == Modified(old(State()))
    {
      hide Rows;
      if HandlerOf(editState, MODIFY) == Modify {
        editState := MODIFIED;
        notified := notified + 1;
      }
    }

    method SetId(row: nat, id: int, ghost c: CodecData)
      requires Valid() && row < |codecs| && c == codecs[row]
      modifies this`editState, this`notified, c`id
      ensures State() == Codecs.SetId(old(State()), row, id)
    {
      ghost var rows := Rows();
      codecs[row].id := id;
      assert Rows() == rows[row := rows[row].(id := id)];
      PerformModify();
    }

    method SetText(row: nat, field: Field, text: string, ghost c: CodecData)
      requires Valid() && row < |codecs| && c == codecs[row]
      modifies this`editState, this`notified, c`details
      ensures State() == Codecs.SetText(old(State()), row, field, text)
    {
      ghost var rows := Rows();
      codecs[row].details := codecs[row].details[field := text];
      assert Rows() == rows[row := rows[row].(details := rows[row].details[field := text])];
      PerformModify();
    }

    method SetEnabled(row: nat, on: bool)
      requires row < |codecs|
      modifies this`editState, this`notified, this`enabled
      ensures State() == Codecs.SetEnabled(old(State()), row, on)
    {
      enabled := enabled[codecs[row].id := on];
      PerformModify();
    }

    method Add() returns (row: nat)
      requires Valid()
      modifies this`codecs, this`editState, this`notified
      ensures Valid() && row == |old(codecs)| && |codecs| == row + 1
      ensures codecs[..row] == old(codecs) && fresh(codecs[row])
      ensures
        exists id :: State() == Modified(old(State()).(rows := old(Rows()) + [Row(id, map[])]))
    {
      row := |codecs|;
      var c := new CodecData();
      codecs := codecs + [c];
      assert Rows() == old(Rows()) + [Row(c.id, map[])];
      assert State() == old(State()).(rows := old(Rows()) + [Row(c.id, map[])]);
      PerformModify();
    }

    // ----- Looking up -----

    method FindCodec(id: int) returns (found: bool)
      ensures found == (id in Ids(Rows()))
    {
      for i := 0 to |codecs|
        invariant id !in Ids(Rows())[..i]
      {
        if codecs[i].id == id {
          assert Ids(Rows())[i] == id;
          return true;
        }
      }
      return false;
    }

    method IndexOfCodec(id: int) returns (row: int)
      ensures row == RowOf(Rows(), id)
    {
      for i := 0 to |codecs|
        invariant id !in Ids(Rows())[..i]
      {
        if codecs[i].id == id {
          FirstAt(Ids(Rows()), id, i);
          return i;
        }
      }
      return -1;
    }

    lemma FirstAt(ids: seq<int>, id: int, i: nat)
      requires i < |ids| && ids[i] == id && id !in ids[..i]
      ensures IndexOf(ids, id) == i
    {
      var r := IndexOf(ids, id);
      assert forall j :: 0 <= j < i ==> ids[..i][j] != id;
      assert forall j :: 0 <= j < r ==> ids[..r][j] != id;
    }

    // ----- Reloading -----

    /** The row of a codec, created if there is none. */
    method EnsureCodec(id: int)
      requires Valid() && editState == RELOADING
      modifies this`codecs, this`editState, this`notified
      ensures Valid() && OldOrFresh()
      ensures
        var rows := old(Rows());
        State() == old(State()).(rows := if id in Ids(rows) then rows else rows + [Row(id, map[])])
    {
      hide Ids;
      var found := FindCodec(id);
      if !found {
        var row := Add();
        ghost var rows := Rows();
        SetId(row, id, codecs[row]);
        assert rows[row := rows[row].(id := id)] == old(Rows()) + [Row(id, map[])];
        assert forall i :: 0 <= i < row ==> codecs[i] == codecs[..row][i];
      }
    }

    method WriteFields(row: nat, codec: Details, fields: seq<Field>, ghost c: CodecData)
      requires Valid() && row < |codecs| && c == codecs[row] && editState == RELOADING
      modifies this`editState, this`notified, c`details
      ensures
        var rows := old(Rows());
        State() == old(State()).(rows :=
          rows[row := rows[row].(details := Overwritten(rows[row].details, codec, fields))])
    {
      ghost var s := State();
      for i := 0 to |fields|
        invariant State() == s.(rows := s.rows[row := s.rows[row].(details := c.details)])
        invariant Overwritten(c.details, codec, fields[i..]) == Overwritten(s.rows[row].details, codec, fields)
      {
        assert fields[i..][0] == fields[i] && fields[i..][1..] == fields[i + 1..];
        SetText(row, fields[i], Text(codec, fields[i]), c);
        assert c.details == Rows()[row].details;
      }
    }

    /** One codec of the daemon. None of these edits counts as a modification. */
    method LoadCodec(id: int, codec: Details, checked: bool)
      requires Valid() && editState == RELOADING
      modifies this`codecs, this`editState, this`notified, this`enabled, codecs`details
      ensures Valid() && OldOrFresh()
      ensures State() == Load(old(State()), id, codec, checked) && editState == RELOADING
    {
      hide Rows, Overwritten;
      LoadedRow(Rows(), id);
      EnsureCodec(id);
      var row := IndexOfCodec(id);
      WriteFields(row, codec, FIELDS, codecs[row]);
      SetEnabled(row, checked);
    }

    lemma LoadedRow(rows: seq<Row>, id: int)
      ensures
        var all := if id in Ids(rows) then rows else rows + [Row(id, map[])];
        RowOf(all, id) >= 0
    {
      if id !in Ids(rows) {
        assert Ids(rows + [Row(id, map[])])[|rows|] == id;
      }
    }

    /** The active codecs come first; each takes one occurrence off the list of all codecs. */
    method LoadActive(active: seq<int>, daemon: Daemon) returns (rest: seq<int>)
      requires Valid() && editState == RELOADING
      modifies this`codecs, this`editState, this`notified, this`enabled, codecs`details
      ensures Valid() && OldOrFresh()
      ensures editState == RELOADING
      ensures State() == LoadAll(old(State()), active, daemon, true) && rest == Rest(daemon.codecs, active)
    {
      hide Rows, Load, RemoveFirst, IndexOf;
      rest := daemon.codecs;
      for i := 0 to |active|
        invariant Valid() && OldOrFresh()
        invariant LoadAll(State(), active[i..], daemon, true) == LoadAll(old(State()), active, daemon, true)
        invariant editState == RELOADING
        invariant Rest(rest, active[i..]) == Rest(daemon.codecs, active)
      {
        assert active[i..][0] == active[i] && active[i..][1..] == active[i + 1..];
        LoadCodec(active[i], DetailsOf(daemon, active[i]), true);
        var at := IndexOf(rest, active[i]);
        if at != -1 {
          RemoveFirstAt(rest, active[i]);
          rest := rest[..at] + rest[at + 1..];
        }
      }
    }

    method LoadRest(ids: seq<int>, daemon: Daemon)
      requires Valid() && editState == RELOADING
      modifies this`codecs, this`editState, this`notified, this`enabled, codecs`details
      ensures Valid() && OldOrFresh()
      ensures State() == LoadAll(old(State()), ids, daemon, false)
    {
      hide Rows, Load;
      for i := 0 to |ids|
        invariant Valid() && OldOrFresh()
        invariant editState == RELOADING
        invariant LoadAll(State(), ids[i..], daemon, false) == LoadAll(old(State()), ids, daemon, false)
      {
        assert ids[i..][0] == ids[i] && ids[i..][1..] == ids[i + 1..];
        LoadCodec(ids[i], DetailsOf(daemon, ids[i]), false);
      }
    }

    method Reload(daemon: Daemon)
      requires Valid()
      modifies this`codecs, this`editState, this`notified, this`enabled, codecs`details
      ensures Valid() && OldOrFresh()
      ensures State() == Reloaded(old(State()), daemon)
    {
      hide Rows, LoadAll, Rest;
      editState := RELOADING;
      assert State() == old(State()).(edit := RELOADING);
      var rest := LoadActive(Active(daemon), daemon);
      LoadRest(rest, daemon);
      editState := READY;
    }

    // ----- Saving -----

    lemma EnabledStep(rows: seq<Row>, i: nat, list: seq<int>)
      requires i < |rows|
      ensures list + EnabledIds(rows[i..], enabled)
           == (if Enabled(enabled, rows[i].id) then list + [rows[i].id] else list) + EnabledIds(rows[i + 1..], enabled)
    {
      hide Enabled;
      assert rows[i..][0] == rows[i] && rows[i..][1..] == rows[i + 1..];
      Assoc(list, [rows[i].id], EnabledIds(rows[i + 1..], enabled));
    }

    method SendActive()
      modifies this`sentActive
      ensures sentActive == EnabledIds(Rows(), enabled)
    {
      var list := [];
      for i := 0 to |codecs|
        invariant list + EnabledIds(Rows()[i..], enabled) == EnabledIds(Rows(), enabled)
      {
        hide Rows, EnabledIds;
        ghost var rows := Rows();
        EnabledStep(rows, i, list);
        if codecs[i].id in enabled && enabled[codecs[i].id] {
          list := list + [codecs[i].id];
        }
      }
      assert Rows()[|codecs|..] == [];
      sentActive := list;
    }

    method SendDetails()
      modifies this`sentDetails
      ensures sentDetails == SentDetails(Rows(), old(sentDetails))
    {
      for i := 0 to |codecs|
        invariant SentDetails(Rows()[i..], sentDetails) == SentDetails(Rows(), old(sentDetails))
      {
        hide Rows;
        ghost var rows := Rows();
        assert rows[i..][0] == rows[i] && rows[i..][1..] == rows[i + 1..];
        sentDetails := sentDetails[codecs[i].id := codecs[i].details];
      }
      assert Rows()[|codecs|..] == [];
    }

    method Save()
      modifies this`sentActive, this`sentDetails, this`editState
      ensures State() == Saved(old(State()))
    {
      hide Rows;
      SendActive();
      SendDetails();
      editState := READY;
    }

    method Clear()
      modifies this`codecs, this`enabled, this`editState
      ensures codecs == [] && State() == Cleared(old(State()))
    {
      while codecs != [] {
        codecs := codecs[1..];
      }
      enabled := map[];
      editState := READY;
    }

    method PerformAction(action: EditAction, daemon: Daemon)
      requires Valid()
      modifies this, codecs
      ensures Valid() && State() == Perform(old(State()), action, daemon)
    {
      hide Rows, Saved, Modified, Reloaded;
      match HandlerOf(editState, action)
      case Nothing =>
      case Save => Save();
      case Modify => PerformModify();
      case Reload => Reload(daemon);
      case Clear => Clear();
    }

    // ----- Reordering -----

    /** The data holds the identifier of a listed codec, if it has one of the two codec formats. */
    method DropMimeData(data: Option<int>, row: int, column: int, onItem: bool) returns (ok: bool)
      requires Valid() && (data.Some? ==> data.value in Ids(Rows()))
      modifies this`codecs, this`editState, this`notified
      ensures Valid() && ok == (!onItem && column <= 0 && data.Some?)
      ensures State() == if ok then Dropped(old(State()), data.value, row) else old(State())
    {
      hide Ids, IndexOf;
      if onItem || column > 0 {
        return false;
      }
      if data.None? {
        return false;
      }
      var to := Destination(row, |codecs|);
      var from := IndexOfCodec(data.value);
      Reorder(from, to);
      PerformModify();
      return true;
    }

    method Reorder(from: nat, to: nat)
      requires Valid() && from < |codecs| && to < |codecs|
      modifies this`codecs
      ensures Valid() && Rows() == Moved(old(Rows()), from, to)
    {
      hide NoDup;
      MoveKeepsDistinct(codecs, from, to);
      ghost var all := codecs;
      var codec := codecs[from];
      codecs := codecs[..from] + codecs[from + 1..];
      codecs := codecs[..to] + [codec] + codecs[to..];
      assert codecs == Moved(all, from, to);
      MovedValues(all, from, to);
    }

    lemma MovedValues(list: seq<CodecData>, from: nat, to: nat)
      requires from < |list| && to < |list|
      ensures Values(Moved(list, from, to)) == Moved(Values(list), from, to)
    {
      hide Moved;
      var moved, rows := Moved(list, from, to), Moved(Values(list), from, to);
      R.MovedSize(list, from, to);
      R.MovedSize(Values(list), from, to);
      forall k | 0 <= k < |list| ensures Values(moved)[k] == rows[k] {
        R.MovedAt(list, from, to, k);
        R.MovedAt(Values(list), from, to, k);
      }
    }

    lemma MoveKeepsDistinct(list: seq<CodecData>, from: nat, to: nat)
      requires from < |list| && to < |list| && NoDup(list)
      ensures NoDup(Moved(list, from, to))
    {
    }

    method MoveUp(row: nat)
      requires Valid() && row < |codecs|
      modifies this`codecs, this`editState, this`notified
      ensures Valid() && State() == MovedUp(old(State()), row)
    {
      hide Dropped;
      assert Ids(Rows())[row] == codecs[row].id;
      var _ := DropMimeData(Some(codecs[row].id), row - 1, 0, false);
    }

    method MoveDown(row: nat)
      requires Valid() && row < |codecs|
      modifies this`codecs, this`editState, this`notified
      ensures Valid() && State() == MovedDown(old(State()), row)
    {
      hide Dropped;
      assert Ids(Rows())[row] == codecs[row].id;
      var _ := DropMimeData(Some(codecs[row].id), row + 1, 0, false);
    }
  }
}
