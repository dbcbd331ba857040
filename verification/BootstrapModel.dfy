/** The edit-state machine of the bootstrap servers of an account, as a value. */
module BootstrapRuns {
  import opened BootstrapText

  datatype EditState = LOADING | READY | MODIFIED | OUTDATED | RELOADING | RESETING

  /** RELOAD comes with the host name of the account, RESET with the servers of the bootstrap files. */
  datatype EditAction =
    | SAVE | MODIFY | RELOAD(hostname: string) | CLEAR | RESET(servers: seq<Line>)

  datatype Handler = Nothing | Save | Modify | Reload | Clear | Reset

  /** The property is the text last written to the account; notified counts its MODIFY notifications. */
  datatype State = State(rows: seq<Line>, edit: EditState, property: string, notified: nat)

  const DEFAULT_SERVER := Line("bootstrap.ring.cx", -1)

  function HandlerOf(edit: EditState, action: EditAction): Handler {
    match edit
    case LOADING => if action.RELOAD? then Reload else Nothing
    case READY =>
      (match action
       case SAVE => Nothing case MODIFY => Modify case RELOAD(_) => Reload case CLEAR => Clear case RESET(_) => Reset)
    case MODIFIED =>
      (match action
       case SAVE => Save case MODIFY => Nothing case RELOAD(_) => Reload case CLEAR => Clear case RESET(_) => Reset)
    case OUTDATED =>
      (match action
       case SAVE => Save case MODIFY => Nothing case RELOAD(_) => Reload case CLEAR => Clear case RESET(_) => Reset)
    case RELOADING => Nothing
    case RESETING => if action.MODIFY? then Modify else Nothing
  }

  function Saved(s: State): State {
    s.(rows := Cleanup(s.rows), property := Print(s.rows), edit := READY)
  }

  /** The MODIFY action: the account is told, unless the model counts as changed already. */
  function Modified(s: State): State {
    if HandlerOf(s.edit, MODIFY) == Modify then s.(edit := MODIFIED, notified := s.notified + 1) else s
  }

  function Servers(servers: seq<Line>): seq<Line> {
    if servers == [] then [DEFAULT_SERVER] else servers
  }

  function Perform(s: State, action: EditAction): State {
    match HandlerOf(s.edit, action)
    case Nothing => s
    case Save => Saved(s)
    case Modify => Modified(s)
    case Reload => if action.RELOAD? then s.(rows := Parse(action.hostname), edit := READY) else s
    case Clear => Modified(s.(rows := []))
    case Reset => if action.RESET? then Modified(s.(rows := Servers(action.servers), edit := RESETING)) else s
  }

  /** Writing behind the last row creates one. */
  function WithRow(rows: seq<Line>, row: nat): seq<Line> {
    if row < |rows| then rows else rows + [Line("", -1)]
  }

  function RowAt(rows: seq<Line>, row: nat): (k: nat)
    ensures k < |WithRow(rows, row)|
  {
    if row < |rows| then row else |rows|
  }

  function SetHostname(s: State, row: nat, text: string): State {
    var rows, k := WithRow(s.rows, row), RowAt(s.rows, row);
    Modified(Saved(s.(rows := rows[k := rows[k].(hostname := text)])))
  }

  /** Ports outside 1..65534 fall back to the default one and are saved at once. */
  function SetPort(s: State, row: nat, port: int): State {
    var rows, k := WithRow(s.rows, row), RowAt(s.rows, row);
    if port <= 0 || port > 65534 then Modified(Saved(s.(rows := rows[k := rows[k].(port := -1)])))
    else Modified(s.(rows := rows[k := rows[k].(port := port)]))
  }

  // ----- Runs -----

  datatype Event = Performed(action: EditAction) | HostnameSet(row: nat, text: string) | PortSet(row: nat, port: int)

  function Step(s: State, e: Event): State {
    match e
    case Performed(action) => Perform(s, action)
    case HostnameSet(row, text) => SetHostname(s, row, text)
    case PortSet(row, port) => SetPort(s, row, port)
  }

  function Run(s: State, events: seq<Event>): State
    decreases |events|
  {
    if events == [] then s else Run(Step(s, events[0]), events[1..])
  }

  /** A new model has just been loaded. */
  function Created(hostname: string, property: string): State {
    Perform(State([], LOADING, property, 0), RELOAD(hostname))
  }

  /** The texts that have been loaded. */
  function Loaded(events: seq<Event>): set<string> {
    if events == [] then {}
    else
      Loaded(events[1..])
      + if events[0].Performed? && events[0].action.RELOAD? then {events[0].action.hostname} else {}
  }

  /** A model that is not modified holds what was loaded last, or prints what was saved last. */
  predicate InSync(s: State, loaded: set<string>) {
    && (s.edit == READY || s.edit == MODIFIED)
    && (s.edit == READY ==> Print(s.rows) == s.property || exists text :: text in loaded && s.rows == Parse(text))
  }

  lemma StepInSync(s: State, e: Event, loaded: set<string>)
    requires InSync(s, loaded)
    ensures InSync(Step(s, e), loaded + Loaded([e]))
  {
    hide Print, Parse, Cleanup;
    assert forall text :: text in loaded ==> text in loaded + Loaded([e]);
    match e
    case Performed(action) =>
      CleanupPrints(s.rows);
      if action.RELOAD? {
        assert Loaded([e]) == Loaded([]) + {action.hostname};
        assert action.hostname in loaded + Loaded([e]);
      }
    case HostnameSet(row, text) =>
    case PortSet(row, port) =>
  }

  /** Whatever the run, no temporary state stays behind and no edit is taken for synchronized. */
  lemma {:induction false} RunInSync(s: State, events: seq<Event>, loaded: set<string>)
    requires InSync(s, loaded)
    ensures InSync(Run(s, events), loaded + Loaded(events))
    decreases |events|
  {
    if events == [] {
      assert loaded + Loaded(events) == loaded;
    } else {
      hide InSync, Step;
      StepInSync(s, events[0], loaded);
      RunInSync(Step(s, events[0]), events[1..], loaded + Loaded([events[0]]));
      assert loaded + Loaded([events[0]]) + Loaded(events[1..]) == loaded + Loaded(events) by {
        assert [events[0]][1..] == [];
      }
    }
  }

  lemma EveryRunInSync(hostname: string, property: string, events: seq<Event>)
    ensures InSync(Run(Created(hostname, property), events), {hostname} + Loaded(events))
  {
    hide Parse, Print;
    assert hostname in {hostname};
    RunInSync(Created(hostname, property), events, {hostname});
  }

  /** An edit that changes what would be saved leaves the model modified. */
  lemma EditsAreNoticed(s: State, e: Event)
    requires s.edit == READY || s.edit == MODIFIED
    requires Print(Step(s, e).rows) != Print(s.rows)
    ensures Step(s, e).edit == MODIFIED || (e.Performed? && e.action.RELOAD?)
  {
    hide Print, Parse, Cleanup;
    CleanupPrints(s.rows);
  }

  /** Saving and loading the saved text back keeps the rows, as far as they are saved at all. */
  lemma SaveThenReload(s: State)
    requires s.edit == MODIFIED && AllClean(s.rows)
    ensures
      var t := Perform(s, SAVE);
      var u := Perform(t, RELOAD(t.property));
      && u.rows == Normal(s.rows) && (u.rows == s.rows <==> AllPrintable(s.rows))
      && u.edit == READY && Print(u.rows) == t.property && u.notified == s.notified
  {
    hide Print, Parse, Cleanup;
    ParsePrint(s.rows);
    RoundTripExactly(s.rows);
    PrintsAsNormal(s.rows);
  }

  lemma PrintsAsNormal(rows: seq<Line>)
    ensures Print(Normal(rows)) == Print(rows)
  {
    NormalPrints(rows);
  }

  // ----- What the account is told -----

  predicate Editable(s: State) {
    s.edit == READY || s.edit == MODIFIED
  }

  /** The servers after a reset are the given ones, or the default one, and a save tells the account so. */
  lemma ResetThenSave(s: State, servers: seq<Line>)
    requires Editable(s)
    ensures
      var wanted := if servers == [] then [Line("bootstrap.ring.cx", -1)] else servers;
      var t := Perform(s, RESET(servers));
      && t == State(wanted, MODIFIED, s.property, s.notified + 1)
      && Perform(t, SAVE).property == Print(wanted) && Perform(t, SAVE).edit == READY
  {
  }

  /** Clearing and saving tells the account that there are no servers. */
  lemma ClearThenSave(s: State)
    requires Editable(s)
    ensures
      var t := Perform(Perform(s, CLEAR), SAVE);
      t.rows == [] && t.property == "" && t.edit == READY
  {
  }

  /** The rows with one of them written, or a new one behind them. */
  function Written(rows: seq<Line>, row: nat, line: Line): seq<Line> {
    if row < |rows| then rows[row := line] else rows + [line]
  }

  /** A host name is told to the account at once; a port only if it is out of range. */
  lemma EditsAreTold(s: State, row: nat, text: string, port: int)
    requires Editable(s)
    ensures
      var was := if row < |s.rows| then s.rows[row] else Line("", -1);
      var named := Written(s.rows, row, Line(text, was.port));
      var h, p := SetHostname(s, row, text), SetPort(s, row, port);
      && h == State(Cleanup(named), MODIFIED, Print(named), s.notified + 1)
      && if 0 < port < 65535
         then p.rows == Written(s.rows, row, Line(was.hostname, port)) && p.property == s.property && p.edit == MODIFIED
         else
           var reset := Written(s.rows, row, Line(was.hostname, -1));
           p == State(Cleanup(reset), MODIFIED, Print(reset), s.notified + 1)
  {
    hide Print, Cleanup;
    assert row >= |s.rows| ==> forall l :: (s.rows + [Line("", -1)])[|s.rows| := l] == s.rows + [l];
  }

  /** Reloading drops what was not saved. */
  lemma ReloadDropsEdits(s: State, hostname: string)
    requires Editable(s)
    ensures Perform(s, RELOAD(hostname)) == State(Parse(hostname), READY, s.property, s.notified)
  {
  }
}

/** The bootstrap servers of an account, edited in place. */
module BootstrapModels {
  import opened Lists
  import opened BootstrapText
  import R = BootstrapRuns

  class Entry {
    var hostname: string
    var port: int

    constructor (hostname: string, port: int)
      ensures this.hostname == hostname && this.port == port
    {
      this.hostname, this.port := hostname, port;
    }

    function Value(): Line
      reads this
    {
      Line(hostname, port)
    }
  }

  /** The row objects are distinct, so a row can be found again by its address. */
  class BootstrapModel {
    var lines: seq<Entry>
    var editState: R.EditState
    var property: string
    var notified: nat

    static ghost function Values(lines: seq<Entry>): (rows: seq<Line>)
      reads lines
      ensures |rows| == |lines| && forall i :: 0 <= i < |lines| ==> rows[i] == lines[i].Value()
    {
      seq(|lines|, i requires 0 <= i < |lines| reads lines => lines[i].Value())
    }

    ghost function Rows(): (rows: seq<Line>)
      reads this`lines, lines
      ensures |rows| == |lines|
    {
      Values(lines)
    }

    ghost function State(): R.State
      reads this, lines
    {
      R.State(Rows(), editState, property, notified)
    }

    ghost predicate Valid()
      reads this`lines
    {
      NoDup(lines)
    }

    /** The row objects that were not listed before are new. */
    twostate predicate OldOrFresh()
      reads this`lines
    {
      forall i :: 0 <= i < |lines| ==> lines[i] in old(lines) || fresh(lines[i])
    }

    constructor (hostname: string, property: string)
      ensures Valid() && fresh(lines) && State() == R.Created(hostname, property)
    {
      lines, editState, this.property, notified := [], R.LOADING, property, 0;
      new;
      assert State() == R.State([], R.LOADING, property, 0);
      PerformAction(R.RELOAD(hostname));
    }

    method Save()
      requires Valid()
      modifies this`lines, this`editState, this`property
      ensures Valid() && State() == R.Saved(old(State())) && forall l :: l in lines ==> l in old(lines)
    {
      hide Print, ShowLine, Shown, Cleanup;
      PrintLines();
      CleanLines();
      editState := R.READY;
    }

    /** The text form of the rows becomes the host name property of the account. */
    method PrintLines()
      modifies this`property
      ensures property == Print(Rows())
    {
      hide Trim;
      var ret := "";
      for i := 0 to |lines|
        invariant ret == Print(Rows()[..i])
      {
        hide Print, ShowLines, Join, Rows;
        var line := lines[i].Value();
        PrintSnoc(Rows()[..i], line);
        assert Rows()[..i] + [line] == Rows()[..i + 1];
        if Trim(line.hostname) != "" {
          if ret != "" {
            ret := ret + ";";
          }
          ret := ret + ShowLine(line);
        }
      }
      assert Rows()[..|lines|] == Rows();
      property := ret;
    }

    method RemoveLine(l: Entry, ghost i: nat)
      requires Valid() && i < |lines| && lines[i] == l
      modifies this`lines
      ensures Valid() && lines == old(lines)[..i] + old(lines)[i + 1..]
      ensures Rows() == old(Rows())[..i] + old(Rows())[i + 1..]
    {
      var at := IndexOf(lines, l);
      lines := lines[..at] + lines[at + 1..];
    }

    method AppendLine(hostname: string, port: int)
      requires Valid()
      modifies this`lines
      ensures Valid() && |lines| > 0 && lines[..|lines| - 1] == old(lines) && fresh(lines[|lines| - 1])
      ensures Rows() == old(Rows()) + [Line(hostname, port)]
    {
      var l := new Entry(hostname, port);
      lines := lines + [l];
    }

    /** The index moves on after a removal, so the row behind a removed one is not looked at. */
    method CleanLines()
      requires Valid()
      modifies this`lines
      ensures Valid() && Rows() == Cleanup(old(Rows())) && forall l :: l in lines ==> l in old(lines)
    {
      ghost var all := Rows();
      var i := 0;
      while i < |lines|
        invariant 0 <= i && Valid() && forall l :: l in lines ==> l in old(lines)
        invariant if i <= |lines| then Rows()[..i] + Cleanup(Rows()[i..]) == Cleanup(all) else Rows() == Cleanup(all)
      {
        hide Rows, Cleanup;
        ghost var rows := Rows();
        CleanupStep(rows, i);
        var l := lines[i];
        if l.hostname == "" && l.port == -1 {
          RemoveLine(l, i);
        }
        i := i + 1;
      }
      assert i == |lines| ==> Rows()[i..] == [] && Rows()[..i] == Rows();
    }

    method Modify()
      modifies this`editState, this`notified
      ensures editState == R.MODIFIED && notified == old(notified) + 1
    {
      editState := R.MODIFIED;
      notified := notified + 1;
    }

    /** The MODIFY action. */
    method PerformModify()
      modifies this`editState, this`notified
      ensures State() == R.Modified(old(State()))
    {
      hide Rows;
      if R.HandlerOf(editState, R.MODIFY) == R.Modify {
        Modify();
      }
    }

    /** One field of the text, unless there is nothing in it. */
    method AppendParsed(text: string)
      requires Valid()
      modifies this`lines
      ensures Valid() && OldOrFresh()
      ensures Rows() == old(Rows()) + ParseLine(text)
    {
      hide Rows, Split, Trim, ToInt;
      var fields := Split(text, ':');
      if text != "" && !(fields[0] == "" && |fields| > 1 && fields[1] == "") {
        AppendLine(Trim(fields[0]), if |fields| > 1 then ToInt(fields[1]) else -1);
        assert forall i :: 0 <= i < |lines| - 1 ==> lines[i] == lines[..|lines| - 1][i];
      }
    }

    method AppendAll(texts: seq<string>)
      requires Valid()
      modifies this`lines
      ensures Valid() && OldOrFresh()
      ensures Rows() == old(Rows()) + ParseLines(texts)
    {
      hide Rows, Valid, ParseLine, ParseLines;
      ParseNoLines();
      for i := 0 to |texts|
        invariant Valid() && OldOrFresh()
        invariant Rows() + ParseLines(texts[i..]) == old(Rows()) + ParseLines(texts)
      {
        ghost var rows, line, rest := Rows(), ParseLine(texts[i]), ParseLines(texts[i + 1..]);
        ParseLinesStep(texts, i);
        AppendParsed(texts[i]);
        assert rows + (line + rest) == (rows + line) + rest;
      }
      assert texts[|texts|..] == [];
    }

    method Reload(hostname: string)
      modifies this`lines, this`editState
      ensures Valid() && fresh(lines) && State() == old(State()).(rows := Parse(hostname), edit := R.READY)
    {
      hide ParseLines;
      editState := R.RELOADING;
      lines := [];
      AppendAll(Split(hostname, ';'));
      editState := R.READY;
    }

    method Clear()
      modifies this`lines, this`editState, this`notified
      ensures lines == [] && State() == R.Modified(old(State()).(rows := []))
    {
      lines := [];
      assert State() == old(State()).(rows := []);
      PerformModify();
    }

    /** The servers are those of the bootstrap files. */
    method Reset(servers: seq<Line>)
      modifies this`lines, this`editState, this`notified
      ensures Valid() && fresh(lines)
      ensures State() == R.Modified(old(State()).(rows := R.Servers(servers), edit := R.RESETING))
    {
      editState := R.RESETING;
      lines := [];
      for i := 0 to |servers|
        invariant editState == R.RESETING && notified == old(notified)
        invariant Valid() && fresh(lines) && Rows() == servers[..i]
      {
        hide Rows;
        AppendLine(servers[i].hostname, servers[i].port);
      }
      if servers == [] {
        AppendLine(R.DEFAULT_SERVER.hostname, R.DEFAULT_SERVER.port);
      }
      assert State() == old(State()).(rows := R.Servers(servers), edit := R.RESETING);
      PerformModify();
    }

    method PerformAction(action: R.EditAction)
      requires Valid()
      modifies this
      ensures Valid() && State() == R.Perform(old(State()), action)
      ensures fresh(set l | l in lines && l !in old(lines))
    {
      hide Rows, R.Saved, R.Modified, Parse, R.Servers;
      match R.HandlerOf(editState, action)
      case Nothing =>
      case Save => Save();
      case Modify => PerformModify();
      case Reload => Reload(action.hostname);
      case Clear => Clear();
      case Reset => Reset(action.servers);
    }

    /** The entry that is edited; editing behind the last row creates one. */
    method EntryAt(row: nat) returns (l: Entry)
      requires Valid()
      modifies this`lines
      ensures Valid() && Rows() == R.WithRow(old(Rows()), row)
      ensures l == lines[R.RowAt(old(Rows()), row)] && (l in old(lines) || fresh(l))
      ensures OldOrFresh()
    {
      if row < |lines| {
        l := lines[row];
      } else {
        l := new Entry("", -1);
        lines := lines + [l];
      }
    }

    method SetHostname(row: nat, text: string)
      requires Valid()
      modifies this, lines
      ensures Valid() && State() == R.SetHostname(old(State()), row, text)
    {
      hide R.Saved, R.Modified, R.WithRow;
      var l := EntryAt(row);
      ghost var rows := Rows();
      l.hostname := text;
      assert Rows() == rows[R.RowAt(old(Rows()), row) := rows[R.RowAt(old(Rows()), row)].(hostname := text)];
      Save();
      PerformModify();
    }

    method SetPort(row: nat, port: int)
      requires Valid()
      modifies this, lines
      ensures Valid() && State() == R.SetPort(old(State()), row, port)
    {
      hide R.Saved, R.Modified, R.WithRow;
      var l := EntryAt(row);
      ghost var rows := Rows();
      ghost var k := R.RowAt(old(Rows()), row);
      l.port := port;
      if l.port <= 0 || l.port > 65534 {
        l.port := -1;
        assert Rows() == rows[k := rows[k].(port := -1)];
        Save();
      } else {
        assert Rows() == rows[k := rows[k].(port := port)];
      }
      PerformModify();
    }
  }
}
