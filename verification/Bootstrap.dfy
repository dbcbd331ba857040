/** The text form of a list of bootstrap servers: `host:port;host:port`. */
module BootstrapText {
  import opened Lists

  /** A port of -1 stands for the default one. */
  datatype Line = Line(hostname: string, port: int)

  const MIN_INT := -0x8000_0000
  const MAX_INT := 0x7FFF_FFFF

  // ----- Strings -----

  /** White space as Unicode defines it. */
  predicate IsSpace(c: char) {
    || c == ' ' || '\t' <= c <= '\r' || c == '\U{85}' || c == '\U{A0}' || c == '\U{1680}'
    || '\U{2000}' <= c <= '\U{200A}' || c == '\U{2028}' || c == '\U{2029}' || c == '\U{202F}'
    || c == '\U{205F}' || c == '\U{3000}'
  }

  function TrimStart(s: string): (r: string)
    ensures r != "" ==> !IsSpace(r[0])
    ensures forall c :: c in r ==> c in s
  {
    if s != "" && IsSpace(s[0]) then TrimStart(s[1..]) else s
  }

  function TrimEnd(s: string): (r: string)
    ensures r != "" ==> !IsSpace(r[|r| - 1]) && s != "" && r[0] == s[0]
    ensures forall c :: c in r ==> c in s
  {
    if s != "" && IsSpace(s[|s| - 1]) then TrimEnd(s[..|s| - 1]) else s
  }

  function Trim(s: string): string {
    TrimEnd(TrimStart(s))
  }

  predicate Trimmed(s: string) {
    s != "" ==> !IsSpace(s[0]) && !IsSpace(s[|s| - 1])
  }

  /** Trimming gives a trimmed string, and leaves one alone. */
  lemma TrimOnce(s: string)
    ensures Trimmed(Trim(s)) && Trim(Trim(s)) == Trim(s)
    ensures Trimmed(s) ==> Trim(s) == s
  {
    var t := TrimStart(s);
    var r := TrimEnd(t);
    assert r != "" ==> t != "" && r[0] == t[0];
  }

  function Split(s: string, sep: char): (parts: seq<string>)
    ensures |parts| >= 1
  {
    if s == "" then [""]
    else
      var rest := Split(s[1..], sep);
      if s[0] == sep then [""] + rest else [[s[0]] + rest[0]] + rest[1..]
  }

  function Join(parts: seq<string>, sep: char): string {
    if parts == [] then ""
    else if |parts| == 1 then parts[0]
    else parts[0] + [sep] + Join(parts[1..], sep)
  }

  predicate Lacks(s: string, sep: char) {
    forall i :: 0 <= i < |s| ==> s[i] != sep
  }

  lemma {:induction false} SplitWhole(s: string, sep: char)
    requires Lacks(s, sep)
    ensures Split(s, sep) == [s]
  {
    if s != "" {
      SplitWhole(s[1..], sep);
      assert [s[0]] + s[1..] == s;
    }
  }

  lemma {:induction false} SplitAppend(s: string, rest: string, sep: char)
    requires Lacks(s, sep)
    ensures Split(s + [sep] + rest, sep) == [s] + Split(rest, sep)
  {
    var whole := s + [sep] + rest;
    if s == "" {
      assert whole[1..] == rest;
    } else {
      assert whole[1..] == s[1..] + [sep] + rest;
      SplitAppend(s[1..], rest, sep);
      assert [s[0]] + s[1..] == s;
    }
  }

  lemma {:induction false} SplitJoin(parts: seq<string>, sep: char)
    requires parts != [] && forall i :: 0 <= i < |parts| ==> Lacks(parts[i], sep)
    ensures Split(Join(parts, sep), sep) == parts
  {
    if |parts| == 1 {
      SplitWhole(parts[0], sep);
    } else {
      SplitJoin(parts[1..], sep);
      SplitAppend(parts[0], Join(parts[1..], sep), sep);
    }
  }

  /** No part contains the separator, and every character comes from the whole. */
  lemma {:induction false} SplitParts(s: string, sep: char)
    ensures forall i :: 0 <= i < |Split(s, sep)| ==>
              Lacks(Split(s, sep)[i], sep) && forall c :: c in Split(s, sep)[i] ==> c in s
  {
    if s != "" {
      SplitParts(s[1..], sep);
    }
  }

  lemma {:induction false} JoinSnoc(parts: seq<string>, last: string, sep: char)
    ensures Join(parts + [last], sep) == if parts == [] then last else Join(parts, sep) + [sep] + last
  {
    if parts == [] {
      assert parts + [last] == [last];
    } else {
      JoinSnoc(parts[1..], last, sep);
      assert (parts + [last])[1..] == parts[1..] + [last];
    }
  }

  lemma JoinEmpty(parts: seq<string>, sep: char)
    requires forall i :: 0 <= i < |parts| ==> parts[i] != ""
    ensures Join(parts, sep) == "" <==> parts == []
  {
  }

  // ----- Numbers -----

  predicate IsDigit(c: char) {
    '0' <= c <= '9'
  }

  predicate Digits(s: string) {
    forall i :: 0 <= i < |s| ==> IsDigit(s[i])
  }

  function ShowNumber(n: nat): (s: string)
    ensures s != "" && Digits(s)
  {
    var digit := [('0' as int + n % 10) as char];
    if n < 10 then digit else ShowNumber(n / 10) + digit
  }

  function NumberOf(s: string): nat
    requires Digits(s)
  {
    if s == "" then 0 else NumberOf(s[..|s| - 1]) * 10 + (s[|s| - 1] as int - '0' as int)
  }

  lemma {:induction false} NumberReadsBack(n: nat)
    ensures NumberOf(ShowNumber(n)) == n
  {
    var s := ShowNumber(n);
    if n >= 10 {
      NumberReadsBack(n / 10);
      assert s[..|s| - 1] == ShowNumber(n / 10);
    }
  }

  /** A 32-bit integer in decimal, with white space around it and a sign; anything else reads as 0. */
  function ToInt(s: string): (n: int)
    ensures MIN_INT <= n <= MAX_INT
  {
    var t := Trim(s);
    var signed := t != "" && (t[0] == '-' || t[0] == '+');
    var digits := if signed then t[1..] else t;
    if digits == "" || !Digits(digits) then 0
    else
      var n: int := NumberOf(digits) * if signed && t[0] == '-' then -1 else 1;
      if MIN_INT <= n <= MAX_INT then n else 0
  }

  lemma ToIntReadsBack(n: nat)
    requires n <= MAX_INT
    ensures ToInt(ShowNumber(n)) == n
  {
    NumberReadsBack(n);
    var s := ShowNumber(n);
    assert IsDigit(s[0]) && IsDigit(s[|s| - 1]);
    TrimOnce(s);
  }

  // ----- Printing -----

  predicate Shown(row: Line) {
    Trim(row.hostname) != ""
  }

  function ShowLine(row: Line): string {
    row.hostname + if row.port > -1 then ":" + ShowNumber(row.port) else ""
  }

  /** Rows with a blank host name are not printed. */
  function ShowRow(row: Line): seq<string> {
    if Shown(row) then [ShowLine(row)] else []
  }

  function ShowLines(rows: seq<Line>): seq<string> {
    if rows == [] then [] else ShowRow(rows[0]) + ShowLines(rows[1..])
  }

  function Print(rows: seq<Line>): string {
    Join(ShowLines(rows), ';')
  }

  lemma {:induction false} ShowLinesAppend(a: seq<Line>, b: seq<Line>)
    ensures ShowLines(a + b) == ShowLines(a) + ShowLines(b)
  {
    if a == [] {
      assert a + b == b;
    } else {
      hide ShowRow;
      ShowLinesAppend(a[1..], b);
      assert (a + b)[1..] == a[1..] + b;
      Assoc(ShowRow(a[0]), ShowLines(a[1..]), ShowLines(b));
    }
  }

  lemma {:induction false} ShowLinesNonEmpty(rows: seq<Line>)
    ensures forall i :: 0 <= i < |ShowLines(rows)| ==> ShowLines(rows)[i] != ""
  {
    if rows != [] {
      ShowLinesNonEmpty(rows[1..]);
    }
  }

  /** What printing one more row adds to the text. */
  lemma PrintSnoc(rows: seq<Line>, row: Line)
    ensures
      Print(rows + [row]) ==
      if !Shown(row) then Print(rows)
      else if Print(rows) == "" then ShowLine(row) else Print(rows) + ";" + ShowLine(row)
  {
    ShowLinesAppend(rows, [row]);
    ShowLinesNonEmpty(rows);
    JoinEmpty(ShowLines(rows), ';');
    if Shown(row) {
      assert ShowLines([row]) == [ShowLine(row)];
      JoinSnoc(ShowLines(rows), ShowLine(row), ';');
    } else {
      assert ShowLines(rows) + [] == ShowLines(rows);
    }
  }

  // ----- Parsing -----

  /** No row for an empty text, or for nothing on both sides of the colon. */
  function ParseLine(text: string): seq<Line> {
    var fields := Split(text, ':');
    if text != "" && !(fields[0] == "" && |fields| > 1 && fields[1] == "") then
      [Line(Trim(fields[0]), if |fields| > 1 then ToInt(fields[1]) else -1)]
    else []
  }

  function ParseLines(texts: seq<string>): seq<Line> {
    if texts == [] then [] else ParseLine(texts[0]) + ParseLines(texts[1..])
  }

  lemma ParseNoLines()
    ensures ParseLines([]) == []
  {
  }

  lemma ParseLinesStep(texts: seq<string>, i: nat)
    requires i < |texts|
    ensures ParseLines(texts[i..]) == ParseLine(texts[i]) + ParseLines(texts[i + 1..])
  {
    hide ParseLine;
    assert texts[i..][0] == texts[i] && texts[i..][1..] == texts[i + 1..];
  }

  function Parse(text: string): seq<Line> {
    ParseLines(Split(text, ';'))
  }

  // ----- Round trips -----

  predicate Separators(s: string) {
    Lacks(s, ';') && Lacks(s, ':')
  }

  /** Rows as parsing makes them. */
  predicate Clean(row: Line) {
    Trimmed(row.hostname) && Separators(row.hostname) && MIN_INT <= row.port <= MAX_INT
  }

  /** Rows that survive printing and parsing. */
  predicate Printable(row: Line) {
    Clean(row) && row.hostname != "" && row.port >= -1
  }

  ghost predicate AllClean(rows: seq<Line>) {
    forall i :: 0 <= i < |rows| ==> Clean(rows[i])
  }

  ghost predicate AllPrintable(rows: seq<Line>) {
    forall i :: 0 <= i < |rows| ==> Printable(rows[i])
  }

  lemma ParseLineClean(text: string)
    requires Lacks(text, ';')
    ensures AllClean(ParseLine(text))
  {
    SplitParts(text, ':');
    var host := Split(text, ':')[0];
    TrimOnce(host);
    forall i | 0 <= i < |Trim(host)| ensures Trim(host)[i] != ';' && Trim(host)[i] != ':' {
      assert Trim(host)[i] in host && Trim(host)[i] in text;
    }
  }

  lemma {:induction false} ParseLinesClean(texts: seq<string>)
    requires forall i :: 0 <= i < |texts| ==> Lacks(texts[i], ';')
    ensures AllClean(ParseLines(texts))
  {
    if texts != [] {
      ParseLineClean(texts[0]);
      ParseLinesClean(texts[1..]);
    }
  }

  lemma ParseClean(text: string)
    ensures AllClean(Parse(text))
  {
    SplitParts(text, ';');
    ParseLinesClean(Split(text, ';'));
  }

  /** What is left of rows that have been printed and parsed. */
  function Normal(rows: seq<Line>): seq<Line> {
    if rows == [] then [] else NormalRow(rows[0]) + Normal(rows[1..])
  }

  function NormalRow(row: Line): seq<Line> {
    if Shown(row) then [Line(row.hostname, if row.port > -1 then row.port else -1)] else []
  }

  lemma ShowNumberPlain(n: nat)
    ensures Separators(ShowNumber(n))
  {
    var s := ShowNumber(n);
    forall i | 0 <= i < |s| ensures s[i] != ';' && s[i] != ':' {
      assert IsDigit(s[i]);
    }
  }

  lemma ParseShowLine(row: Line)
    requires Clean(row) && Shown(row)
    ensures Lacks(ShowLine(row), ';')
    ensures ParseLine(ShowLine(row)) == NormalRow(row)
  {
    TrimOnce(row.hostname);
    if row.port > -1 {
      var digits := ShowNumber(row.port);
      ShowNumberPlain(row.port);
      ToIntReadsBack(row.port);
      SplitWhole(digits, ':');
      SplitAppend(row.hostname, digits, ':');
      assert ShowLine(row) == row.hostname + [':'] + digits;
    } else {
      SplitWhole(row.hostname, ':');
      assert ShowLine(row) == row.hostname;
    }
  }

  lemma {:induction false} ParseShowLines(rows: seq<Line>)
    requires AllClean(rows)
    ensures forall i :: 0 <= i < |ShowLines(rows)| ==> Lacks(ShowLines(rows)[i], ';')
    ensures ParseLines(ShowLines(rows)) == Normal(rows)
  {
    if rows != [] {
      hide ParseLine, ShowLine, Clean, Lacks;
      ParseShowLines(rows[1..]);
      var rest := ShowLines(rows[1..]);
      if Shown(rows[0]) {
        ParseShowLine(rows[0]);
        assert ([ShowLine(rows[0])] + rest)[1..] == rest;
      } else {
        assert [] + rest == rest;
        assert [] + Normal(rows[1..]) == Normal(rows[1..]);
      }
    }
  }

  /** Parsing undoes printing, up to rows that are not printed and ports below -1. */
  lemma ParsePrint(rows: seq<Line>)
    requires AllClean(rows)
    ensures Parse(Print(rows)) == Normal(rows)
  {
    ParseShowLines(rows);
    var lines := ShowLines(rows);
    if lines == [] {
      assert Split("", ';') == [""];
      assert ParseLines([""]) == ParseLine("") + ParseLines([]);
    } else {
      SplitJoin(lines, ';');
    }
  }

  lemma {:induction false} NormalOfPrintable(rows: seq<Line>)
    requires AllClean(rows)
    ensures Normal(rows) == rows <==> AllPrintable(rows)
    ensures |Normal(rows)| <= |rows|
  {
    if rows != [] {
      NormalOfPrintable(rows[1..]);
      TrimOnce(rows[0].hostname);
      assert rows == [rows[0]] + rows[1..];
      if Shown(rows[0]) {
        assert Normal(rows)[1..] == Normal(rows[1..]);
      }
    }
  }

  /** Exactly the printable rows come back as they were. */
  lemma RoundTripExactly(rows: seq<Line>)
    ensures Parse(Print(rows)) == rows <==> AllPrintable(rows)
  {
    if Parse(Print(rows)) == rows {
      ParseClean(Print(rows));
    }
    if AllClean(rows) {
      ParsePrint(rows);
      NormalOfPrintable(rows);
    }
  }

  lemma {:induction false} NormalPrints(rows: seq<Line>)
    ensures ShowLines(Normal(rows)) == ShowLines(rows)
  {
    if rows != [] {
      hide NormalRow, ShowRow;
      NormalPrints(rows[1..]);
      NormalRowPrints(rows[0]);
      ShowLinesAppend(NormalRow(rows[0]), Normal(rows[1..]));
    }
  }

  lemma NormalRowPrints(row: Line)
    ensures ShowLines(NormalRow(row)) == ShowRow(row)
  {
    if Shown(row) {
      assert ShowLines(NormalRow(row)) == ShowRow(NormalRow(row)[0]) + [];
    }
  }

  /** Whatever the text, parsing and printing it a second time changes nothing. */
  lemma PrintParseIdempotent(text: string)
    ensures Print(Parse(Print(Parse(text)))) == Print(Parse(text))
    ensures Parse(Print(Parse(Print(Parse(text))))) == Parse(Print(Parse(text)))
  {
    var rows := Parse(text);
    ParseClean(text);
    ParsePrint(rows);
    NormalPrints(rows);
  }

  // ----- Cleaning up after a save -----

  predicate Blank(row: Line) {
    row.hostname == "" && row.port == -1
  }

  /** Blank rows are removed one by one; the row that moves into the place of a removed one is skipped. */
  function Cleanup(rows: seq<Line>): seq<Line> {
    if rows == [] then []
    else if !Blank(rows[0]) then [rows[0]] + Cleanup(rows[1..])
    else if |rows| == 1 then []
    else [rows[1]] + Cleanup(rows[2..])
  }

  /** One round of the loop that removes blank rows. */
  lemma CleanupStep(rows: seq<Line>, i: nat)
    requires i < |rows|
    ensures
      var rest := rows[..i] + rows[i + 1..];
      rows[..i] + Cleanup(rows[i..]) ==
      if !Blank(rows[i]) then rows[..i + 1] + Cleanup(rows[i + 1..])
      else if i < |rest| then rest[..i + 1] + Cleanup(rest[i + 1..])
      else rest
  {
    var rest := rows[..i] + rows[i + 1..];
    if !Blank(rows[i]) {
      assert rows[i..][1..] == rows[i + 1..];
    } else if i < |rest| {
      assert rows[i..][2..] == rest[i + 1..];
      assert rest[..i + 1] == rows[..i] + [rows[i + 1]];
    }
  }

  lemma {:induction false} CleanupShows(rows: seq<Line>)
    ensures ShowLines(Cleanup(rows)) == ShowLines(rows)
  {
    if rows == [] {
    } else if !Blank(rows[0]) {
      CleanupShows(rows[1..]);
      assert Cleanup(rows)[1..] == Cleanup(rows[1..]);
    } else if |rows| > 1 {
      CleanupShows(rows[2..]);
      assert Cleanup(rows)[1..] == Cleanup(rows[2..]);
      assert rows[1..][1..] == rows[2..];
    }
  }

  /** Cleaning up never changes what is saved. */
  lemma CleanupPrints(rows: seq<Line>)
    ensures Print(Cleanup(rows)) == Print(rows)
  {
    CleanupShows(rows);
  }

  ghost predicate NoBlank(rows: seq<Line>) {
    forall i :: 0 <= i < |rows| ==> !Blank(rows[i])
  }

  predicate NoTwoBlanks(rows: seq<Line>) {
    |rows| <= 1 || (!(Blank(rows[0]) && Blank(rows[1])) && NoTwoBlanks(rows[1..]))
  }

  lemma NoBlankSplit(row: Line, rest: seq<Line>)
    ensures NoBlank([row] + rest) <==> !Blank(row) && NoBlank(rest)
  {
    var all := [row] + rest;
    assert all[1..] == rest && all[0] == row;
    assert forall i :: 0 <= i < |rest| ==> rest[i] == all[i + 1];
  }

  /** Every blank row goes exactly when no two of them are adjacent. */
  lemma {:induction false} CleanupComplete(rows: seq<Line>)
    ensures NoBlank(Cleanup(rows)) <==> NoTwoBlanks(rows)
  {
    if |rows| <= 1 {
    } else if !Blank(rows[0]) {
      CleanupComplete(rows[1..]);
      NoBlankSplit(rows[0], Cleanup(rows[1..]));
    } else {
      CleanupComplete(rows[2..]);
      NoBlankSplit(rows[1], Cleanup(rows[2..]));
      assert rows[1..][1..] == rows[2..];
    }
  }
}
