/** `parseCsv` and its quoted-cell reader, against tables printed as section 2 of RFC 4180 allows. */
module RunnerCsv {
  import opened Text

  // ----- Reading -----

  /** The cells from here on: `current` is the cell being read, `quoted` whether inside quotes. */
  function Scan(s: string, current: string, quoted: bool): seq<string> {
    if s == "" then [current]
    else if s[0] == '"' then
      if quoted && |s| > 1 && s[1] == '"' then Scan(s[2..], current + "\"", quoted)
      else Scan(s[1..], current, !quoted)
    else if s[0] == ',' && !quoted then [current] + Scan(s[1..], "", quoted)
    else Scan(s[1..], current + [s[0]], quoted)
  }

  /** The loop of `cells`. */
  method Cells(line: string) returns (out: seq<string>)
    ensures out == Scan(line, "", false)
  {
    out := [];
    var current, quoted, i := "", false, 0;
    while i < |line|
      invariant 0 <= i <= |line|
      invariant out + Scan(line[i..], current, quoted) == Scan(line, "", false)
    {
      var c := line[i];
      var rest := line[i..];
      assert rest[1..] == line[i + 1..];
      if c == '"' {
        if quoted && i + 1 < |line| && line[i + 1] == '"' {
          assert rest[2..] == line[i + 2..];
          current := current + "\"";
          i := i + 1;
        } else {
          quoted := !quoted;
        }
      } else if c == ',' && !quoted {
        out := out + [current];
        current := "";
      } else {
        current := current + [c];
      }
      i := i + 1;
    }
    assert line[|line|..] == "";
    out := out + [current];
  }

  function Filter<T>(s: seq<T>, keep: T -> bool): seq<T> {
    if s == [] then []
    else Filter(s[..|s| - 1], keep) + if keep(s[|s| - 1]) then [s[|s| - 1]] else []
  }

  predicate HasText(line: string) {
    Trim(line) != ""
  }

  type Record = map<string, string>

  /** Property names: the header, or a column number beyond it. */
  function Key(header: seq<string>, i: nat, column: nat -> string): string {
    if i < |header| then header[i] else column(i)
  }

  /** `Object.fromEntries`: the last of equal keys wins. */
  function FromEntries(header: seq<string>, cells: seq<string>, column: nat -> string): Record {
    if cells == [] then map[]
    else
      var n := |cells| - 1;
      FromEntries(header, cells[..n], column)[Key(header, n, column) := cells[n]]
  }

  const MAX_ROWS := 5000

  function ParseLines(lines: seq<string>, column: nat -> string): seq<Record> {
    if lines == [] then []
    else
      var header := Scan(lines[0], "", false);
      var rows := if |lines| <= MAX_ROWS + 1 then lines[1..] else lines[1..MAX_ROWS + 1];
      seq(|rows|, i requires 0 <= i < |rows| => FromEntries(header, Scan(rows[i], "", false), column))
  }

  function ParseCsv(text: string, column: nat -> string): seq<Record> {
    ParseLines(Filter(Lines(text), HasText), column)
  }

  // ----- Printing -----

  /** A field and whether it is printed in quotes. */
  datatype Field = Field(value: string, quoted: bool)

  /** A bare field has no quote, comma or line break in it. */
  predicate Printable(f: Field) {
    '\n' !in f.value && (!f.quoted ==> '"' !in f.value && ',' !in f.value && '\r' !in f.value)
  }

  function PrintField(f: Field): string {
    if f.quoted then "\"" + Doubled(f.value, '"') + "\"" else f.value
  }

  function PrintRow(row: seq<Field>): string {
    if row == [] then ""
    else if |row| == 1 then PrintField(row[0])
    else PrintField(row[0]) + "," + PrintRow(row[1..])
  }

  function Values(row: seq<Field>): seq<string> {
    seq(|row|, i requires 0 <= i < |row| => row[i].value)
  }

  // ----- A printed row reads back -----

  lemma {:induction false} ScanQuoted(value: string, current: string, rest: string)
    requires rest == "" || rest[0] != '"'
    ensures Scan(Doubled(value, '"') + "\"" + rest, current, true) == Scan(rest, current + value, false)
  {
    var s := Doubled(value, '"') + "\"" + rest;
    if value == "" {
      assert s[1..] == rest && current + "" == current;
    } else {
      var tail := Doubled(value[1..], '"') + "\"" + rest;
      ScanQuoted(value[1..], current + [value[0]], rest);
      assert current + [value[0]] + value[1..] == current + value;
      if value[0] == '"' {
        assert s == "\"\"" + tail && s[2..] == tail;
      } else {
        assert s == [value[0]] + tail && s[1..] == tail;
      }
    }
  }

  lemma {:induction false} ScanBare(value: string, current: string, rest: string)
    requires '"' !in value && ',' !in value
    ensures Scan(value + rest, current, false) == Scan(rest, current + value, false)
  {
    if value == "" {
      assert value + rest == rest && current + "" == current;
    } else {
      assert value[0] in value;
      assert (value + rest)[1..] == value[1..] + rest;
      ScanBare(value[1..], current + [value[0]], rest);
      assert current + [value[0]] + value[1..] == current + value;
    }
  }

  lemma ScanField(f: Field, rest: string)
    requires Printable(f) && (rest == "" || rest[0] == ',')
    ensures Scan(PrintField(f) + rest, "", false) == [f.value] + if rest == "" then [] else Scan(rest[1..], "", false)
  {
    assert "" + f.value == f.value;
    if f.quoted {
      assert (PrintField(f) + rest)[1..] == Doubled(f.value, '"') + "\"" + rest;
      ScanQuoted(f.value, "", rest);
    } else {
      ScanBare(f.value, "", rest);
    }
  }

  lemma ScanFirstField(f: Field, tail: string)
    requires Printable(f)
    ensures Scan(PrintField(f) + "," + tail, "", false) == [f.value] + Scan(tail, "", false)
  {
    ScanField(f, "," + tail);
    assert PrintField(f) + "," + tail == PrintField(f) + ("," + tail);
    assert ("," + tail)[1..] == tail;
  }

  lemma ScanLastField(f: Field)
    requires Printable(f)
    ensures Scan(PrintField(f), "", false) == [f.value]
  {
    ScanField(f, "");
    assert PrintField(f) + "" == PrintField(f);
  }

  /** The cell reader inverts every printing of a row, quoted or bare field by field. */
  lemma {:induction false} RowReadsBack(row: seq<Field>)
    requires row != [] && forall f | f in row :: Printable(f)
    ensures Scan(PrintRow(row), "", false) == Values(row)
  {
    assert row[0] in row;
    if |row| == 1 {
      ScanLastField(row[0]);
    } else {
      assert forall f | f in row[1..] :: f in row;
      RowReadsBack(row[1..]);
      ScanFirstField(row[0], PrintRow(row[1..]));
      assert Values(row) == [row[0].value] + Values(row[1..]);
    }
  }

  // ----- A printed table reads back -----

  /** Lines ended by a line feed or a carriage return and line feed; the last may be left open. */
  function PrintLines(lines: seq<string>, crlf: bool, closed: bool): string {
    if lines == [] then ""
    else if |lines| == 1 && !closed then lines[0]
    else lines[0] + (if crlf then "\r\n" else "\n") + PrintLines(lines[1..], crlf, closed)
  }

  predicate CleanLine(line: string) {
    '\n' !in line && (line != "" ==> line[|line| - 1] != '\r')
  }

  lemma StripStep(first: string, parts: seq<string>)
    requires parts != []
    ensures StripBreaks([first] + parts) == [WithoutCr(first)] + StripBreaks(parts)
  {}

  lemma LinesStep(line: string, rest: string, crlf: bool)
    requires CleanLine(line)
    ensures Lines(line + (if crlf then "\r\n" else "\n") + rest) == [line] + Lines(rest)
  {
    var ended := if crlf then line + "\r" else line;
    assert line + (if crlf then "\r\n" else "\n") + rest == ended + ['\n'] + rest;
    SplitAppend(ended, rest, '\n');
    SplitWhole(ended, '\n');
    StripStep(ended, Split(rest, '\n'));
    assert WithoutCr(ended) == line;
  }

  lemma {:induction false} LinesReadBack(lines: seq<string>, crlf: bool, closed: bool)
    requires forall l | l in lines :: CleanLine(l)
    requires lines != []
    ensures Lines(PrintLines(lines, crlf, closed)) == lines + if closed then [""] else []
  {
    assert lines[0] in lines;
    if |lines| == 1 && !closed {
      SplitWhole(lines[0], '\n');
    } else {
      LinesStep(lines[0], PrintLines(lines[1..], crlf, closed), crlf);
      if |lines| == 1 {
        SplitWhole("", '\n');
      } else {
        assert forall l | l in lines[1..] :: l in lines;
        LinesReadBack(lines[1..], crlf, closed);
      }
      assert lines == [lines[0]] + lines[1..];
    }
  }

  lemma {:induction false} FilterKeeps<T>(s: seq<T>, keep: T -> bool)
    requires forall x | x in s :: keep(x)
    ensures Filter(s, keep) == s
  {
    if s == [] {
    } else {
      var init, last := s[..|s| - 1], s[|s| - 1];
      assert last in s && forall x | x in init :: x in s;
      FilterKeeps(init, keep);
      assert init + [last] == s;
    }
  }

  lemma FilterDropsLast<T>(s: seq<T>, last: T, keep: T -> bool)
    requires (forall x | x in s :: keep(x)) && !keep(last)
    ensures Filter(s + [last], keep) == s
  {
    assert (s + [last])[..|s|] == s;
    FilterKeeps(s, keep);
  }

  lemma {:induction false} JoinedCharacters(row: seq<Field>)
    requires forall f | f in row :: Printable(f)
    ensures CleanLine(PrintRow(row))
  {
    if row == [] {
    } else {
      assert row[0] in row;
      FieldCharacters(row[0]);
      if |row| > 1 {
        assert forall f | f in row[1..] :: f in row;
        JoinedCharacters(row[1..]);
        var s := PrintField(row[0]) + "," + PrintRow(row[1..]);
        assert PrintRow(row[1..]) == "" ==> s[|s| - 1] == ',';
        assert PrintRow(row[1..]) != "" ==> s[|s| - 1] == PrintRow(row[1..])[|PrintRow(row[1..])| - 1];
      }
    }
  }

  lemma FieldCharacters(f: Field)
    requires Printable(f)
    ensures CleanLine(PrintField(f))
  {
    DoubledCharacters(f.value);
    if !f.quoted && f.value != "" { assert f.value[|f.value| - 1] in f.value; }
  }

  lemma {:induction false} DoubledCharacters(value: string)
    requires '\n' !in value
    ensures '\n' !in Doubled(value, '"')
  {
    if value == "" {
    } else {
      assert value[0] in value;
      DoubledCharacters(value[1..]);
    }
  }

  /** The record of a row: exactly the header's names, each with its value. */
  ghost predicate IsRecord(m: Record, header: seq<string>, values: seq<string>)
    requires |values| <= |header|
  {
    && (forall k :: k in m <==> exists i | 0 <= i < |values| :: header[i] == k)
    && forall i | 0 <= i < |values| :: header[i] in m && m[header[i]] == values[i]
  }

  ghost predicate DistinctNames(header: seq<string>) {
    forall i, j | 0 <= i < j < |header| :: header[i] != header[j]
  }

  lemma {:induction false} EntriesAreRecord(header: seq<string>, values: seq<string>, column: nat -> string)
    requires DistinctNames(header) && |values| <= |header|
    ensures IsRecord(FromEntries(header, values, column), header, values)
  {
    if values == [] {
    } else {
      var n := |values| - 1;
      EntriesAreRecord(header, values[..n], column);
      OneMoreEntry(FromEntries(header, values[..n], column), header, values);
    }
  }

  lemma OneMoreEntry(m: Record, header: seq<string>, values: seq<string>)
    requires DistinctNames(header) && values != [] && |values| <= |header|
    requires IsRecord(m, header, values[..|values| - 1])
    ensures IsRecord(m[header[|values| - 1] := values[|values| - 1]], header, values)
  {
    var n := |values| - 1;
    assert forall i | 0 <= i < n :: values[..n][i] == values[i];
  }

  /** A table: its rows, header first, all as wide as the header, none of them printed blank. */
  ghost predicate Table(rows: seq<seq<Field>>) {
    && rows != [] && rows[0] != [] && DistinctNames(Values(rows[0]))
    && forall r | r in rows ::
         |r| == |rows[0]| && (forall f | f in r :: Printable(f)) && HasText(PrintRow(r))
  }

  function PrintedRows(rows: seq<seq<Field>>): seq<string> {
    seq(|rows|, i requires 0 <= i < |rows| => PrintRow(rows[i]))
  }

  lemma PrintedLines(rows: seq<seq<Field>>, crlf: bool, closed: bool)
    requires Table(rows)
    ensures Filter(Lines(PrintLines(PrintedRows(rows), crlf, closed)), HasText) == PrintedRows(rows)
  {
    var lines := PrintedRows(rows);
    forall i | 0 <= i < |rows| ensures CleanLine(lines[i]) && HasText(lines[i]) {
      assert rows[i] in rows;
      JoinedCharacters(rows[i]);
    }
    LinesReadBack(lines, crlf, closed);
    if closed {
      assert !HasText("");
      FilterDropsLast(lines, "", HasText);
    } else {
      assert lines + [] == lines;
      FilterKeeps(lines, HasText);
    }
  }

  lemma RecordOfRow(header: seq<Field>, row: seq<Field>, column: nat -> string)
    requires DistinctNames(Values(header)) && |row| == |header| && row != []
    requires forall f | f in row :: Printable(f)
    ensures IsRecord(FromEntries(Values(header), Scan(PrintRow(row), "", false), column), Values(header), Values(row))
  {
    RowReadsBack(row);
    EntriesAreRecord(Values(header), Values(row), column);
  }

  lemma RecordInTable(rows: seq<seq<Field>>, i: nat, column: nat -> string)
    requires Table(rows) && i < |rows|
    ensures |rows[i]| == |rows[0]|
    ensures IsRecord(FromEntries(Scan(PrintRow(rows[0]), "", false), Scan(PrintRow(rows[i]), "", false), column),
                     Values(rows[0]), Values(rows[i]))
  {
    assert rows[0] in rows && rows[i] in rows;
    RowReadsBack(rows[0]);
    RecordOfRow(rows[0], rows[i], column);
  }

  lemma ParsedRows(lines: seq<string>, column: nat -> string)
    requires lines != []
    ensures var records := ParseLines(lines, column);
            && |records| == (if |lines| - 1 <= MAX_ROWS then |lines| - 1 else MAX_ROWS)
            && forall i | 0 <= i < |records| ::
               records[i] == FromEntries(Scan(lines[0], "", false), Scan(lines[i + 1], "", false), column)
  {}

  /** Printing a table and parsing it gives the records of its rows, up to the row limit, whatever
      the line ends and whichever fields are quoted. */
  lemma TableReadsBack(rows: seq<seq<Field>>, crlf: bool, closed: bool, column: nat -> string)
    requires Table(rows)
    ensures var records := ParseCsv(PrintLines(PrintedRows(rows), crlf, closed), column);
            && |records| == (if |rows| <= 5001 then |rows| - 1 else 5000)
            && forall i | 0 <= i < |records| ::
               |rows[i + 1]| == |rows[0]| && IsRecord(records[i], Values(rows[0]), Values(rows[i + 1]))
  {
    PrintedLines(rows, crlf, closed);
    var lines := PrintedRows(rows);
    ParsedRows(lines, column);
    forall i | 0 < i < |rows|
      ensures |rows[i]| == |rows[0]|
      ensures IsRecord(FromEntries(Scan(lines[0], "", false), Scan(lines[i], "", false), column), Values(rows[0]),
                       Values(rows[i]))
    {
      RecordInTable(rows, i, column);
    }
  }

  /** A row that begins with a quoted field is never blank, so the fully quoted form needs no such condition. */
  lemma QuotedRowIsNotBlank(row: seq<Field>)
    requires row != [] && row[0].quoted
    ensures HasText(PrintRow(row))
  {
    assert PrintRow(row)[0] == '"';
    assert TrimStart(PrintRow(row)) == PrintRow(row);
  }

  // ----- Blank lines and rows of other widths -----

  /** A line has text exactly when some character of it is no white space. */
  lemma HasTextIff(line: string)
    ensures HasText(line) <==> exists i | 0 <= i < |line| :: !IsSpace(line[i])
  {
    TrimStartEmpty(line);
    TrimEndEmpty(TrimStart(line));
  }

  lemma {:induction false} TrimStartEmpty(s: string)
    ensures TrimStart(s) == "" <==> forall i | 0 <= i < |s| :: IsSpace(s[i])
    ensures TrimStart(s) != "" ==> !IsSpace(TrimStart(s)[0])
  {
    if s == "" {
    } else {
      TrimStartEmpty(s[1..]);
      assert forall i | 0 < i < |s| :: s[i] == s[1..][i - 1];
    }
  }

  lemma {:induction false} TrimEndEmpty(s: string)
    requires s != "" ==> !IsSpace(s[0])
    ensures TrimEnd(s) == "" <==> s == ""
  {
    if |s| <= 1 {
    } else {
      TrimEndEmpty(s[..|s| - 1]);
    }
  }

  /** Lines that are the rows in order, with any blank lines between, before and after them. */
  ghost predicate Weaves(lines: seq<string>, rows: seq<string>) {
    if lines == [] then rows == []
    else
      var init, last := lines[..|lines| - 1], lines[|lines| - 1];
      || ((forall i | 0 <= i < |last| :: IsSpace(last[i])) && Weaves(init, rows))
      || (rows != [] && last == rows[|rows| - 1] && Weaves(init, rows[..|rows| - 1]))
  }

  lemma {:induction false} FilterWeave(lines: seq<string>, rows: seq<string>)
    requires Weaves(lines, rows) && forall r | r in rows :: HasText(r)
    ensures Filter(lines, HasText) == rows
  {
    if lines == [] {
    } else {
      var init, last := lines[..|lines| - 1], lines[|lines| - 1];
      HasTextIff(last);
      if rows != [] { LastRow(rows); }
      if HasText(last) {
        FilterWeave(init, rows[..|rows| - 1]);
      } else {
        FilterWeave(init, rows);
      }
    }
  }

  lemma LastRow(rows: seq<string>)
    requires rows != []
    ensures rows[|rows| - 1] in rows && forall r | r in rows[..|rows| - 1] :: r in rows
    ensures rows == rows[..|rows| - 1] + [rows[|rows| - 1]]
  {}

  lemma FilterSnoc<T>(s: seq<T>, last: T, keep: T -> bool)
    ensures Filter(s + [last], keep) == Filter(s, keep) + if keep(last) then [last] else []
  {
    assert (s + [last])[..|s|] == s;
  }

  lemma FilteredLines(lines: seq<string>, crlf: bool)
    requires lines != [] && forall l | l in lines :: CleanLine(l)
    ensures Filter(Lines(PrintLines(lines, crlf, true)), HasText) == Filter(lines, HasText)
  {
    LinesReadBack(lines, crlf, true);
    FilterSnoc(lines, "", HasText);
    assert !HasText("");
  }

  lemma RowsHaveText(rows: seq<seq<Field>>)
    requires Table(rows)
    ensures forall r | r in PrintedRows(rows) :: HasText(r)
  {
    forall r | r in PrintedRows(rows) ensures HasText(r) {
      var i :| 0 <= i < |rows| && PrintedRows(rows)[i] == r;
      assert rows[i] in rows;
    }
  }

  /** Blank lines anywhere in a printed table change nothing. */
  lemma BlankLinesAreDropped(rows: seq<seq<Field>>, lines: seq<string>, crlf: bool, column: nat -> string)
    requires Table(rows) && Weaves(lines, PrintedRows(rows)) && forall l | l in lines :: CleanLine(l)
    ensures ParseCsv(PrintLines(lines, crlf, true), column)
            == ParseCsv(PrintLines(PrintedRows(rows), crlf, true), column)
  {
    RowsHaveText(rows);
    FilterWeave(lines, PrintedRows(rows));
    PrintedLines(rows, crlf, true);
    FilteredLines(lines, crlf);
  }

  /** A text of blank lines only has no records. */
  lemma BlankTextIsEmpty(lines: seq<string>, crlf: bool, column: nat -> string)
    requires lines != [] && Weaves(lines, []) && forall l | l in lines :: CleanLine(l)
    ensures ParseCsv(PrintLines(lines, crlf, true), column) == []
  {
    FilterWeave(lines, []);
    FilteredLines(lines, crlf);
  }

  /** The entries of a row whose cell `i` is called `name(i)`: of equal names the last cell counts. */
  ghost predicate Entries(m: Record, cells: seq<string>, name: nat -> string) {
    && (forall k | k in m :: exists i | 0 <= i < |cells| :: name(i) == k)
    && (forall i | 0 <= i < |cells| :: name(i) in m)
    && (forall i | 0 <= i < |cells| && (forall j | i < j < |cells| :: name(j) != name(i)) :: m[name(i)] == cells[i])
  }

  lemma EntriesNext(m: Record, cells: seq<string>, name: nat -> string)
    requires cells != [] && Entries(m, cells[..|cells| - 1], name)
    ensures Entries(m[name(|cells| - 1) := cells[|cells| - 1]], cells, name)
  {
    var n := |cells| - 1;
    assert forall i | 0 <= i < n :: cells[..n][i] == cells[i];
    assert name(n) == name(n);
  }

  /** The record of a row of any width: its names are the header's, and column numbers beyond it. */
  lemma {:induction false} EntriesMean(header: seq<string>, cells: seq<string>, column: nat -> string,
                                       name: nat -> string)
    requires forall i: nat :: name(i) == if i < |header| then header[i] else column(i)
    ensures Entries(FromEntries(header, cells, column), cells, name)
  {
    if cells == [] {
    } else {
      var n := |cells| - 1;
      EntriesMean(header, cells[..n], column, name);
      assert Key(header, n, column) == name(n);
      EntriesNext(FromEntries(header, cells[..n], column), cells, name);
    }
  }

  // ----- The cells of any line, well printed or not -----

  function Quotes(n: nat): string {
    seq(n, _ => '"')
  }

  lemma QuotesMore(n: nat, rest: string)
    ensures Quotes(n + 1) + rest == "\"" + (Quotes(n) + rest)
    ensures Quotes(n + 1) == "\"" + Quotes(n) == Quotes(n) + "\""
  {}

  lemma QuotedPair(rest: string, current: string)
    ensures Scan("\"\"" + rest, current, true) == Scan(rest, current + "\"", true)
  {
    assert ("\"\"" + rest)[2..] == rest;
  }

  lemma SingleQuote(rest: string, current: string, quoted: bool)
    requires rest == "" || rest[0] != '"' || !quoted
    ensures Scan("\"" + rest, current, quoted) == Scan(rest, current, !quoted)
  {
    assert ("\"" + rest)[1..] == rest;
  }

  /** A run of quotes inside a quoted part: each pair is one quote, an odd one ends the part. */
  lemma {:induction false} QuotesInside(n: nat, rest: string, current: string)
    requires rest == "" || rest[0] != '"'
    ensures Scan(Quotes(n) + rest, current, true) == Scan(rest, current + Quotes(n / 2), n % 2 == 0)
  {
    if n == 0 {
      assert Quotes(0) + rest == rest && current + Quotes(0) == current;
    } else if n == 1 {
      QuotesMore(0, rest);
      assert Quotes(0) + rest == rest && current + Quotes(0) == current;
      SingleQuote(rest, current, true);
    } else {
      QuotesMore(n - 1, rest);
      QuotesMore(n - 2, rest);
      assert Quotes(n) + rest == "\"\"" + (Quotes(n - 2) + rest);
      QuotedPair(Quotes(n - 2) + rest, current);
      QuotesInside(n - 2, rest, current + "\"");
      assert n / 2 == (n - 2) / 2 + 1;
      QuotesMore((n - 2) / 2, "");
      assert current + "\"" + Quotes((n - 2) / 2) == current + Quotes(n / 2);
    }
  }

  /** Outside one: the first quote opens a part, and the rest are inside. */
  lemma QuotesOutside(n: nat, rest: string, current: string)
    requires n > 0 && (rest == "" || rest[0] != '"')
    ensures Scan(Quotes(n) + rest, current, false) == Scan(rest, current + Quotes((n - 1) / 2), (n - 1) % 2 == 0)
  {
    QuotesMore(n - 1, rest);
    SingleQuote(Quotes(n - 1) + rest, current, false);
    QuotesInside(n - 1, rest, current);
  }

  /** Any other character is part of the cell, except a comma outside quotes, which ends it. */
  lemma OtherCharacter(c: char, rest: string, current: string, quoted: bool)
    requires c != '"'
    ensures Scan([c] + rest, current, quoted) ==
            if c == ',' && !quoted then [current] + Scan(rest, "", false) else Scan(rest, current + [c], quoted)
    ensures Scan("", current, quoted) == [current]
  {
    assert ([c] + rest)[1..] == rest;
  }
}
