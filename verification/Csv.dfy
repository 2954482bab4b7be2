/** The CSV reader of the import parser and the error-report printer that
    writes files for it. */
module Csv {
  import opened Text

  const HEADER: seq<string> := ["linha", "referencia", "codigo", "erro"]

  // ---------- Reader ----------

  /** The loop variables of the reader. */
  datatype Reader = Reader(rows: seq<seq<string>>, row: seq<string>, current: string, quoted: bool) {
    function EndCell(): Reader {
      this.(row := row + [current], current := "")
    }

    function EndRow(): Reader {
      this.(rows := rows + [row + [current]], row := [], current := "")
    }
  }

  const START := Reader([], [], "", false)

  /** One turn of the reader's loop: how many characters it takes and the state it leaves. */
  function Step(delimiter: char, rest: string, r: Reader): (t: (nat, Reader))
    requires rest != ""
    ensures 0 < t.0 <= |rest|
  {
    if rest[0] == '"' && r.quoted && |rest| > 1 && rest[1] == '"' then
      (2, r.(current := r.current + "\""))
    else if rest[0] == '"' then
      (1, r.(quoted := !r.quoted))
    else if !r.quoted && rest[0] == delimiter then
      (1, r.EndCell())
    else if !r.quoted && (rest[0] == '\n' || rest[0] == '\r') then
      (if rest[0] == '\r' && |rest| > 1 && rest[1] == '\n' then 2 else 1, r.EndRow())
    else
      (1, r.(current := r.current + [rest[0]]))
  }

  /** What the reader's loop makes of the rest of the input. */
  function Read(delimiter: char, rest: string, r: Reader): Reader
    decreases |rest|
  {
    if rest == "" then r
    else var (taken, next) := Step(delimiter, rest, r); Read(delimiter, rest[taken..], next)
  }

  predicate HasInk(row: seq<string>) {
    exists i :: 0 <= i < |row| && |Trim(row[i])| > 0
  }

  function DropBlank(rows: seq<seq<string>>): seq<seq<string>> {
    if rows == [] then [] else (if HasInk(rows[0]) then [rows[0]] else []) + DropBlank(rows[1..])
  }

  /** The text before the first LF or CRLF. */
  function FirstLine(s: string): string {
    if s == "" || s[0] == '\n' || (s[0] == '\r' && |s| > 1 && s[1] == '\n') then ""
    else [s[0]] + FirstLine(s[1..])
  }

  function Count(s: string, c: char): nat {
    if s == "" then 0 else (if s[0] == c then 1 else 0) + Count(s[1..], c)
  }

  function DetectDelimiter(input: string): char {
    if Count(FirstLine(input), ';') > Count(FirstLine(input), ',') then ';' else ','
  }

  function Parsed(input: string): seq<seq<string>> {
    DropBlank(Read(DetectDelimiter(input), input, START).EndRow().rows)
  }

  method ParseDelimited(input: string) returns (result: seq<seq<string>>)
    ensures result == Parsed(input)
  {
    hide HasInk, DetectDelimiter;
    var delimiter := DetectDelimiter(input);
    var rows: seq<seq<string>>, row: seq<string>, current, quoted := [], [], "", false;
    var index := 0;
    assert input[0..] == input;
    while index < |input|
      invariant 0 <= index <= |input|
      invariant Read(delimiter, input[index..], Reader(rows, row, current, quoted)) == Read(delimiter, input, START)
    {
      var ch := input[index];
      var nextIs := (c: char) => index + 1 < |input| && input[index + 1] == c;
      if ch == '"' && quoted && nextIs('"') {
        current := current + "\"";
        index := index + 1;
      } else if ch == '"' {
        quoted := !quoted;
      } else if !quoted && ch == delimiter {
        row := row + [current];
        current := "";
      } else if !quoted && (ch == '\n' || ch == '\r') {
        if ch == '\r' && nextIs('\n') {
          index := index + 1;
        }
        row := row + [current];
        rows := rows + [row];
        current := "";
        row := [];
      } else {
        current := current + [ch];
      }
      index := index + 1;
    }
    assert input[index..] == "";
    row := row + [current];
    rows := rows + [row];
    result := [];
    for i := 0 to |rows|
      invariant DropBlank(rows) == result + DropBlank(rows[i..])
    {
      assert rows[i..][1..] == rows[i + 1..];
      if HasInk(rows[i]) {
        result := result + [rows[i]];
      }
    }
  }

  // ---------- Printer ----------

  /** A stored row result of status ERROR, as the report selects it. */
  datatype ErrorRow = ErrorRow(rowNumber: nat, reference: Option<string>, code: Option<string>, message: Option<string>) {
    function Cells(): seq<string> {
      [Decimal(rowNumber), OrEmpty(reference), OrEmpty(code), OrEmpty(message)]
    }
  }

  function OrEmpty(o: Option<string>): string {
    if o.Some? then o.value else ""
  }

  function Doubled(s: string): string {
    if s == "" then "" else (if s[0] == '"' then "\"\"" else [s[0]]) + Doubled(s[1..])
  }

  predicate MustQuote(cell: string) {
    '"' in cell || ',' in cell || '\n' in cell
  }

  function Escape(cell: string): string {
    if MustQuote(cell) then "\"" + Doubled(cell) + "\"" else cell
  }

  /** A cell is printed as it is exactly when it holds no quote, comma or line feed. */
  lemma EscapeMeans(cell: string)
    ensures Escape(cell) == cell <==> '"' !in cell && ',' !in cell && '\n' !in cell
  {
    DoubledLonger(cell);
  }

  lemma {:induction false} DoubledLonger(s: string)
    ensures |Doubled(s)| >= |s|
  {
    if s != "" {
      DoubledLonger(s[1..]);
    }
  }

  function PrintRow(cells: seq<string>): string {
    if cells == [] then "" else if |cells| == 1 then Escape(cells[0])
    else Escape(cells[0]) + ("," + PrintRow(cells[1..]))
  }

  function PrintRows(rows: seq<seq<string>>): string {
    if rows == [] then "" else if |rows| == 1 then PrintRow(rows[0])
    else PrintRow(rows[0]) + ("\n" + PrintRows(rows[1..]))
  }

  function Table(rows: seq<ErrorRow>): (t: seq<seq<string>>)
    ensures |t| == |rows| + 1
  {
    [HEADER] + seq(|rows|, i requires 0 <= i < |rows| => rows[i].Cells())
  }

  function ErrorReport(rows: seq<ErrorRow>): string {
    PrintRows(Table(rows))
  }

  // ---------- Round trip ----------

  /** The printer protects a carriage return only by accident: when something
      else in the cell makes it quote. */
  predicate Protected(cell: string) {
    '\r' in cell ==> MustQuote(cell)
  }

  predicate ProtectedRow(cells: seq<string>) {
    forall i :: 0 <= i < |cells| ==> Protected(cells[i])
  }

  predicate AtBreak(rest: string) {
    rest == "" || rest[0] == ',' || rest[0] == '\n'
  }

  /** Nothing in the text means anything to the reader. */
  predicate Plain(delimiter: char, s: string) {
    '"' !in s && delimiter !in s && '\n' !in s && '\r' !in s
  }

  lemma {:induction false} ReadPlain(delimiter: char, s: string, rest: string, r: Reader)
    requires !r.quoted && Plain(delimiter, s)
    ensures Read(delimiter, s + rest, r) == Read(delimiter, rest, r.(current := r.current + s))
  {
    if s == "" {
      assert s + rest == rest && r.current + s == r.current;
    } else {
      assert s[0] in s && forall c :: c in s[1..] ==> c in s;
      assert (s + rest)[1..] == s[1..] + rest;
      ReadPlain(delimiter, s[1..], rest, r.(current := r.current + [s[0]]));
      assert r.current + [s[0]] + s[1..] == r.current + s;
    }
  }

  lemma {:induction false} ReadQuoted(delimiter: char, s: string, rest: string, r: Reader)
    requires r.quoted && (rest == "" || rest[0] != '"')
    ensures Read(delimiter, Doubled(s) + "\"" + rest, r) == Read(delimiter, rest, r.(current := r.current + s, quoted := false))
  {
    var text := Doubled(s) + "\"" + rest;
    if s == "" {
      assert text == "\"" + rest && text[1..] == rest && r.current + s == r.current;
    } else {
      var next := r.(current := r.current + [s[0]]);
      if s[0] == '"' {
        assert text[2..] == Doubled(s[1..]) + "\"" + rest;
      } else {
        assert text[1..] == Doubled(s[1..]) + "\"" + rest;
      }
      assert Read(delimiter, text, r) == Read(delimiter, Doubled(s[1..]) + "\"" + rest, next);
      ReadQuoted(delimiter, s[1..], rest, next);
      assert r.current + [s[0]] + s[1..] == r.current + s;
    }
  }

  lemma ReadOpenQuote(delimiter: char, rest: string, r: Reader)
    requires !r.quoted
    ensures Read(delimiter, "\"" + rest, r) == Read(delimiter, rest, r.(quoted := true))
  {
    assert ("\"" + rest)[1..] == rest;
  }

  /** A protected cell is read back whole, up to the separator that follows. */
  lemma ReadCell(cell: string, rest: string, r: Reader)
    requires !r.quoted && r.current == "" && Protected(cell) && AtBreak(rest)
    ensures Read(',', Escape(cell) + rest, r) == Read(',', rest, r.(current := cell))
  {
    hide Read, Doubled;
    if MustQuote(cell) {
      var body := Doubled(cell) + "\"" + rest;
      assert Escape(cell) + rest == "\"" + body;
      ReadOpenQuote(',', body, r);
      ReadQuoted(',', cell, rest, r.(quoted := true));
      assert "" + cell == cell;
    } else {
      ReadPlain(',', cell, rest, r);
      assert "" + cell == cell;
    }
  }

  lemma ReadEnd(delimiter: char, r: Reader)
    ensures Read(delimiter, "", r) == r
  {
  }

  lemma ReadDelimiter(delimiter: char, rest: string, r: Reader)
    requires !r.quoted && delimiter != '"'
    ensures Read(delimiter, [delimiter] + rest, r) == Read(delimiter, rest, r.EndCell())
  {
    assert ([delimiter] + rest)[1..] == rest;
  }

  lemma ReadLineFeed(delimiter: char, rest: string, r: Reader)
    requires !r.quoted && delimiter != '\n'
    ensures Read(delimiter, "\n" + rest, r) == Read(delimiter, rest, r.EndRow())
  {
    assert ("\n" + rest)[1..] == rest;
  }

  /** The text that follows the first cell. */
  function AfterCell(cells: seq<string>, rest: string): string {
    if |cells| <= 1 then rest else "," + (PrintRow(cells[1..]) + rest)
  }

  lemma {:induction false} SplitCell(cells: seq<string>, rest: string)
    requires cells != []
    ensures PrintRow(cells) + rest == Escape(cells[0]) + AfterCell(cells, rest)
  {
  }

  /** The text that follows the first row. */
  function AfterFirst(rows: seq<seq<string>>): string {
    if |rows| <= 1 then "" else "\n" + PrintRows(rows[1..])
  }

  lemma {:induction false} SplitFirst(rows: seq<seq<string>>)
    requires rows != []
    ensures PrintRows(rows) == PrintRow(rows[0]) + AfterFirst(rows)
  {
    if |rows| == 1 {
      assert PrintRow(rows[0]) + "" == PrintRow(rows[0]);
    }
  }

  lemma {:induction false} ReadRow(cells: seq<string>, rest: string, r: Reader)
    requires !r.quoted && r.current == "" && cells != [] && ProtectedRow(cells) && AtBreak(rest)
    ensures Read(',', PrintRow(cells) + rest, r)
         == Read(',', rest, r.(row := r.row + cells[..|cells| - 1], current := cells[|cells| - 1]))
  {
    hide PrintRow, Read, Escape, Protected;
    SplitCell(cells, rest);
    assert Protected(cells[0]);
    ReadCell(cells[0], AfterCell(cells, rest), r);
    if |cells| == 1 {
      assert r.row + cells[..0] == r.row;
    } else {
      var tail := cells[1..];
      assert forall i :: 0 <= i < |tail| ==> tail[i] == cells[i + 1];
      ReadDelimiter(',', PrintRow(tail) + rest, r.(current := cells[0]));
      ReadRow(tail, rest, r.(row := r.row + [cells[0]]));
      assert r.row + [cells[0]] + tail[..|tail| - 1] == r.row + cells[..|cells| - 1];
    }
  }

  /** A printed row that more rows follow becomes exactly one completed row. */
  lemma {:induction false} ReadWholeRow(row: seq<string>, rest: string, r: Reader)
    requires !r.quoted && r.current == "" && r.row == [] && row != [] && ProtectedRow(row)
    ensures Read(',', PrintRow(row) + ("\n" + rest), r) == Read(',', rest, r.(rows := r.rows + [row]))
  {
    hide PrintRow, Read;
    ReadRow(row, "\n" + rest, r);
    assert [] + row[..|row| - 1] == row[..|row| - 1];
    assert row[..|row| - 1] + [row[|row| - 1]] == row;
    ReadLineFeed(',', rest, r.(row := row[..|row| - 1], current := row[|row| - 1]));
  }

  lemma {:induction false} ReadRows(rows: seq<seq<string>>, r: Reader)
    requires rows != [] && !r.quoted && r.current == "" && r.row == []
    requires forall i :: 0 <= i < |rows| ==> rows[i] != [] && ProtectedRow(rows[i])
    ensures Read(',', PrintRows(rows), r).EndRow().rows == r.rows + rows
  {
    hide PrintRow, PrintRows, Read;
    var row := rows[0];
    SplitFirst(rows);
    if |rows| == 1 {
      ReadRow(row, "", r);
      ReadEnd(',', r.(row := [] + row[..|row| - 1], current := row[|row| - 1]));
      assert [] + row[..|row| - 1] + [row[|row| - 1]] == row;
      assert r.rows + [row] == r.rows + rows;
    } else {
      ReadWholeRow(row, PrintRows(rows[1..]), r);
      ReadRows(rows[1..], r.(rows := r.rows + [row]));
      assert r.rows + [row] + rows[1..] == r.rows + rows;
    }
  }

  lemma {:induction false} DropBlankKeepsInk(rows: seq<seq<string>>)
    requires forall i :: 0 <= i < |rows| ==> HasInk(rows[i])
    ensures DropBlank(rows) == rows
  {
    if rows != [] {
      DropBlankKeepsInk(rows[1..]);
    }
  }

  lemma {:induction false} DropBlankAppend(a: seq<seq<string>>, b: seq<seq<string>>)
    ensures DropBlank(a + b) == DropBlank(a) + DropBlank(b)
  {
    hide HasInk;
    if a == [] {
      assert a + b == b;
    } else {
      assert (a + b)[1..] == a[1..] + b;
      DropBlankAppend(a[1..], b);
    }
  }

  lemma InkAt(row: seq<string>)
    requires row != [] && row[0] != "" && !IsSpace(row[0][0])
    ensures HasInk(row)
  {
    TrimEmptyIffBlank(row[0]);
  }

  /** Every row of a report is visible to the blank-row filter: the header and
      the row number are never blank. */
  lemma TableHasInk(rows: seq<ErrorRow>, i: nat)
    requires i < |Table(rows)|
    ensures HasInk(Table(rows)[i])
  {
    NumberCell(rows, i);
    InkAt(Table(rows)[i]);
  }

  lemma {:induction false} CountAbsent(a: string, c: char)
    requires c !in a
    ensures Count(a, c) == 0
  {
    if a != "" {
      assert forall x :: x in a[1..] ==> x in a;
      CountAbsent(a[1..], c);
    }
  }

  lemma {:induction false} FirstLineOf(a: string, rest: string)
    requires '\n' !in a && '\r' !in a && (rest == "" || rest[0] == '\n')
    ensures FirstLine(a + rest) == a
  {
    if a == "" {
      assert a + rest == rest;
    } else {
      assert a[0] in a && forall x :: x in a[1..] ==> x in a;
      assert (a + rest)[1..] == a[1..] + rest;
      FirstLineOf(a[1..], rest);
    }
  }

  /** Printing adds no character of its own but the comma, unless it quotes. */
  lemma {:induction false} PrintRowAdds(cells: seq<string>, c: char)
    requires c != ',' && forall i :: 0 <= i < |cells| ==> c !in cells[i] && !MustQuote(cells[i])
    ensures c !in PrintRow(cells)
  {
    if |cells| > 1 {
      PrintRowAdds(cells[1..], c);
    }
  }

  lemma PlainFirstLine(cells: seq<string>, rest: string)
    requires forall i :: 0 <= i < |cells| ==> !MustQuote(cells[i]) && '\r' !in cells[i] && ';' !in cells[i]
    requires rest == "" || rest[0] == '\n'
    ensures DetectDelimiter(PrintRow(cells) + rest) == ','
  {
    PrintRowAdds(cells, '\n');
    PrintRowAdds(cells, '\r');
    PrintRowAdds(cells, ';');
    FirstLineOf(PrintRow(cells), rest);
    CountAbsent(PrintRow(cells), ';');
  }

  lemma HeaderIsPlain()
    ensures forall i :: 0 <= i < |HEADER| ==> !MustQuote(HEADER[i]) && '\r' !in HEADER[i] && ';' !in HEADER[i]
  {
  }

  /** The fixed header line forces the comma, whatever the data rows contain. */
  lemma ReportDelimiter(rows: seq<ErrorRow>)
    ensures DetectDelimiter(ErrorReport(rows)) == ','
  {
    var t := Table(rows);
    SplitFirst(t);
    HeaderIsPlain();
    PlainFirstLine(HEADER, AfterFirst(t));
  }

  lemma ReportReadable(rows: seq<ErrorRow>)
    requires forall i :: 0 <= i < |rows| ==> ProtectedRow(rows[i].Cells())
    ensures Parsed(ErrorReport(rows)) == Table(rows)
  {
    hide PrintRows, Read, DropBlank;
    ReportDelimiter(rows);
    var t := Table(rows);
    assert ProtectedRow(HEADER);
    ReadRows(t, START);
    forall i | 0 <= i < |t| ensures HasInk(t[i]) { TableHasInk(rows, i); }
    DropBlankKeepsInk(t);
    assert START.rows + t == t;
  }

  // ---------- An unprotected cell is never read back ----------

  /** Completed rows are never revised. */
  lemma {:induction false} RowsOnlyGrow(delimiter: char, rest: string, r: Reader)
    ensures r.rows <= Read(delimiter, rest, r).rows
    decreases |rest|
  {
    if rest != "" {
      var (taken, next) := Step(delimiter, rest, r);
      RowsOnlyGrow(delimiter, rest[taken..], next);
    }
  }

  /** An unprotected cell ends its row at its first carriage return. */
  lemma CellBreaksRow(cell: string, rest: string, r: Reader) returns (cut: nat, left: string)
    requires !r.quoted && r.current == "" && !Protected(cell)
    ensures cut < |cell|
    ensures Read(',', cell + rest, r) == Read(',', left, r.(current := cell[..cut]).EndRow())
  {
    cut := 0;
    while cell[cut] != '\r'
      invariant cut < |cell| && '\r' !in cell[..cut]
      invariant '\r' in cell[cut..]
      decreases |cell| - cut
    {
      assert cell[cut..] == [cell[cut]] + cell[cut + 1..];
      cut := cut + 1;
    }
    var before, after := cell[..cut], cell[cut..] + rest;
    assert cell + rest == before + after;
    ReadPlain(',', before, after, r);
    assert "" + before == before;
    left := if |after| > 1 && after[1] == '\n' then after[2..] else after[1..];
  }

  /** A row whose first unprotected cell is number `bad` is stored cut short there. */
  lemma {:induction false} RowBreaks(cells: seq<string>, bad: nat, rest: string, r: Reader) returns (cut: nat, left: string)
    requires !r.quoted && r.current == "" && bad < |cells|
    requires ProtectedRow(cells[..bad]) && !Protected(cells[bad])
    ensures cut < |cells[bad]|
    ensures Read(',', PrintRow(cells) + rest, r)
         == Read(',', left, r.(row := r.row + cells[..bad], current := cells[bad][..cut]).EndRow())
    decreases bad
  {
    hide PrintRow, Read;
    SplitCell(cells, rest);
    var tail := AfterCell(cells, rest);
    if bad == 0 {
      cut, left := CellBreaksRow(cells[0], tail, r);
      assert r.row + cells[..0] == r.row;
    } else {
      assert Protected(cells[..bad][0]);
      ReadCell(cells[0], tail, r);
      ReadDelimiter(',', PrintRow(cells[1..]) + rest, r.(current := cells[0]));
      assert cells[1..][..bad - 1] == cells[..bad][1..];
      cut, left := RowBreaks(cells[1..], bad - 1, rest, r.(row := r.row + [cells[0]]));
      assert r.row + [cells[0]] + cells[1..][..bad - 1] == r.row + cells[..bad];
    }
  }

  lemma {:induction false} RowsBreak(rows: seq<seq<string>>, badRow: nat, bad: nat, r: Reader) returns (cut: nat, left: string)
    requires !r.quoted && r.current == "" && r.row == []
    requires badRow < |rows| && bad < |rows[badRow]|
    requires forall i :: 0 <= i < badRow ==> rows[i] != [] && ProtectedRow(rows[i])
    requires ProtectedRow(rows[badRow][..bad]) && !Protected(rows[badRow][bad])
    ensures cut < |rows[badRow][bad]|
    ensures Read(',', PrintRows(rows), r)
         == Read(',', left, Reader(r.rows + rows[..badRow] + [rows[badRow][..bad] + [rows[badRow][bad][..cut]]], [], "", false))
    decreases badRow
  {
    hide PrintRow, PrintRows, Read;
    var row := rows[0];
    SplitFirst(rows);
    var rest := AfterFirst(rows);
    if badRow == 0 {
      cut, left := RowBreaks(row, bad, rest, r);
      assert r.row + row[..bad] == row[..bad];
      assert r.rows + rows[..0] == r.rows;
    } else {
      ReadWholeRow(row, PrintRows(rows[1..]), r);
      cut, left := RowsBreak(rows[1..], badRow - 1, bad, Reader(r.rows + [row], [], "", false));
      assert r.rows + [row] + rows[1..][..badRow - 1] == r.rows + rows[..badRow];
    }
  }

  /** Reading a report back gives its header and cells exactly when every cell
      with a carriage return also holds a quote, a comma or a line feed. */
  lemma ReportRoundTrip(rows: seq<ErrorRow>)
    ensures Parsed(ErrorReport(rows)) == Table(rows) <==> forall i :: 0 <= i < |rows| ==> ProtectedRow(rows[i].Cells())
  {
    if forall i :: 0 <= i < |rows| ==> ProtectedRow(rows[i].Cells()) {
      ReportReadable(rows);
    } else {
      ReportUnreadable(rows);
    }
  }

  /** The first element of a sequence that violates a predicate. */
  lemma {:induction false} FirstBadRow(t: seq<seq<string>>) returns (k: nat)
    requires exists i :: 0 <= i < |t| && !ProtectedRow(t[i])
    ensures k < |t| && !ProtectedRow(t[k]) && forall i :: 0 <= i < k ==> ProtectedRow(t[i])
  {
    k := 0;
    while ProtectedRow(t[k])
      invariant k < |t| && forall i :: 0 <= i < k ==> ProtectedRow(t[i])
      invariant exists i :: k <= i < |t| && !ProtectedRow(t[i])
      decreases |t| - k
    {
      k := k + 1;
    }
  }

  lemma {:induction false} FirstBadCell(cells: seq<string>) returns (k: nat)
    requires !ProtectedRow(cells)
    ensures k < |cells| && !Protected(cells[k]) && ProtectedRow(cells[..k])
  {
    k := 0;
    while Protected(cells[k])
      invariant k < |cells| && ProtectedRow(cells[..k])
      invariant exists i :: k <= i < |cells| && !Protected(cells[i])
      decreases |cells| - k
    {
      k := k + 1;
    }
  }

  /** Rows read in full before the break, and the broken row, survive the filter. */
  lemma BrokenRowSurvives(t: seq<seq<string>>, k: nat, stored: seq<string>, all: seq<seq<string>>)
    requires k < |t| && t[..k] + [stored] <= all
    requires forall i :: 0 <= i < k ==> HasInk(t[i])
    requires HasInk(stored)
    ensures |DropBlank(all)| > k && DropBlank(all)[k] == stored
  {
    var more := all[k + 1..];
    assert all == t[..k] + ([stored] + more);
    DropBlankAppend(t[..k], [stored] + more);
    DropBlankKeepsInk(t[..k]);
  }

  lemma ReportUnreadable(rows: seq<ErrorRow>)
    requires exists i :: 0 <= i < |rows| && !ProtectedRow(rows[i].Cells())
    ensures Parsed(ErrorReport(rows)) != Table(rows)
  {
    hide PrintRows, Read, DropBlank;
    var t := Table(rows);
    var w :| 0 <= w < |rows| && !ProtectedRow(rows[w].Cells());
    assert t[w + 1] == rows[w].Cells();
    var k := FirstBadRow(t);
    var j := FirstBadCell(t[k]);
    NumberCell(rows, k);
    var cut, left := RowsBreak(t, k, j, START);
    var stored := t[k][..j] + [t[k][j][..cut]];
    var broken := Reader(START.rows + t[..k] + [stored], [], "", false);
    RowsOnlyGrow(',', left, broken);
    var all := Read(',', ErrorReport(rows), START).EndRow().rows;
    assert START.rows + t[..k] == t[..k];
    forall i | 0 <= i < k ensures HasInk(t[i]) { TableHasInk(rows, i); }
    assert stored[0] == t[k][0];
    InkAt(stored);
    BrokenRowSurvives(t, k, stored, all);
    ReportDelimiter(rows);
    assert stored[j] != t[k][j];
  }

  /** The first cell of a row is never blank and never unprotected. */
  lemma NumberCell(rows: seq<ErrorRow>, k: nat)
    requires k < |Table(rows)|
    ensures var cell := Table(rows)[k][0]; cell != "" && !IsSpace(cell[0]) && Protected(cell)
  {
    if k > 0 {
      assert AllDigits(Decimal(rows[k - 1].rowNumber));
    }
  }

  /** The smallest such report: one message with a bare carriage return. */
  lemma CarriageReturnSplitsRow()
    ensures var rows := [ErrorRow(2, None, None, Some("a\rb"))]; Parsed(ErrorReport(rows)) != Table(rows)
  {
    var rows := [ErrorRow(2, None, None, Some("a\rb"))];
    assert !Protected(rows[0].Cells()[3]);
    ReportUnreadable(rows);
  }
}
