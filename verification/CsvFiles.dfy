/** Files that follow section 2 of RFC 4180, with either separator and any line
    end, and what the reader makes of them. */
module CsvFiles {
  import opened Text
  import opened Csv

  /** How a file is written; `closed` when the last line has an end too. */
  datatype Style = Style(delimiter: char, eol: string, closed: bool)

  predicate Valid(w: Style) {
    (w.delimiter == ',' || w.delimiter == ';') && (w.eol == "\n" || w.eol == "\r\n" || w.eol == "\r")
  }

  function Field(delimiter: char, cell: string): string {
    if Plain(delimiter, cell) then cell else "\"" + Doubled(cell) + "\""
  }

  function Line(delimiter: char, cells: seq<string>): string {
    if cells == [] then "" else if |cells| == 1 then Field(delimiter, cells[0])
    else Field(delimiter, cells[0]) + ([delimiter] + Line(delimiter, cells[1..]))
  }

  function File(w: Style, rows: seq<seq<string>>): string {
    if rows == [] then ""
    else if |rows| == 1 && !w.closed then Line(w.delimiter, rows[0])
    else Line(w.delimiter, rows[0]) + (w.eol + File(w, rows[1..]))
  }

  // ---------- Reading one line ----------

  predicate StartsClean(rest: string) {
    rest == "" || rest[0] != '"'
  }

  lemma ReadField(delimiter: char, cell: string, rest: string, r: Reader)
    requires delimiter != '"' && !r.quoted && r.current == "" && StartsClean(rest)
    ensures Read(delimiter, Field(delimiter, cell) + rest, r) == Read(delimiter, rest, r.(current := cell))
  {
    hide Read, Doubled, Plain;
    assert "" + cell == cell;
    if Plain(delimiter, cell) {
      ReadPlain(delimiter, cell, rest, r);
    } else {
      var body := Doubled(cell) + "\"" + rest;
      assert Field(delimiter, cell) + rest == "\"" + body;
      ReadOpenQuote(delimiter, body, r);
      ReadQuoted(delimiter, cell, rest, r.(quoted := true));
    }
  }

  lemma LineSplits(delimiter: char, cells: seq<string>, rest: string)
    requires cells != []
    ensures |cells| == 1 ==> Line(delimiter, cells) + rest == Field(delimiter, cells[0]) + rest
    ensures |cells| > 1 ==>
      Line(delimiter, cells) + rest == Field(delimiter, cells[0]) + ([delimiter] + (Line(delimiter, cells[1..]) + rest))
  {
    hide Field;
  }

  lemma {:induction false} ReadLine(delimiter: char, cells: seq<string>, rest: string, r: Reader)
    requires delimiter != '"' && !r.quoted && r.current == "" && cells != [] && StartsClean(rest)
    ensures Read(delimiter, Line(delimiter, cells) + rest, r)
         == Read(delimiter, rest, r.(row := r.row + cells[..|cells| - 1], current := cells[|cells| - 1]))
    decreases |cells|
  {
    hide Read, Field, Line;
    LineSplits(delimiter, cells, rest);
    if |cells| == 1 {
      ReadField(delimiter, cells[0], rest, r);
      assert r.row + cells[..0] == r.row;
    } else {
      var tail := cells[1..];
      var next := Line(delimiter, tail) + rest;
      ReadField(delimiter, cells[0], [delimiter] + next, r);
      ReadDelimiter(delimiter, next, r.(current := cells[0]));
      ReadLine(delimiter, tail, rest, r.(row := r.row + [cells[0]]));
      assert r.row + [cells[0]] + tail[..|tail| - 1] == r.row + cells[..|cells| - 1];
    }
  }

  lemma ReadReturn(delimiter: char, rest: string, r: Reader)
    requires !r.quoted && delimiter != '\r' && (rest == "" || rest[0] != '\n')
    ensures Read(delimiter, "\r" + rest, r) == Read(delimiter, rest, r.EndRow())
  {
    assert ("\r" + rest)[1..] == rest;
  }

  lemma ReadReturnFeed(delimiter: char, rest: string, r: Reader)
    requires !r.quoted && delimiter != '\r'
    ensures Read(delimiter, "\r\n" + rest, r) == Read(delimiter, rest, r.EndRow())
  {
    assert ("\r\n" + rest)[2..] == rest;
  }

  lemma ReadEol(w: Style, rest: string, r: Reader)
    requires Valid(w) && !r.quoted && (rest == "" || rest[0] != '\n')
    ensures Read(w.delimiter, w.eol + rest, r) == Read(w.delimiter, rest, r.EndRow())
  {
    hide Read;
    if w.eol == "\n" {
      ReadLineFeed(w.delimiter, rest, r);
    } else if w.eol == "\r\n" {
      ReadReturnFeed(w.delimiter, rest, r);
    } else {
      ReadReturn(w.delimiter, rest, r);
    }
  }

  lemma FileStart(w: Style, rows: seq<seq<string>>)
    requires Valid(w) && forall i :: 0 <= i < |rows| ==> rows[i] != []
    ensures File(w, rows) == "" || File(w, rows)[0] != '\n' || (rows != [] && Line(w.delimiter, rows[0]) == "" && w.eol == "\n")
  {
    if rows != [] {
      LineStart(w.delimiter, rows[0]);
    }
  }

  lemma LineStart(delimiter: char, cells: seq<string>)
    requires delimiter != '\n' && cells != []
    ensures Line(delimiter, cells) != "" ==> Line(delimiter, cells)[0] != '\n'
  {
    hide Doubled;
    var cell := cells[0];
    if Plain(delimiter, cell) && cell != "" {
      assert cell[0] in cell;
    }
  }

  // ---------- Reading a file ----------

  /** The rows read, before the blank ones are dropped: an end of the last line
      leaves one empty row more. */
  lemma {:induction false} ReadFile(w: Style, rows: seq<seq<string>>, r: Reader)
    requires Valid(w) && !r.quoted && r.current == "" && r.row == [] && (rows == [] ==> w.closed)
    requires forall i :: 0 <= i < |rows| ==> rows[i] != []
    ensures Read(w.delimiter, File(w, rows), r).EndRow().rows == r.rows + rows + if w.closed then [[""]] else []
    decreases |rows|
  {
    hide Read, Line, Field;
    if rows == [] {
      ReadEnd(w.delimiter, r);
      assert r.rows + rows == r.rows && r.row + [r.current] == [""];
    } else {
      var row, d := rows[0], w.delimiter;
      var full := r.(row := r.row + row[..|row| - 1], current := row[|row| - 1]);
      assert full.row + [full.current] == row;
      if |rows| == 1 && !w.closed {
        ReadLine(d, row, "", r);
        assert Line(d, row) + "" == Line(d, row);
        ReadEnd(d, full);
        assert rows == [row] && r.rows + rows + [] == r.rows + [row];
      } else {
        var rest := File(w, rows[1..]);
        ReadLine(d, row, w.eol + rest, r);
        ReadLineEnd(w, rows[1..], full);
        ReadFile(w, rows[1..], full.EndRow());
        assert r.rows + [row] + rows[1..] == r.rows + rows;
        assert File(w, rows) == Line(d, row) + (w.eol + rest);
      }
    }
  }

  /** The end of a line is read whole: a file starts with a line feed only when its
      ends are line feeds. */
  lemma ReadLineEnd(w: Style, rows: seq<seq<string>>, r: Reader)
    requires Valid(w) && !r.quoted && forall i :: 0 <= i < |rows| ==> rows[i] != []
    ensures Read(w.delimiter, w.eol + File(w, rows), r) == Read(w.delimiter, File(w, rows), r.EndRow())
  {
    hide Read, Line, File;
    var rest := File(w, rows);
    FileStart(w, rows);
    if w.eol == "\n" {
      ReadLineFeed(w.delimiter, rest, r);
    } else {
      ReadEol(w, rest, r);
    }
  }

  /** Every file whose separator is detected reads back as its rows without the
      blank ones, with either separator, any line end, and quotes, separators and
      line ends inside cells. */
  lemma FileReadsBack(w: Style, rows: seq<seq<string>>)
    requires Valid(w) && rows != [] && (forall i :: 0 <= i < |rows| ==> rows[i] != [])
    requires DetectDelimiter(File(w, rows)) == w.delimiter
    ensures Parsed(File(w, rows)) == DropBlank(rows)
  {
    hide Read, File, DetectDelimiter;
    ReadFile(w, rows, START);
    assert START.rows + rows == rows;
    if w.closed {
      DropBlankAppend(rows, [[""]]);
      EmptyRowIsBlank();
      assert DropBlank(rows) + [] == DropBlank(rows);
    } else {
      assert rows + [] == rows;
    }
  }

  lemma EmptyRowIsBlank()
    ensures DropBlank([[""]]) == []
  {
    assert !HasInk([""]);
    assert [[""]][1..] == [];
  }

  /** What the filter keeps: the rows with a cell that is not white space, in order. */
  lemma {:induction false} DropBlankMeans(rows: seq<seq<string>>, row: seq<string>)
    ensures row in DropBlank(rows) <==> row in rows && exists i :: 0 <= i < |row| && !Blank(row[i])
    ensures multiset(DropBlank(rows)) <= multiset(rows)
    ensures forall i :: 0 <= i < |row| ==> (|Trim(row[i])| > 0 <==> !Blank(row[i]))
  {
    hide IsSpace, Trim;
    forall i | 0 <= i < |row| ensures |Trim(row[i])| > 0 <==> !Blank(row[i]) {
      TrimEmptyIffBlank(row[i]);
    }
    if rows != [] {
      DropBlankMeans(rows[1..], row);
      assert rows == [rows[0]] + rows[1..];
    }
  }

  // ---------- Which separator is detected ----------

  predicate OneLine(s: string) {
    '\n' !in s && '\r' !in s
  }

  lemma {:induction false} FirstLineIs(a: string, rest: string)
    requires OneLine(a) && (rest == "" || rest[0] == '\n' || (|rest| > 1 && rest[0] == '\r' && rest[1] == '\n'))
    ensures FirstLine(a + rest) == a
  {
    if a == "" {
      assert a + rest == rest;
    } else {
      assert a[0] in a && forall x :: x in a[1..] ==> x in a;
      assert (a + rest)[1..] == a[1..] + rest;
      FirstLineIs(a[1..], rest);
    }
  }

  /** The first line of any text ends at its first line feed, or at the carriage
      return before that; a carriage return elsewhere belongs to the line. */
  lemma {:induction false} FirstLineMeans(s: string)
    ensures var line := FirstLine(s);
      && line <= s && '\n' !in line
      && (|line| < |s| ==> s[|line|] == '\n' || (s[|line|] == '\r' && |line| + 1 < |s| && s[|line| + 1] == '\n'))
  {
    if s != "" && FirstLine(s) != "" {
      FirstLineMeans(s[1..]);
    }
  }

  /** The header line decides: a semicolon when it holds more of them than commas. */
  lemma HeaderDecides(w: Style, rows: seq<seq<string>>)
    requires Valid(w) && w.eol != "\r" && rows != [] && OneLine(Line(w.delimiter, rows[0]))
    ensures var header := Line(w.delimiter, rows[0]);
      DetectDelimiter(File(w, rows)) == if Count(header, ';') > Count(header, ',') then ';' else ','
  {
    hide Line;
    var header := Line(w.delimiter, rows[0]);
    if |rows| == 1 && !w.closed {
      FirstLineIs(header, "");
      assert header + "" == header;
    } else {
      FirstLineIs(header, w.eol + File(w, rows[1..]));
    }
  }

  lemma {:induction false} CountAppend(a: string, b: string, c: char)
    ensures Count(a + b, c) == Count(a, c) + Count(b, c)
  {
    if a == "" {
      assert a + b == b;
    } else {
      assert (a + b)[1..] == a[1..] + b;
      CountAppend(a[1..], b, c);
    }
  }

  predicate PlainHeader(header: seq<string>) {
    forall i :: 0 <= i < |header| ==> Plain(',', header[i]) && Plain(';', header[i])
  }

  /** A header of plain names holds one separator less than it has names, and
      nothing else that counts. */
  lemma {:induction false} PlainHeaderCounts(delimiter: char, header: seq<string>)
    requires (delimiter == ',' || delimiter == ';') && header != [] && PlainHeader(header)
    ensures var line := Line(delimiter, header);
      && OneLine(line) && Count(line, delimiter) == |header| - 1
      && Count(line, if delimiter == ',' then ';' else ',') == 0
    decreases |header|
  {
    var name := header[0];
    CountAbsent(name, ',');
    CountAbsent(name, ';');
    if |header| > 1 {
      var rest := Line(delimiter, header[1..]);
      PlainHeaderCounts(delimiter, header[1..]);
      CountAppend(name, [delimiter] + rest, ',');
      CountAppend(name, [delimiter] + rest, ';');
      CountAppend([delimiter], rest, ',');
      CountAppend([delimiter], rest, ';');
      assert [delimiter][1..] == "";
    }
  }

  /** A file under a header of plain names, two at least when the separator is the
      semicolon, reads back as its rows without the blank ones. */
  lemma TableReadsBack(w: Style, rows: seq<seq<string>>)
    requires Valid(w) && w.eol != "\r" && rows != [] && (forall i :: 0 <= i < |rows| ==> rows[i] != [])
    requires PlainHeader(rows[0]) && (w.delimiter == ';' ==> |rows[0]| >= 2)
    ensures Parsed(File(w, rows)) == DropBlank(rows)
  {
    hide Parsed, DropBlank, File, Line;
    PlainHeaderCounts(w.delimiter, rows[0]);
    HeaderDecides(w, rows);
    FileReadsBack(w, rows);
  }

  /** A line of two plain cells. */
  lemma TwoCells(delimiter: char, a: string, b: string)
    requires Plain(delimiter, a) && Plain(delimiter, b)
    ensures Line(delimiter, [a, b]) == a + ([delimiter] + b)
  {
    assert [a, b][1..] == [b];
  }

  /** The smallest semicolon file. */
  lemma SemicolonFile()
    ensures Parsed("nome;documento\nAna;12345678909") == [["nome", "documento"], ["Ana", "12345678909"]]
  {
    hide Parsed, HasInk, Plain, Line;
    var w, rows := Style(';', "\n", false), [["nome", "documento"], ["Ana", "12345678909"]];
    PlainSamples();
    TwoCells(';', "nome", "documento");
    TwoCells(';', "Ana", "12345678909");
    assert rows[1..] == [["Ana", "12345678909"]];
    assert File(w, rows) == "nome" + (";" + "documento") + ("\n" + ("Ana" + (";" + "12345678909")));
    assert File(w, rows) == "nome;documento\nAna;12345678909";
    TableReadsBack(w, rows);
    InkAt(rows[0]);
    InkAt(rows[1]);
    DropBlankKeepsInk(rows);
  }

  lemma PlainSamples()
    ensures Plain(';', "nome") && Plain(';', "documento") && Plain(',', "nome") && Plain(',', "documento")
    ensures Plain(';', "Ana") && Plain(';', "12345678909")
  {
  }
}
