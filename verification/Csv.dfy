/** The CSV written by docs/export-legacy-import-csv.py, and a reader for it: cells separated by ';', records by
    a line feed, quoting as in section 2 of RFC 4180. */
module Csv {
  import opened Options
  import opened Sums
  import Decimal
  import opened Text

  // ---------------------------------------------------------------- the writer

  predicate Special(c: char) {
    c == ';' || c == '"' || c == '\r' || c == '\n'
  }

  predicate Plain(s: string) {
    forall i :: 0 <= i < |s| ==> !Special(s[i])
  }

  /** value.replace('"', '""') */
  function Doubled(s: string): string {
    if s == "" then "" else (if s[0] == '"' then "\"\"" else [s[0]]) + Doubled(s[1..])
  }

  lemma {:induction false} DoubledIsLonger(s: string)
    ensures |Doubled(s)| >= |s|
  {
    if s == "" {
    } else {
      DoubledIsLonger(s[1..]);
    }
  }

  /** csv_cell */
  function Cell(value: string): string {
    if value == "" then ""
    else if !Plain(value) then "\"" + Doubled(value) + "\""
    else value
  }

  /** A cell is put between quotes exactly if one of these four characters is in it. */
  lemma CellIsQuotedIff(value: string)
    ensures Cell(value) == value <==> forall c :: c in value ==> c !in {';', '"', '\r', '\n'}
    ensures Cell(value) != value ==> |Cell(value)| >= 2 && Cell(value)[0] == Cell(value)[|Cell(value)| - 1] == '"'
  {
    DoubledIsLonger(value);
    if forall c :: c in value ==> c !in {';', '"', '\r', '\n'} {
      forall i | 0 <= i < |value| ensures !Special(value[i]) {
        assert value[i] in value;
      }
    } else {
      var c :| c in value && c in {';', '"', '\r', '\n'};
      assert !Plain(value);
    }
  }

  function Cells(cols: seq<string>): seq<string> {
    if cols == [] then [] else [Cell(cols[0])] + Cells(cols[1..])
  }

  /** row_line */
  function RowLine(cols: seq<string>): string {
    Join(Cells(cols), ';')
  }

  function RowLines(rows: seq<seq<string>>): seq<string> {
    if rows == [] then [] else [RowLine(rows[0])] + RowLines(rows[1..])
  }

  /** section: a title line, the header if there is one, the rows, and an empty line. */
  function Section(title: string, header: seq<string>, rows: seq<seq<string>>): seq<string> {
    ["=== " + title + " ===;righe=" + Decimal.Print(|rows|)]
    + (if header == [] then [] else [RowLine(header)]) + RowLines(rows) + [""]
  }

  // ---------------------------------------------------------------- the reader

  /** Something read, and the text that is left; None when the text is malformed. */
  type Read<T> = Option<(T, string)>

  /** An unquoted cell runs up to the next separator, line feed or end; a stray quote or return is malformed. */
  function ReadPlain(s: string): (r: Read<string>)
    ensures r.Some? ==> |r.value.1| <= |s|
  {
    if s == "" || s[0] == ';' || s[0] == '\n' then Some(("", s))
    else if Special(s[0]) then None
    else
      var rest := ReadPlain(s[1..]);
      if rest.None? then None else Some(([s[0]] + rest.value.0, rest.value.1))
  }

  /** The inside of a quoted cell: two quotes stand for one, a single quote ends it. */
  function ReadQuoted(s: string): (r: Read<string>)
    ensures r.Some? ==> |r.value.1| <= |s|
  {
    if s == "" then None
    else if s[0] == '"' && |s| >= 2 && s[1] == '"' then
      var rest := ReadQuoted(s[2..]);
      if rest.None? then None else Some((['"'] + rest.value.0, rest.value.1))
    else if s[0] == '"' then Some(("", s[1..]))
    else
      var rest := ReadQuoted(s[1..]);
      if rest.None? then None else Some(([s[0]] + rest.value.0, rest.value.1))
  }

  function ReadCell(s: string): (r: Read<string>)
    ensures r.Some? ==> |r.value.1| <= |s|
  {
    if s != "" && s[0] == '"' then ReadQuoted(s[1..]) else ReadPlain(s)
  }

  /** One record: cells separated by ';' up to a line feed or the end. */
  function ReadRow(s: string): (r: Read<seq<string>>)
    ensures r.Some? ==> |r.value.1| <= |s|
    decreases |s|
  {
    var cell := ReadCell(s);
    if cell.None? then None
    else
      var (value, rest) := cell.value;
      if rest == "" || rest[0] == '\n' then Some(([value], rest))
      else if rest[0] == ';' then
        var more := ReadRow(rest[1..]);
        if more.None? then None else Some(([value] + more.value.0, more.value.1))
      else None
  }

  /** A whole text: records separated by line feeds. */
  function Decode(s: string): Option<seq<seq<string>>>
    decreases |s|
  {
    var row := ReadRow(s);
    if row.None? then None
    else
      var (cols, rest) := row.value;
      if rest == "" then Some([cols])
      else if rest[0] != '\n' then None
      else
        var more := Decode(rest[1..]);
        if more.None? then None else Some([cols] + more.value)
  }

  // ---------------------------------------------------------------- reading back what was written

  /** What may follow a cell. */
  predicate Ends(tail: string) {
    tail == "" || tail[0] == ';' || tail[0] == '\n'
  }

  lemma {:induction false} ReadPlainBack(v: string, tail: string)
    requires Plain(v) && Ends(tail)
    ensures ReadPlain(v + tail) == Some((v, tail))
  {
    if v == "" {
      assert v + tail == tail;
    } else {
      assert Plain(v[1..]);
      ReadPlainBack(v[1..], tail);
      assert (v + tail)[1..] == v[1..] + tail;
      assert v == [v[0]] + v[1..];
    }
  }

  lemma {:induction false} ReadQuotedBack(v: string, tail: string)
    requires Ends(tail)
    ensures ReadQuoted(Doubled(v) + "\"" + tail) == Some((v, tail))
  {
    var s := Doubled(v) + "\"" + tail;
    if v == "" {
      assert s == ['"'] + tail;
      assert s[1..] == tail;
    } else {
      ReadQuotedBack(v[1..], tail);
      var inner := Doubled(v[1..]) + "\"" + tail;
      assert v == [v[0]] + v[1..];
      if v[0] == '"' {
        assert s == "\"\"" + inner;
        assert s[2..] == inner;
      } else {
        assert s == [v[0]] + inner;
        assert s[1..] == inner;
      }
    }
  }

  lemma ReadCellBack(v: string, tail: string)
    requires Ends(tail)
    ensures ReadCell(Cell(v) + tail) == Some((v, tail))
  {
    if v != "" && !Plain(v) {
      ReadQuotedBack(v, tail);
      assert Cell(v) + tail == ['"'] + (Doubled(v) + "\"" + tail);
    } else {
      ReadPlainBack(v, tail);
      assert v != "" ==> (v + tail)[0] == v[0];
    }
  }

  lemma RowLineOne(v: string)
    ensures RowLine([v]) == Cell(v)
  {
    assert Cells([v]) == [Cell(v)];
  }

  lemma RowLineMore(v: string, cols: seq<string>)
    requires cols != []
    ensures RowLine([v] + cols) == Cell(v) + [';'] + RowLine(cols)
  {
    assert ([v] + cols)[1..] == cols;
    assert Cells([v] + cols) == [Cell(v)] + Cells(cols);
    assert ([Cell(v)] + Cells(cols))[1..] == Cells(cols);
  }

  /** One cell and what a reader makes of the rest of the record. */
  lemma ReadRowStep(v: string, rest: string, cols: seq<string>, tail: string)
    requires ReadRow(rest) == Some((cols, tail))
    ensures ReadRow(Cell(v) + ([';'] + rest)) == Some(([v] + cols, tail))
  {
    ReadCellBack(v, [';'] + rest);
    assert ([';'] + rest)[1..] == rest;
  }

  lemma ReadLastCell(v: string, tail: string)
    requires tail == "" || tail[0] == '\n'
    ensures ReadRow(RowLine([v]) + tail) == Some(([v], tail))
  {
    RowLineOne(v);
    ReadCellBack(v, tail);
  }

  lemma LineSplit(v: string, cols: seq<string>, tail: string)
    requires cols != []
    ensures RowLine([v] + cols) + tail == Cell(v) + ([';'] + (RowLine(cols) + tail))
  {
    RowLineMore(v, cols);
    ConcatAssoc([';'], RowLine(cols), tail);
    ConcatAssoc(Cell(v), [';'], RowLine(cols));
    ConcatAssoc(Cell(v), [';'] + RowLine(cols), tail);
  }

  lemma {:induction false} ReadRowBack(cols: seq<string>, tail: string)
    requires cols != [] && (tail == "" || tail[0] == '\n')
    ensures ReadRow(RowLine(cols) + tail) == Some((cols, tail))
  {
    var v := cols[0];
    if |cols| == 1 {
      assert cols == [v];
      ReadLastCell(v, tail);
    } else {
      assert cols == [v] + cols[1..];
      LineSplit(v, cols[1..], tail);
      ReadRowBack(cols[1..], tail);
      ReadRowStep(v, RowLine(cols[1..]) + tail, cols[1..], tail);
    }
  }

  /** A table as text. */
  function TableText(rows: seq<seq<string>>): string {
    Join(RowLines(rows), '\n')
  }

  lemma TextMore(row: seq<string>, rows: seq<seq<string>>)
    requires rows != []
    ensures TableText([row] + rows) == RowLine(row) + (['\n'] + TableText(rows))
  {
    assert ([row] + rows)[1..] == rows;
    assert RowLines([row] + rows) == [RowLine(row)] + RowLines(rows);
    assert ([RowLine(row)] + RowLines(rows))[1..] == RowLines(rows);
  }

  lemma TextOne(row: seq<string>)
    ensures TableText([row]) == RowLine(row)
  {
    assert RowLines([row]) == [RowLine(row)];
  }

  lemma DecodeStep(row: seq<string>, rest: string, rows: seq<seq<string>>)
    requires row != [] && Decode(rest) == Some(rows)
    ensures Decode(RowLine(row) + (['\n'] + rest)) == Some([row] + rows)
  {
    ReadRowBack(row, ['\n'] + rest);
    assert (['\n'] + rest)[1..] == rest;
  }

  /** Every table of non-empty rows, written line by line, is read back cell for cell: with quotes, separators
      and line breaks inside the cells. */
  lemma {:induction false} DecodeBack(rows: seq<seq<string>>)
    requires rows != [] && forall i :: 0 <= i < |rows| ==> rows[i] != []
    ensures Decode(TableText(rows)) == Some(rows)
  {
    var row := rows[0];
    if |rows| == 1 {
      assert rows == [row];
      TextOne(row);
      ReadRowBack(row, "");
      assert RowLine(row) + "" == RowLine(row);
    } else {
      assert rows == [row] + rows[1..];
      TextMore(row, rows[1..]);
      DecodeBack(rows[1..]);
      DecodeStep(row, TableText(rows[1..]), rows[1..]);
    }
  }

  // ---------------------------------------------------------------- rows without cells

  /** A row without cells looks like a row with one empty cell. */
  function Fill(row: seq<string>): (r: seq<string>)
    ensures r != []
  {
    if row == [] then [""] else row
  }

  function Filled(rows: seq<seq<string>>): (r: seq<seq<string>>)
    ensures |r| == |rows| && forall i :: 0 <= i < |rows| ==> r[i] == Fill(rows[i])
  {
    seq(|rows|, i requires 0 <= i < |rows| => Fill(rows[i]))
  }

  lemma {:induction false} FilledLines(rows: seq<seq<string>>)
    ensures RowLines(Filled(rows)) == RowLines(rows)
  {
    if rows == [] {
    } else {
      FilledLines(rows[1..]);
      assert Filled(rows) == [Fill(rows[0])] + Filled(rows[1..]);
      assert ([Fill(rows[0])] + Filled(rows[1..]))[1..] == Filled(rows[1..]);
      if rows[0] == [] {
        RowLineOne("");
      }
    }
  }

  /** Every table, written line by line, is read back cell for cell, but for an empty cell in a row without any. */
  lemma {:induction false} DecodeFills(rows: seq<seq<string>>)
    requires rows != []
    ensures Decode(TableText(rows)) == Some(Filled(rows))
  {
    FilledLines(rows);
    DecodeBack(Filled(rows));
  }

  /** A table is read back as it was exactly when all its rows have cells. */
  lemma {:induction false} TableDecodesIff(rows: seq<seq<string>>)
    requires rows != []
    ensures Decode(TableText(rows)) == Some(rows) <==> forall i :: 0 <= i < |rows| ==> rows[i] != []
  {
    DecodeFills(rows);
    if forall i :: 0 <= i < |rows| ==> rows[i] != [] {
      assert Filled(rows) == rows;
    } else {
      var i :| 0 <= i < |rows| && rows[i] == [];
      assert Filled(rows)[i] != rows[i];
    }
  }

  /** Two tables have the same text exactly when they are the same but for such empty cells. */
  lemma {:induction false} SameTextIff(a: seq<seq<string>>, b: seq<seq<string>>)
    requires a != [] && b != []
    ensures TableText(a) == TableText(b) <==> Filled(a) == Filled(b)
  {
    DecodeFills(a);
    DecodeFills(b);
    FilledLines(a);
    FilledLines(b);
  }

  // ---------------------------------------------------------------- sections

  lemma LinesMore(row: seq<string>, rows: seq<seq<string>>)
    ensures RowLines([row] + rows) == [RowLine(row)] + RowLines(rows)
  {
    assert ([row] + rows)[1..] == rows;
  }

  lemma {:induction false} RowLinesConcat(a: seq<seq<string>>, b: seq<seq<string>>)
    ensures RowLines(a + b) == RowLines(a) + RowLines(b)
  {
    if a == [] {
      assert a + b == b;
    } else {
      RowLinesConcat(a[1..], b);
      assert a == [a[0]] + a[1..] && a + b == [a[0]] + (a[1..] + b);
      LinesMore(a[0], a[1..]);
      LinesMore(a[0], a[1..] + b);
      ConcatAssoc([RowLine(a[0])], RowLines(a[1..]), RowLines(b));
    }
  }

  function TitleCell(title: string): string {
    "=== " + title + " ==="
  }

  /** The table a section amounts to: its title and row count as two cells, header, rows, and an empty cell. */
  function SectionTable(title: string, header: seq<string>, rows: seq<seq<string>>): seq<seq<string>> {
    [[TitleCell(title), "righe=" + Decimal.Print(|rows|)]] + (if header == [] then [] else [header]) + rows + [[""]]
  }

  lemma CountIsPlain(n: nat)
    ensures Plain("righe=" + Decimal.Print(n))
  {
    var b := "righe=" + Decimal.Print(n);
    assert forall i :: 0 <= i < |Decimal.Print(n)| ==> b[i + 6] == Decimal.Print(n)[i] && Decimal.IsDigit(b[i + 6]);
  }

  lemma TitleLine(title: string, n: nat)
    requires Plain(title)
    ensures RowLine([TitleCell(title), "righe=" + Decimal.Print(n)])
         == "=== " + title + " ===;righe=" + Decimal.Print(n)
  {
    var a, b := TitleCell(title), "righe=" + Decimal.Print(n);
    assert Plain(a);
    CountIsPlain(n);
    RowLineMore(a, [b]);
    RowLineOne(b);
    assert [a] + [b] == [a, b];
  }

  lemma {:induction false} SectionLines(title: string, header: seq<string>, rows: seq<seq<string>>)
    requires Plain(title)
    ensures Section(title, header, rows) == RowLines(SectionTable(title, header, rows))
  {
    var first := [TitleCell(title), "righe=" + Decimal.Print(|rows|)];
    var head := if header == [] then [] else [header];
    TitleLine(title, |rows|);
    RowLinesConcat([first], head);
    RowLinesConcat([first] + head, rows);
    RowLinesConcat([first] + head + rows, [[""]]);
    assert RowLines([first]) == [RowLine(first)];
    assert RowLines([header]) == [RowLine(header)];
    assert RowLines([[""]]) == [""];
  }

  /** An unquoted cell stops at the first special character, and at the wrong ones reading fails. */
  lemma {:induction false} ReadPlainStops(s: string, i: nat)
    requires i < |s| && Special(s[i]) && forall j :: 0 <= j < i ==> !Special(s[j])
    ensures ReadPlain(s) == if s[i] == ';' || s[i] == '\n' then Some((s[..i], s[i..])) else None
  {
    if i == 0 {
    } else {
      ReadPlainStops(s[1..], i - 1);
      assert s[..i] == [s[0]] + s[1..][..i - 1];
    }
  }

  lemma FirstCell(s: string)
    requires Decode(s).Some?
    ensures ReadCell(s).Some? && Decode(s).value != [] && Decode(s).value[0] != []
    ensures Decode(s).value[0][0] == ReadCell(s).value.0
  {
  }

  lemma JoinStarts(parts: seq<string>, sep: char)
    requires parts != []
    ensures parts[0] <= Join(parts, sep)
  {
  }

  /** The first special character of a title that is not plain. */
  lemma {:induction false} FirstSpecial(s: string) returns (i: nat)
    requires !Plain(s)
    ensures i < |s| && Special(s[i]) && forall j :: 0 <= j < i ==> !Special(s[j])
  {
    if Special(s[0]) {
      i := 0;
    } else {
      assert !Plain(s[1..]) by {
        var k :| 0 <= k < |s| && Special(s[k]);
        assert s[1..][k - 1] == s[k];
      }
      i := FirstSpecial(s[1..]);
      i := i + 1;
    }
  }

  lemma {:induction false} SpecialTitleIsCut(title: string, header: seq<string>, rows: seq<seq<string>>)
    requires !Plain(title)
    ensures Decode(Join(Section(title, header, rows), '\n')) != Some(Filled(SectionTable(title, header, rows)))
  {
    var lines := Section(title, header, rows);
    var s, cell := Join(lines, '\n'), TitleCell(title);
    var i := FirstSpecial(title);
    JoinStarts(lines, '\n');
    assert lines[0] == cell + (";righe=" + Decimal.Print(|rows|));
    assert forall j :: 0 <= j < |cell| ==> s[j] == lines[0][j] == cell[j];
    assert cell[4 + i] == title[i];
    assert forall j :: 4 <= j < 4 + i ==> cell[j] == title[j - 4];
    ReadPlainStops(s, 4 + i);
    if Decode(s).Some? {
      FirstCell(s);
      assert Filled(SectionTable(title, header, rows))[0] == [cell, "righe=" + Decimal.Print(|rows|)];
    }
  }

  /** A section of the export is read back, for any header and rows, exactly when its title holds no separator, quote
      or line break: the title line is the one line written without csv_cell. */
  lemma {:induction false} SectionDecodesIff(title: string, header: seq<string>, rows: seq<seq<string>>)
    ensures Decode(Join(Section(title, header, rows), '\n')) == Some(Filled(SectionTable(title, header, rows)))
       <==> Plain(title)
  {
    if Plain(title) {
      SectionLines(title, header, rows);
      DecodeFills(SectionTable(title, header, rows));
    } else {
      SpecialTitleIsCut(title, header, rows);
    }
  }
}
