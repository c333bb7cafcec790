/**
 TOON tables: a header, then one comma-separated line per row, with commas, newlines and backslashes in
 cells escaped. A reader gets back the rows that were written.
 */
module Toon {
  import opened Numerals
  import Seqs

  // ---------- what a table is ----------

  function EscapedChar(c: char): (r: string)
    ensures r != ""
  {
    if c == ',' then "\\," else if c == '\n' then "\\n" else if c == '\\' then "\\\\" else [c]
  }

  function Escaped(s: string): string {
    if s == "" then "" else EscapedChar(s[0]) + Escaped(s[1..])
  }

  /** What stands in front of part `i` of a list. */
  function Lead(i: nat): string {
    if i > 0 then "," else ""
  }

  /** Columns from number `i` on, each but the first behind a comma. */
  function ColsFrom(cols: seq<string>, i: nat): string
    requires i <= |cols|
    decreases |cols| - i
  {
    if i == |cols| then "" else Lead(i) + (cols[i] + ColsFrom(cols, i + 1))
  }

  function CellsFrom(row: seq<string>, i: nat): string
    requires i <= |row|
    decreases |row| - i
  {
    if i == |row| then "" else Lead(i) + (Escaped(row[i]) + CellsFrom(row, i + 1))
  }

  function RowText(row: seq<string>): string {
    "  " + (CellsFrom(row, 0) + "\n")
  }

  function RowsFrom(rows: seq<seq<string>>, i: nat): string
    requires i <= |rows|
    decreases |rows| - i
  {
    if i == |rows| then "" else RowText(rows[i]) + RowsFrom(rows, i + 1)
  }

  /** The second line of a table. */
  function ColumnLine(cols: seq<string>, rows: nat): string {
    ("rows[" + Decimal(rows) + "]{") + ColsFrom(cols, 0) + "}:"
  }

  function TableText(title: string, cols: seq<string>, rows: seq<seq<string>>): string {
    title + "\n" + (ColumnLine(cols, |rows|) + "\n" + RowsFrom(rows, 0))
  }

  // ---------- the code ----------

  method EscapeCell(s: string) returns (e: string)
    ensures e == Escaped(s)
  {
    if ',' in s || '\n' in s || '\\' in s {
      e := "";
      for i := 0 to |s|
        invariant e + Escaped(s[i..]) == Escaped(s)
      {
        EscapedNext(e, s[i..]);
        match s[i] {
          case ',' => e := e + "\\,";
          case '\n' => e := e + "\\n";
          case '\\' => e := e + "\\\\";
          case c => e := e + [c];
        }
      }
    } else {
      NothingToEscape(s);
      e := s;
    }
  }

  lemma {:induction false} EscapedNext(before: string, s: string)
    requires s != ""
    ensures before + Escaped(s) == (before + EscapedChar(s[0])) + Escaped(s[1..])
  {
  }

  lemma {:induction false} NothingToEscape(s: string)
    requires ',' !in s && '\n' !in s && '\\' !in s
    ensures Escaped(s) == s
  {
    if s != "" {
      NothingToEscape(s[1..]);
      assert s == [s[0]] + s[1..];
    }
  }

  lemma {:induction false} Regrouped(a: string, b: string, c: string, d: string)
    ensures ((a + b) + c) + d == a + (b + (c + d))
  {
  }

  method AppendColumns(before: string, cols: seq<string>) returns (out: string)
    ensures out == before + ColsFrom(cols, 0)
  {
    out := before;
    for i := 0 to |cols|
      invariant out + ColsFrom(cols, i) == before + ColsFrom(cols, 0)
    {
      Regrouped(out, Lead(i), cols[i], ColsFrom(cols, i + 1));
      if i > 0 {
        out := out + ",";
      } else {
        assert out + Lead(i) == out;
      }
      out := out + cols[i];
    }
    assert out + ColsFrom(cols, |cols|) == out;
  }

  method AppendRow(before: string, row: seq<string>) returns (out: string)
    ensures out == before + RowText(row)
  {
    out := before + "  ";
    ghost var start := out;
    for i := 0 to |row|
      invariant out + CellsFrom(row, i) == start + CellsFrom(row, 0)
    {
      Regrouped(out, Lead(i), Escaped(row[i]), CellsFrom(row, i + 1));
      if i > 0 {
        out := out + ",";
      } else {
        assert out + Lead(i) == out;
      }
      var cell := EscapeCell(row[i]);
      out := out + cell;
    }
    assert out + CellsFrom(row, |row|) == out;
    Regrouped(before, "  ", CellsFrom(row, 0), "\n");
    out := out + "\n";
  }

  method Table(title: string, cols: seq<string>, rows: seq<seq<string>>) returns (out: string)
    ensures out == TableText(title, cols, rows)
  {
    out := title + "\n";
    ghost var first := out;
    out := out + ("rows[" + Decimal(|rows|) + "]{");
    out := AppendColumns(out, cols);
    out := out + "}:\n";
    ghost var start := out;
    HeaderIs(first, "rows[" + Decimal(|rows|) + "]{", ColsFrom(cols, 0), RowsFrom(rows, 0));
    for i := 0 to |rows|
      invariant out + RowsFrom(rows, i) == start + RowsFrom(rows, 0)
    {
      Seqs.Associates(out, RowText(rows[i]), RowsFrom(rows, i + 1));
      out := AppendRow(out, rows[i]);
    }
    assert out + RowsFrom(rows, |rows|) == out;
  }

  lemma {:induction false} HeaderIs(first: string, lead: string, cols: string, rows: string)
    ensures (((first + lead) + cols) + "}:\n") + rows == first + ((lead + cols + "}:") + "\n" + rows)
  {
    assert "}:" + "\n" == "}:\n";
  }

  // ---------- reading a table back ----------

  function UnescapedChar(c: char): char {
    if c == 'n' then '\n' else c
  }

  predicate AtEnd(t: string) {
    t == "" || t[0] == ',' || t[0] == '\n'
  }

  /** Reads a cell up to an unescaped comma or newline; also returns what follows. */
  function ReadCell(t: string): (r: (string, string))
    ensures |r.1| <= |t|
  {
    if AtEnd(t) then ("", t)
    else if t[0] == '\\' && |t| >= 2 then
      var (cell, rest) := ReadCell(t[2..]);
      ([UnescapedChar(t[1])] + cell, rest)
    else
      var (cell, rest) := ReadCell(t[1..]);
      ([t[0]] + cell, rest)
  }

  function ReadCells(t: string): (r: (seq<string>, string))
    ensures |r.1| <= |t|
    decreases |t|
  {
    var (cell, rest) := ReadCell(t);
    if rest != "" && rest[0] == ',' then
      var (cells, more) := ReadCells(rest[1..]);
      ([cell] + cells, more)
    else ([cell], rest)
  }

  /** Reads rows, each indented by two characters and ended by a newline. */
  function ReadRows(t: string): seq<seq<string>>
    decreases |t|
  {
    if |t| < 2 then []
    else
      var (cells, rest) := ReadCells(t[2..]);
      [cells] + ReadRows(if rest == "" then "" else rest[1..])
  }

  /** What follows the first newline. */
  function AfterLine(t: string): string {
    if t == "" then "" else if t[0] == '\n' then t[1..] else AfterLine(t[1..])
  }

  /** Skips the title line and the header, reads the rows. */
  function Read(t: string): seq<seq<string>> {
    ReadRows(AfterLine(AfterLine(t)))
  }

  lemma {:induction false} CellReadBack(s: string, rest: string)
    requires AtEnd(rest)
    ensures ReadCell(Escaped(s) + rest) == (s, rest)
  {
    if s == "" {
      assert Escaped(s) + rest == rest;
    } else {
      var more := Escaped(s[1..]) + rest;
      CellReadBack(s[1..], rest);
      assert Escaped(s) + rest == EscapedChar(s[0]) + more;
      CharReadBack(s[0], more);
      assert [s[0]] + s[1..] == s;
    }
  }

  lemma {:induction false} CharReadBack(c: char, more: string)
    ensures var (cell, rest) := ReadCell(more); ReadCell(EscapedChar(c) + more) == ([c] + cell, rest)
  {
    var t := EscapedChar(c) + more;
    if |EscapedChar(c)| == 2 {
      assert t[0] == '\\' && t[2..] == more && UnescapedChar(t[1]) == c;
    } else {
      assert t[0] == c && t[1..] == more;
    }
  }

  lemma {:induction false} LastCell(cell: string, rest: string)
    requires rest != "" && rest[0] == '\n'
    ensures ReadCells(Escaped(cell) + rest) == ([cell], rest)
  {
    CellReadBack(cell, rest);
  }

  lemma {:induction false} NextCells(cell: string, next: string, cells: seq<string>, rest: string)
    requires ReadCells(next) == (cells, rest)
    ensures ReadCells(Escaped(cell) + ("," + next)) == ([cell] + cells, rest)
  {
    CellReadBack(cell, "," + next);
    assert ("," + next)[1..] == next;
  }

  /** The text of cell `i` and those after it, with what follows the row. */
  function CellsThen(row: seq<string>, i: nat, rest: string): string
    requires i < |row|
  {
    Escaped(row[i]) + (CellsFrom(row, i + 1) + rest)
  }

  lemma {:induction false} CellsThenStep(row: seq<string>, i: nat, rest: string)
    requires i + 1 < |row|
    ensures CellsThen(row, i, rest) == Escaped(row[i]) + ("," + CellsThen(row, i + 1, rest))
  {
    Regrouped("", ",", Escaped(row[i + 1]) + CellsFrom(row, i + 2), rest);
    Seqs.Associates(Escaped(row[i + 1]), CellsFrom(row, i + 2), rest);
    assert CellsFrom(row, i + 1) + rest == "," + CellsThen(row, i + 1, rest);
  }

  lemma {:induction false} CellsReadBack(row: seq<string>, i: nat, rest: string)
    requires i < |row| && rest != "" && rest[0] == '\n'
    ensures ReadCells(CellsThen(row, i, rest)) == (row[i..], rest)
    decreases |row| - i
  {
    if i + 1 == |row| {
      assert CellsFrom(row, i + 1) + rest == rest && row[i..] == [row[i]];
      LastCell(row[i], rest);
    } else {
      CellsReadBack(row, i + 1, rest);
      CellsThenStep(row, i, rest);
      NextCells(row[i], CellsThen(row, i + 1, rest), row[i + 1..], rest);
      ConsAt(row, i);
    }
  }

  /** A row without cells reads as one with a single empty cell; any other row reads as itself. */
  function AsRead(row: seq<string>): seq<string> {
    if row == [] then [""] else row
  }

  lemma {:induction false} RowReadsBack(row: seq<string>, rest: string)
    requires rest != "" && rest[0] == '\n'
    ensures ReadCells(CellsFrom(row, 0) + rest) == (AsRead(row), rest)
  {
    if row == [] {
      assert CellsFrom(row, 0) + rest == rest;
    } else {
      CellsReadBack(row, 0, rest);
      assert CellsFrom(row, 0) == Escaped(row[0]) + CellsFrom(row, 1) by { assert Lead(0) == ""; }
      Seqs.Associates(Escaped(row[0]), CellsFrom(row, 1), rest);
      assert row[0..] == row;
    }
  }

  function AllAsRead(rows: seq<seq<string>>): seq<seq<string>> {
    seq(|rows|, k requires 0 <= k < |rows| => AsRead(rows[k]))
  }

  lemma {:induction false} NextRows(text: string, cells: seq<string>, tail: string)
    requires ReadCells(text + ("\n" + tail)) == (cells, "\n" + tail)
    ensures ReadRows("  " + (text + ("\n" + tail))) == [cells] + ReadRows(tail)
  {
    var t := "  " + (text + ("\n" + tail));
    assert t[2..] == text + ("\n" + tail);
    assert ("\n" + tail)[1..] == tail;
  }

  lemma {:induction false} NextRow(row: seq<string>, tail: string)
    ensures ReadRows(RowText(row) + tail) == [AsRead(row)] + ReadRows(tail)
  {
    RowReadsBack(row, "\n" + tail);
    NextRows(CellsFrom(row, 0), AsRead(row), tail);
    RowTextThen(row, tail);
  }

  lemma {:induction false} ConsAt<T>(s: seq<T>, i: nat)
    requires i < |s|
    ensures s[i..] == [s[i]] + s[i + 1..]
  {
  }

  lemma {:induction false} RowsReadBack(rows: seq<seq<string>>, i: nat, all: seq<seq<string>>)
    requires i <= |rows| == |all| && forall k :: 0 <= k < |rows| ==> all[k] == AsRead(rows[k])
    ensures ReadRows(RowsFrom(rows, i)) == all[i..]
    decreases |rows| - i
  {
    if i == |rows| {
      assert all[i..] == [];
    } else {
      var tail := RowsFrom(rows, i + 1);
      RowsReadBack(rows, i + 1, all);
      NextRow(rows[i], tail);
      ConsAt(all, i);
      assert ReadRows(RowText(rows[i]) + tail) == [all[i]] + all[i + 1..];
    }
  }

  lemma {:induction false} RowTextThen(row: seq<string>, tail: string)
    ensures RowText(row) + tail == "  " + (CellsFrom(row, 0) + ("\n" + tail))
  {
    Regrouped("  ", CellsFrom(row, 0), "\n", tail);
    Seqs.Associates("  ", CellsFrom(row, 0), "\n");
  }

  lemma {:induction false} LineSkipped(line: string, rest: string)
    requires '\n' !in line
    ensures AfterLine(line + "\n" + rest) == rest
  {
    if line == "" {
      assert (line + "\n" + rest)[1..] == rest;
    } else {
      LineSkipped(line[1..], rest);
      assert (line + "\n" + rest)[1..] == line[1..] + "\n" + rest;
    }
  }

  lemma {:induction false} ColsArePlain(cols: seq<string>, i: nat)
    requires i <= |cols| && forall c :: c in cols ==> '\n' !in c
    ensures '\n' !in ColsFrom(cols, i)
    decreases |cols| - i
  {
    if i < |cols| { ColsArePlain(cols, i + 1); }
  }

  /** A table reads as its rows exactly if each of them has a cell. */
  lemma {:induction false} ReadExactly(rows: seq<seq<string>>)
    ensures AllAsRead(rows) == rows <==> forall k :: 0 <= k < |rows| ==> rows[k] != []
  {
    if AllAsRead(rows) == rows {
      forall k | 0 <= k < |rows| ensures rows[k] != [] { assert AllAsRead(rows)[k] == AsRead(rows[k]); }
    }
  }

  /**
   The text of a table reads back as the rows it was made from exactly if no row is without cells; a
   row without cells is written like a row with one empty cell. Title and column names are single lines.
   */
  lemma {:induction false} TableReadsBack(title: string, cols: seq<string>, rows: seq<seq<string>>)
    requires '\n' !in title && forall c :: c in cols ==> '\n' !in c
    ensures Read(TableText(title, cols, rows)) == AllAsRead(rows)
    ensures Read(TableText(title, cols, rows)) == rows <==> forall k :: 0 <= k < |rows| ==> rows[k] != []
  {
    DecimalIsPlain(|rows|);
    ColsArePlain(cols, 0);
    LineSkipped(title, ColumnLine(cols, |rows|) + "\n" + RowsFrom(rows, 0));
    LineSkipped(ColumnLine(cols, |rows|), RowsFrom(rows, 0));
    RowsReadBack(rows, 0, AllAsRead(rows));
    assert AllAsRead(rows)[0..] == AllAsRead(rows);
    ReadExactly(rows);
  }

  lemma {:induction false} RowsSameText(rows: seq<seq<string>>, all: seq<seq<string>>, i: nat)
    requires i <= |rows| == |all| && forall k :: 0 <= k < |rows| ==> all[k] == AsRead(rows[k])
    ensures RowsFrom(all, i) == RowsFrom(rows, i)
    decreases |rows| - i
  {
    if i < |rows| {
      RowsSameText(rows, all, i + 1);
      RowSameText(rows[i]);
    }
  }

  lemma {:induction false} RowSameText(row: seq<string>)
    ensures RowText(AsRead(row)) == RowText(row)
  {
    if row == [] {
      assert CellsFrom([""], 1) == "" && Escaped("") == "";
      assert CellsFrom([""], 0) == "" == CellsFrom(row, 0);
    }
  }

  /**
   Two lists of rows are written as the same table iff they differ at most by having a row without
   cells where the other has a row with one empty cell; and no two others are confused.
   */
  lemma {:induction false} EmptyRowIsAmbiguous(title: string, cols: seq<string>, a: seq<seq<string>>, b: seq<seq<string>>)
    requires '\n' !in title && forall c :: c in cols ==> '\n' !in c
    ensures TableText(title, cols, a) == TableText(title, cols, b) <==> AllAsRead(a) == AllAsRead(b)
  {
    TableReadsBack(title, cols, a);
    TableReadsBack(title, cols, b);
    RowsSameText(a, AllAsRead(a), 0);
    RowsSameText(b, AllAsRead(b), 0);
  }
}
