/**
 * The Rich table front end (dolist/rich_table.py, and its identical copy
 * dopy/rich_table.py): `strip_ansi` and the preparation of headers and rows
 * before the table is handed to Rich for drawing.
 */
module RichTable {
  import opened Wrappers
  import Text
  import PrintTable

  const Esc := PrintTable.Esc

  predicate IsParamChar(c: char) { '0' <= c <= '9' || c == ';' }

  /** The length of the run of `[0-9;]` characters at the front of `s`. */
  function ParamRun(s: string): (n: nat)
    ensures n <= |s|
    ensures forall i | 0 <= i < n :: IsParamChar(s[i])
    ensures n < |s| ==> !IsParamChar(s[n])
  {
    if s == [] || !IsParamChar(s[0]) then 0 else 1 + ParamRun(s[1..])
  }

  /**
   * The length of the match of `\x1b\[[0-9;]*m` at the front of `s`, if any. The
   * greedy run cannot give back a character to let `m` match, as `m` is not in it.
   */
  function EscapeAt(s: string): (r: Option<nat>)
    ensures r.Some? ==> 3 <= r.value <= |s| && s[0] == Esc && s[r.value - 1] == 'm'
  {
    if |s| >= 2 && s[0] == Esc && s[1] == '[' then
      var j := 2 + ParamRun(s[2..]);
      if j < |s| && s[j] == 'm' then Some(j + 1) else None
    else None
  }

  /** `strip_ansi(text)`: one left-to-right pass deleting every match. */
  function StripAnsi(s: string): (r: string)
    ensures |r| <= |s|
    decreases |s|
  {
    if s == [] then []
    else match EscapeAt(s)
      case Some(n) => StripAnsi(s[n..])
      case None => [s[0]] + StripAnsi(s[1..])
  }

  /** Text without ESC comes out unchanged. */
  lemma {:induction false} StripAnsiPlain(s: string)
    requires PrintTable.NoEsc(s)
    ensures StripAnsi(s) == s
    decreases |s|
  {
    if s != [] {
      StripAnsiPlain(s[1..]);
      assert [s[0]] + s[1..] == s;
    }
  }

  /** Plain text in front is kept, and the scan goes on after it. */
  lemma {:induction false} StripAnsiPlainPrefix(a: string, b: string)
    requires PrintTable.NoEsc(a)
    ensures StripAnsi(a + b) == a + StripAnsi(b)
    decreases |a|
  {
    if a == [] {
      assert a + b == b;
    } else {
      assert (a + b)[0] == a[0];
      assert (a + b)[1..] == a[1..] + b;
      StripAnsiPlainPrefix(a[1..], b);
      assert [a[0]] + (a[1..] + StripAnsi(b)) == a + StripAnsi(b);
    }
  }

  /** A colour escape in front is deleted whole. */
  lemma StripAnsiColorPrefix(n: nat, b: string)
    ensures StripAnsi(PrintTable.ColorCode(n) + b) == StripAnsi(b)
  {
    var k := PrintTable.ColorCode(n);
    var s := k + b;
    var d := k[2..|k| - 1];
    assert forall i | 0 <= i < |d| :: IsParamChar(d[i]) by {
      forall i | 0 <= i < |d| ensures IsParamChar(d[i]) {
        assert d[i] == Text.NatToString(n)[i];
      }
    }
    assert s[2..] == d + ("m" + b);
    ParamRunStops(d, "m" + b);
    assert s[|k|..] == b;
  }

  lemma {:induction false} ParamRunStops(d: string, rest: string)
    requires forall i | 0 <= i < |d| :: IsParamChar(d[i])
    requires rest != [] && !IsParamChar(rest[0])
    ensures ParamRun(d + rest) == |d|
    decreases |d|
  {
    if d != [] {
      assert (d + rest)[1..] == d[1..] + rest;
      ParamRunStops(d[1..], rest);
    } else {
      assert d + rest == rest;
    }
  }

  lemma {:induction false} StripAnsiRender(ps: seq<PrintTable.Piece>)
    requires PrintTable.PlainRuns(ps)
    ensures StripAnsi(PrintTable.Render(ps)) == PrintTable.Visible(ps)
  {
    if ps != [] {
      assert PrintTable.PlainRuns(ps[1..]) by {
        forall i | 0 <= i < |ps[1..]| ensures ps[1..][i] == ps[i + 1] { }
      }
      StripAnsiRender(ps[1..]);
      match ps[0]
      case Plain(t) =>
        StripAnsiPlainPrefix(t, PrintTable.Render(ps[1..]));
      case Color(n) =>
        StripAnsiColorPrefix(n, PrintTable.Render(ps[1..]));
    }
  }

  /**
   * On styled text made of the colours `cleaned` knows, `strip_ansi` and `cleaned`
   * agree: both give the plain text.
   */
  lemma {:induction false} StripAnsiAgreesWithCleaned(ps: seq<PrintTable.Piece>)
    requires PrintTable.PlainRuns(ps) && PrintTable.ColorsIn(ps, PrintTable.ColorParams)
    ensures StripAnsi(PrintTable.Render(ps)) == PrintTable.Visible(ps) == PrintTable.Cleaned(PrintTable.Render(ps))
  {
    StripAnsiRender(ps);
    PrintTable.CleanedStyled(ps);
  }

  /** A compound escape such as bold red, which no single listed colour matches, is removed whole. */
  lemma StripAnsiCompound(w: string, rest: string)
    requires w == [Esc, '[', '1', ';', '3', '1', 'm']
    ensures StripAnsi(w + rest) == StripAnsi(rest)
  {
    var s := w + rest;
    assert s[2..] == "1;31" + ("m" + rest);
    ParamRunStops("1;31", "m" + rest);
    assert s[7..] == rest;
  }

  // ------------------------------------------------------------- print_table

  /** A column added with `add_column`. */
  datatype ColumnSpec = ColumnSpec(header: string, style: string, rightJustified: bool, noWrap: bool)

  /** `str(item)` for a cell that is a string or None. */
  function CellText(item: Option<string>): string {
    match item
    case Some(t) => t
    case None => "None"
  }

  /** The column for a header: "ID" is right-justified and never wrapped, the rest use the defaults. */
  function HeaderColumn(header: Option<string>): (c: ColumnSpec)
    ensures c.header == StripAnsi(CellText(header)) && c.style == "white"
    ensures c.rightJustified == c.noWrap == (c.header == "ID")
  {
    var clean := StripAnsi(CellText(header));
    if clean == "ID" then ColumnSpec(clean, "white", true, true) else ColumnSpec(clean, "white", false, false)
  }

  /** A data cell: None becomes "", anything else is stripped. */
  function DataCell(item: Option<string>): (r: string)
    ensures item.None? ==> r == ""
    ensures item.Some? ==> r == StripAnsi(item.value)
  {
    if item.None? then "" else StripAnsi(item.value)
  }

  /** A table as Rich receives it. */
  class Table {
    const title: Option<string>
    var columns: seq<ColumnSpec>
    var rows: seq<seq<string>>

    constructor(title: Option<string>)
      ensures this.title == title && columns == [] && rows == []
    {
      this.title := title;
      columns := [];
      rows := [];
    }

    method AddColumn(c: ColumnSpec)
      modifies this
      ensures columns == old(columns) + [c] && rows == old(rows)
    {
      columns := columns + [c];
    }

    method AddRow(cells: seq<string>)
      modifies this
      ensures rows == old(rows) + [cells] && columns == old(columns)
    {
      rows := rows + [cells];
    }
  }

  /** The columns for a header row. */
  function Columns(headers: seq<Option<string>>): (r: seq<ColumnSpec>)
    ensures |r| == |headers|
  {
    if headers == [] then [] else Columns(headers[..|headers| - 1]) + [HeaderColumn(headers[|headers| - 1])]
  }

  function DataRow(row: seq<Option<string>>): (r: seq<string>)
    ensures |r| == |row|
  {
    if row == [] then [] else DataRow(row[..|row| - 1]) + [DataCell(row[|row| - 1])]
  }

  function DataRows(rows: seq<seq<Option<string>>>): (r: seq<seq<string>>)
    ensures |r| == |rows|
  {
    if rows == [] then [] else DataRows(rows[..|rows| - 1]) + [DataRow(rows[|rows| - 1])]
  }

  /** Column `i` carries header `i`, stripped, with the ID column's special style. */
  lemma {:induction false} ColumnsAt(headers: seq<Option<string>>, i: nat)
    requires i < |headers|
    ensures Columns(headers)[i] == HeaderColumn(headers[i])
    ensures Columns(headers)[i].rightJustified <==> StripAnsi(CellText(headers[i])) == "ID"
  {
    if i < |headers| - 1 {
      ColumnsAt(headers[..|headers| - 1], i);
    }
  }

  /** Row `k` keeps its cells in order, each one stripped or emptied. */
  lemma {:induction false} DataRowsAt(rows: seq<seq<Option<string>>>, k: nat, j: nat)
    requires k < |rows| && j < |rows[k]|
    ensures |DataRows(rows)[k]| == |rows[k]|
    ensures DataRows(rows)[k][j] == DataCell(rows[k][j])
  {
    if k < |rows| - 1 {
      DataRowsAt(rows[..|rows| - 1], k, j);
    } else {
      DataRowAt(rows[k], j);
    }
  }

  lemma {:induction false} DataRowAt(row: seq<Option<string>>, j: nat)
    requires j < |row|
    ensures DataRow(row)[j] == DataCell(row[j])
  {
    if j < |row| - 1 {
      DataRowAt(row[..|row| - 1], j);
    }
  }

  /** The list comprehension building `clean_row`. */
  method CleanRow(row: seq<Option<string>>) returns (cleanRow: seq<string>)
    ensures cleanRow == DataRow(row)
  {
    cleanRow := [];
    for j := 0 to |row|
      invariant cleanRow == DataRow(row[..j])
    {
      assert row[..j + 1][..j] == row[..j];
      var cell := if row[j].Some? then StripAnsi(row[j].value) else "";
      cleanRow := cleanRow + [cell];
    }
    assert row[..|row|] == row;
  }

  /**
   * `print_table(rows, title)` up to the hand-off to Rich: no table for no rows;
   * otherwise one column per header of the first row and one table row per later row.
   */
  method PrintRichTable(rows: seq<seq<Option<string>>>, title: Option<string>) returns (table: Table?)
    ensures rows == [] <==> table == null
    ensures table != null ==>
              fresh(table) && table.title == title &&
              table.columns == Columns(rows[0]) && table.rows == DataRows(rows[1..])
  {
    if |rows| < 1 {
      return null;
    }
    table := new Table(title);
    var headers := rows[0];
    for i := 0 to |headers|
      invariant table.columns == Columns(headers[..i]) && table.rows == [] && table.title == title
    {
      assert headers[..i + 1][..i] == headers[..i];
      var cleanHeader := StripAnsi(CellText(headers[i]));
      if cleanHeader == "ID" {
        table.AddColumn(ColumnSpec(cleanHeader, "white", true, true));
      } else {
        table.AddColumn(ColumnSpec(cleanHeader, "white", false, false));
      }
    }
    assert headers[..|headers|] == headers;
    var data := rows[1..];
    for k := 0 to |data|
      invariant table.columns == Columns(headers) && table.rows == DataRows(data[..k]) && table.title == title
    {
      assert data[..k + 1][..k] == data[..k];
      var cleanRow := CleanRow(data[k]);
      table.AddRow(cleanRow);
    }
    assert data[..|data|] == data;
  }
}
