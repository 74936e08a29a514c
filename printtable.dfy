/**
 * The ASCII box printer of the older command-line front end (dopy/printtable.py):
 * colour escapes are stripped to measure cells, cells are padded and aligned, and
 * each row is drawn between `|` separators with optional `+---+` border lines.
 * Output goes to a list of lines instead of stdout.
 */
module PrintTable {
  import opened Wrappers
  import opened Text

  const Esc: char := '\U{1B}'

  /** The SGR parameters of the colour escapes `cleaned` removes, in the order it removes them. */
  const ColorParams: seq<nat> := [0, 33, 32, 31, 30, 37, 36, 35, 34, 8, 5, 4, 7, 1, 0, 2, 42, 43, 40, 41, 46, 0, 44, 47, 45]

  /** An escape `ESC [ ... m` whose inner characters are neither ESC nor `m`. */
  predicate IsCode(k: string) {
    |k| >= 3 && k[0] == Esc && k[1] == '[' && k[|k| - 1] == 'm' &&
    forall i | 1 <= i < |k| - 1 :: k[i] != Esc && k[i] != 'm'
  }

  predicate NoEsc(s: string) { forall i | 0 <= i < |s| :: s[i] != Esc }

  /** Text no escape can start in or end in: no ESC and no `m`. */
  predicate Inert(s: string) { forall i | 0 <= i < |s| :: s[i] != Esc && s[i] != 'm' }

  /** The colour escape `ESC [ n m`. */
  function ColorCode(n: nat): (k: string)
    ensures IsCode(k)
  {
    var d := NatToString(n);
    assert forall i | 0 <= i < |d| :: IsDigit(d[i]);
    [Esc, '['] + d + ['m']
  }

  function Spaces(n: nat): (s: string)
    ensures |s| == n && Inert(s)
  {
    seq(n, _ => ' ')
  }

  // ------------------------------------------------------------- str.replace(pat, '')

  /** `s.replace(pat, '')`: occurrences are removed in one left-to-right, non-overlapping scan. */
  function Remove(s: string, pat: string): (r: string)
    requires pat != []
    ensures |r| <= |s|
    decreases |s|
  {
    if |s| < |pat| then s
    else if s[..|pat|] == pat then Remove(s[|pat|..], pat)
    else [s[0]] + Remove(s[1..], pat)
  }

  lemma {:induction false} RemovePlain(s: string, pat: string)
    requires NoEsc(s) && pat != [] && pat[0] == Esc
    ensures Remove(s, pat) == s
    decreases |s|
  {
    if |s| >= |pat| {
      assert s[..|pat|][0] != pat[0];
      RemovePlain(s[1..], pat);
      assert [s[0]] + s[1..] == s;
    }
  }

  /** Text without ESC in front of `t` is kept and the scan goes on in `t`. */
  lemma {:induction false} RemovePlainPrefix(s: string, t: string, pat: string)
    requires NoEsc(s) && pat != [] && pat[0] == Esc
    ensures Remove(s + t, pat) == s + Remove(t, pat)
    decreases |s|
  {
    if s == [] {
      assert s + t == t;
    } else if |s + t| < |pat| {
      assert Remove(t, pat) == t;
    } else {
      assert (s + t)[..|pat|][0] != pat[0];
      assert (s + t)[1..] == s[1..] + t;
      RemovePlainPrefix(s[1..], t, pat);
      assert [s[0]] + (s[1..] + Remove(t, pat)) == s + Remove(t, pat);
    }
  }

  /** Inert text after `t` takes no part in any occurrence of an escape. */
  lemma {:induction false} RemoveInertSuffix(t: string, u: string, pat: string)
    requires Inert(u) && IsCode(pat)
    ensures Remove(t + u, pat) == Remove(t, pat) + u
    decreases |t|
  {
    if t == [] {
      assert t + u == u;
      RemovePlain(u, pat);
    } else if |t + u| < |pat| {
    } else if (t + u)[..|pat|] == pat {
      assert t[..|pat|] == pat;
      assert (t + u)[|pat|..] == t[|pat|..] + u;
      RemoveInertSuffix(t[|pat|..], u, pat);
    } else {
      assert (t + u)[1..] == t[1..] + u;
      RemoveInertSuffix(t[1..], u, pat);
      if |t| >= |pat| {
        assert t[..|pat|] == (t + u)[..|pat|];
      } else {
        assert Remove(t[1..], pat) == t[1..];
        assert [t[0]] + t[1..] == t;
      }
    }
  }

  /** A different escape never matches at the start of `k + t`: the `m` ends each of them. */
  lemma {:induction false} CodeNotPrefix(k: string, t: string, pat: string)
    requires IsCode(k) && IsCode(pat) && k != pat && |k + t| >= |pat|
    ensures (k + t)[..|pat|] != pat
  {
    if |pat| == |k| {
      assert (k + t)[..|pat|] == k;
    } else if |pat| < |k| {
      assert (k + t)[..|pat|][|pat| - 1] == k[|pat| - 1];
    } else {
      assert (k + t)[..|pat|][|k| - 1] == k[|k| - 1];
    }
  }

  /** A whole escape in front of `t`: dropped if it is `pat`, kept whole otherwise. */
  lemma {:induction false} RemoveCodePrefix(k: string, t: string, pat: string)
    requires IsCode(k) && IsCode(pat)
    ensures Remove(k + t, pat) == if k == pat then Remove(t, pat) else k + Remove(t, pat)
  {
    if k == pat {
      assert (k + t)[..|pat|] == k;
      assert (k + t)[|pat|..] == t;
    } else if |k + t| < |pat| {
      assert Remove(t, pat) == t;
    } else {
      CodeNotPrefix(k, t, pat);
      assert (k + t)[1..] == k[1..] + t;
      assert NoEsc(k[1..]) by {
        forall i | 0 <= i < |k[1..]| ensures k[1..][i] != Esc {
          assert k[1..][i] == k[i + 1];
        }
      }
      RemovePlainPrefix(k[1..], t, pat);
      assert [k[0]] + (k[1..] + Remove(t, pat)) == k + Remove(t, pat);
    }
  }

  // ------------------------------------------------------------- cleaned

  /** `cleaned(c)`: the text of a cell without its colour escapes. */
  function Cleaned(s: string): (r: string)
    ensures |r| <= |s|
  {
    RemoveCodes(s, ColorParams)
  }

  /** `s` after the rounds of `for color in colors: c = c.replace(color, '')` for the escapes of `params`. */
  function RemoveCodes(s: string, params: seq<nat>): (r: string)
    ensures |r| <= |s|
  {
    if params == [] then s else Remove(RemoveCodes(s, params[..|params| - 1]), ColorCode(params[|params| - 1]))
  }

  /** `cleaned` itself, as the loop over the escape list. */
  method Clean(c: string) returns (r: string)
    ensures r == Cleaned(c)
  {
    r := RemoveEach(c, ColorParams);
  }

  /** The loop of `cleaned`: one `replace` per escape of `params`, in order. */
  method RemoveEach(c: string, params: seq<nat>) returns (r: string)
    ensures r == RemoveCodes(c, params)
  {
    r := c;
    var i := 0;
    while i < |params|
      invariant 0 <= i <= |params|
      invariant r == RemoveCodes(c, params[..i])
    {
      assert params[..i + 1][..i] == params[..i];
      r := Remove(r, ColorCode(params[i]));
      i := i + 1;
    }
    assert params[..i] == params;
  }

  lemma {:induction false} RemoveCodesPlain(s: string, params: seq<nat>)
    requires NoEsc(s)
    ensures RemoveCodes(s, params) == s
  {
    if params != [] {
      RemoveCodesPlain(s, params[..|params| - 1]);
      RemovePlain(s, ColorCode(params[|params| - 1]));
    }
  }

  lemma {:induction false} RemoveCodesPrefix(s: string, t: string, params: seq<nat>)
    requires NoEsc(s)
    ensures RemoveCodes(s + t, params) == s + RemoveCodes(t, params)
  {
    if params != [] {
      var init := params[..|params| - 1];
      RemoveCodesPrefix(s, t, init);
      RemovePlainPrefix(s, RemoveCodes(t, init), ColorCode(params[|params| - 1]));
    }
  }

  lemma {:induction false} RemoveCodesSuffix(t: string, u: string, params: seq<nat>)
    requires Inert(u)
    ensures RemoveCodes(t + u, params) == RemoveCodes(t, params) + u
  {
    if params != [] {
      var init := params[..|params| - 1];
      RemoveCodesSuffix(t, u, init);
      RemoveInertSuffix(RemoveCodes(t, init), u, ColorCode(params[|params| - 1]));
    }
  }

  /** Text without ESC is left as it is. */
  lemma {:induction false} CleanedPlain(s: string)
    requires NoEsc(s)
    ensures Cleaned(s) == s
  {
    RemoveCodesPlain(s, ColorParams);
  }

  /** Padding with spaces on either side passes through `cleaned` unchanged. */
  lemma {:induction false} CleanedPadded(a: nat, s: string, b: nat)
    ensures Cleaned(Spaces(a) + s + Spaces(b)) == Spaces(a) + Cleaned(s) + Spaces(b)
  {
    RemoveCodesSuffix(Spaces(a) + s, Spaces(b), ColorParams);
    RemoveCodesPrefix(Spaces(a), s, ColorParams);
  }

  /** Styled text: runs of plain text (without ESC) and colour escapes. */
  datatype Piece = Plain(text: string) | Color(param: nat)

  function PieceText(p: Piece): string {
    match p
    case Plain(t) => t
    case Color(n) => ColorCode(n)
  }

  function Render(ps: seq<Piece>): string {
    if ps == [] then "" else PieceText(ps[0]) + Render(ps[1..])
  }

  /** The plain text of styled text, escapes left out. */
  function Visible(ps: seq<Piece>): string {
    if ps == [] then "" else (if ps[0].Plain? then ps[0].text else "") + Visible(ps[1..])
  }

  predicate PlainRuns(ps: seq<Piece>) {
    forall i | 0 <= i < |ps| :: ps[i].Plain? ==> NoEsc(ps[i].text)
  }

  /** Every escape in `ps` is one of `params`' escapes. */
  predicate ColorsIn(ps: seq<Piece>, params: seq<nat>) {
    forall i | 0 <= i < |ps| :: ps[i].Color? ==> ps[i].param in params
  }

  /** `ps` without the escapes that spell `ColorCode(n)`. */
  function DropColor(ps: seq<Piece>, n: nat): (r: seq<Piece>)
    ensures |r| <= |ps|
  {
    if ps == [] then []
    else if ps[0].Color? && ColorCode(ps[0].param) == ColorCode(n) then DropColor(ps[1..], n)
    else [ps[0]] + DropColor(ps[1..], n)
  }

  lemma {:induction false} RemoveRender(ps: seq<Piece>, n: nat)
    requires PlainRuns(ps)
    ensures Remove(Render(ps), ColorCode(n)) == Render(DropColor(ps, n))
  {
    if ps != [] {
      assert PlainRuns(ps[1..]) by {
        forall i | 0 <= i < |ps[1..]| ensures ps[1..][i].Plain? ==> NoEsc(ps[1..][i].text) {
          assert ps[1..][i] == ps[i + 1];
        }
      }
      RemoveRender(ps[1..], n);
      var rest := DropColor(ps[1..], n);
      match ps[0]
      case Plain(t) =>
        RemovePlainPrefix(t, Render(ps[1..]), ColorCode(n));
        assert ([ps[0]] + rest)[1..] == rest;
      case Color(m) =>
        RemoveCodePrefix(ColorCode(m), Render(ps[1..]), ColorCode(n));
        assert ([ps[0]] + rest)[1..] == rest;
    }
  }

  /** Dropping one escape keeps the plain runs, the visible text and the other escapes. */
  lemma {:induction false} DropColorKeeps(ps: seq<Piece>, n: nat, params: seq<nat>)
    requires PlainRuns(ps) && ColorsIn(ps, [n] + params)
    ensures PlainRuns(DropColor(ps, n)) && ColorsIn(DropColor(ps, n), params)
    ensures Visible(DropColor(ps, n)) == Visible(ps)
  {
    if ps != [] {
      assert PlainRuns(ps[1..]) && ColorsIn(ps[1..], [n] + params) by {
        forall i | 0 <= i < |ps[1..]| ensures ps[1..][i] == ps[i + 1] { }
      }
      DropColorKeeps(ps[1..], n, params);
      var rest := DropColor(ps[1..], n);
      if !(ps[0].Color? && ColorCode(ps[0].param) == ColorCode(n)) {
        var r := [ps[0]] + rest;
        assert r[1..] == rest;
        forall i | 0 <= i < |r| ensures r[i] == if i == 0 then ps[0] else rest[i - 1] { }
      }
    }
  }

  lemma {:induction false} RenderNoColors(ps: seq<Piece>)
    requires ColorsIn(ps, [])
    ensures Render(ps) == Visible(ps)
  {
    if ps != [] {
      assert ColorsIn(ps[1..], []) by {
        forall i | 0 <= i < |ps[1..]| ensures ps[1..][i].Color? ==> ps[1..][i].param in [] {
          assert ps[1..][i] == ps[i + 1];
        }
      }
      RenderNoColors(ps[1..]);
    }
  }

  /** `ps` without the escapes of `params`, dropped in order. */
  function DropColors(ps: seq<Piece>, params: seq<nat>): seq<Piece> {
    if params == [] then ps else DropColor(DropColors(ps, params[..|params| - 1]), params[|params| - 1])
  }

  /**
   * Removing the escapes of `params` from styled text whose escapes are those of
   * `params + rest` drops exactly those pieces: the plain text is intact and only the
   * escapes of `rest` are left.
   */
  lemma {:induction false} RemoveCodesRender(ps: seq<Piece>, params: seq<nat>, rest: seq<nat>)
    requires PlainRuns(ps) && ColorsIn(ps, params + rest)
    ensures RemoveCodes(Render(ps), params) == Render(DropColors(ps, params))
    ensures PlainRuns(DropColors(ps, params)) && ColorsIn(DropColors(ps, params), rest)
    ensures Visible(DropColors(ps, params)) == Visible(ps)
  {
    if params == [] {
      assert params + rest == rest;
    } else {
      var init, last := params[..|params| - 1], params[|params| - 1];
      assert params + rest == init + ([last] + rest);
      RemoveCodesRender(ps, init, [last] + rest);
      DropStep(DropColors(ps, init), last, rest);
    }
  }

  /** One round of `cleaned` on styled text: the escape goes, everything else stays. */
  lemma DropStep(d: seq<Piece>, p: nat, rest: seq<nat>)
    requires PlainRuns(d) && ColorsIn(d, [p] + rest)
    ensures Remove(Render(d), ColorCode(p)) == Render(DropColor(d, p))
    ensures PlainRuns(DropColor(d, p)) && ColorsIn(DropColor(d, p), rest)
    ensures Visible(DropColor(d, p)) == Visible(d)
  {
    RemoveRender(d, p);
    DropColorKeeps(d, p, rest);
  }

  /**
   * `cleaned` on styled text built from the listed escapes gives exactly its plain text:
   * every listed escape goes, every other character stays, in order.
   */
  lemma {:induction false} CleanedStyled(ps: seq<Piece>)
    requires PlainRuns(ps) && ColorsIn(ps, ColorParams)
    ensures Cleaned(Render(ps)) == Visible(ps)
  {
    assert ColorParams + [] == ColorParams;
    RemoveCodesRender(ps, ColorParams, []);
    RenderNoColors(DropColors(ps, ColorParams));
  }

  // ------------------------------------------------------------- max_cell_length

  /** The visible width of a cell. */
  function CleanedLength(c: string): nat { |Cleaned(c)| }

  /** The largest `width` among `cells`, 0 for none. */
  function MaxWidth(cells: seq<string>, width: string -> nat): nat {
    if cells == [] then 0
    else
      var m := MaxWidth(cells[..|cells| - 1], width);
      var n := width(cells[|cells| - 1]);
      if n > m then n else m
  }

  /** The maximum is an upper bound of every width and is reached by one of them. */
  lemma {:induction false} MaxWidthIsMax(cells: seq<string>, width: string -> nat)
    ensures forall i | 0 <= i < |cells| :: width(cells[i]) <= MaxWidth(cells, width)
    ensures cells == [] ==> MaxWidth(cells, width) == 0
    ensures cells != [] ==> exists i | 0 <= i < |cells| :: width(cells[i]) == MaxWidth(cells, width)
  {
    if cells != [] {
      var init := cells[..|cells| - 1];
      MaxWidthIsMax(init, width);
      forall i | 0 <= i < |cells| ensures width(cells[i]) <= MaxWidth(cells, width) {
        if i < |init| { assert cells[i] == init[i]; }
      }
      if width(cells[|cells| - 1]) < MaxWidth(cells, width) {
        var j :| 0 <= j < |init| && width(init[j]) == MaxWidth(init, width);
        assert cells[j] == init[j];
      }
    }
  }

  /** `max_cell_length(cells)`. */
  method MaxCellLength(cells: seq<string>) returns (maxLen: nat)
    ensures maxLen == MaxWidth(cells, CleanedLength)
  {
    maxLen := 0;
    var i := 0;
    while i < |cells|
      invariant 0 <= i <= |cells|
      invariant maxLen == MaxWidth(cells[..i], CleanedLength)
    {
      assert cells[..i + 1][..i] == cells[..i];
      var clean := Clean(cells[i]);
      var curLen := |clean|;
      if curLen > maxLen {
        maxLen := curLen;
      }
      i := i + 1;
    }
    assert cells[..i] == cells;
  }

  // ------------------------------------------------------------- align_cell_content

  /** Python's `s[:n]`, negative `n` counting from the end. */
  function PrefixSlice(s: string, n: int): (r: string)
    ensures |r| <= |s|
  {
    if n >= 0 then s[..if n < |s| then n else |s|]
    else s[..if |s| + n > 0 then |s| + n else 0]
  }

  /**
   * `align_cell_content(cell, maxLen, alignment, truncate)`: 0 aligns left, 1 right,
   * anything else centres with the odd space in front.
   */
  function AlignCellContent(cell: string, maxLen: int, alignment: int, truncate: bool): (r: string)
    ensures maxLen == 0 || |Cleaned(cell)| == maxLen ==> r == cell
    ensures maxLen != 0 && maxLen < |Cleaned(cell)| ==> r == if truncate then PrefixSlice(cell, maxLen) else cell
  {
    if maxLen == 0 then cell
    else
      var padding := maxLen - |Cleaned(cell)|;
      if padding == 0 then cell
      else if padding < 0 then (if truncate then PrefixSlice(cell, maxLen) else cell)
      else if alignment == 0 then cell + Spaces(padding)
      else if alignment == 1 then Spaces(padding) + cell
      else
        var left := (padding + 1) / 2;
        Spaces(left) + cell + Spaces(padding - left)
  }

  /**
   * A cell narrower than `maxLen` is padded to exactly `maxLen` visible characters, the
   * original text sitting at the front, at the back, or after ceil(padding / 2) spaces.
   */
  lemma AlignPads(cell: string, maxLen: int, alignment: int, truncate: bool)
    requires |Cleaned(cell)| < maxLen
    ensures var r := AlignCellContent(cell, maxLen, alignment, truncate);
            var padding := maxLen - |Cleaned(cell)|;
            var left := if alignment == 0 then 0 else if alignment == 1 then padding else (padding + 1) / 2;
            |Cleaned(r)| == maxLen && |r| == |cell| + padding &&
            r == Spaces(left) + cell + Spaces(padding - left)
  {
    var padding := maxLen - |Cleaned(cell)|;
    var left := if alignment == 0 then 0 else if alignment == 1 then padding else (padding + 1) / 2;
    PaddedContent(cell, maxLen, alignment, truncate);
    PaddedWidth(cell, left, padding - left);
  }

  /** Which spaces go where, for a cell narrower than `maxLen`. */
  lemma PaddedContent(cell: string, maxLen: int, alignment: int, truncate: bool)
    requires |Cleaned(cell)| < maxLen
    ensures var padding := maxLen - |Cleaned(cell)|;
            var left := if alignment == 0 then 0 else if alignment == 1 then padding else (padding + 1) / 2;
            AlignCellContent(cell, maxLen, alignment, truncate) == Spaces(left) + cell + Spaces(padding - left)
  {
    var padding := maxLen - |Cleaned(cell)|;
    if alignment == 0 {
      assert Spaces(0) + cell + Spaces(padding) == cell + Spaces(padding);
    } else if alignment == 1 {
      assert Spaces(padding) + cell + Spaces(0) == Spaces(padding) + cell;
    }
  }

  /** Spaces on either side add their count to both the raw and the visible width. */
  lemma PaddedWidth(cell: string, a: nat, b: nat)
    ensures |Spaces(a) + cell + Spaces(b)| == a + |cell| + b
    ensures |Cleaned(Spaces(a) + cell + Spaces(b))| == a + |Cleaned(cell)| + b
  {
    CleanedPadded(a, cell, b);
  }

  // ------------------------------------------------------------- get_column

  /**
   * `get_column(matrix, column)` as written: its guard `len(row) >= column` lets a row of
   * exactly `column` cells through to `row[column]`, which raises IndexError.
   */
  function ColumnAsWritten(matrix: seq<seq<string>>, column: nat): (r: Result<seq<string>>)
    ensures r.Ok? ==> |r.value| == |matrix|
  {
    if matrix == [] then Ok([])
    else
      var col :- ColumnAsWritten(matrix[..|matrix| - 1], column);
      var row := matrix[|matrix| - 1];
      if |row| >= column then
        if column < |row| then Ok(col + [row[column]]) else Err(IndexError)
      else Ok(col + [""])
  }

  /** A row's cell `column`, or "" for a row without one. */
  function CellOf(row: seq<string>, column: nat): string {
    if column < |row| then row[column] else ""
  }

  /** The column as intended: per row, its cell `column` or "". */
  function Column(matrix: seq<seq<string>>, column: nat): (r: seq<string>)
    ensures |r| == |matrix|
  {
    if matrix == [] then [] else Column(matrix[..|matrix| - 1], column) + [CellOf(matrix[|matrix| - 1], column)]
  }

  lemma {:induction false} ColumnAt(matrix: seq<seq<string>>, column: nat, i: nat)
    requires i < |matrix|
    ensures Column(matrix, column)[i] == CellOf(matrix[i], column)
  {
    if i < |matrix| - 1 {
      ColumnAt(matrix[..|matrix| - 1], column, i);
    }
  }

  /** A single one-cell row asked for column 1 raises IndexError instead of giving `[""]`. */
  lemma {:induction false} ColumnBoundaryRaises()
    ensures ColumnAsWritten([["a"]], 1) == Err(IndexError)
    ensures Column([["a"]], 1) == [""]
  {
    assert [["a"]][..0] == [];
  }

  /** The written guard fails exactly when some row has `column` cells, and agrees otherwise. */
  lemma {:induction false} ColumnAsWrittenAgrees(matrix: seq<seq<string>>, column: nat)
    ensures ColumnAsWritten(matrix, column) ==
            if exists i | 0 <= i < |matrix| :: |matrix[i]| == column then Err(IndexError)
            else Ok(Column(matrix, column))
  {
    if matrix != [] {
      var init := matrix[..|matrix| - 1];
      ColumnAsWrittenAgrees(init, column);
      var hit := exists i | 0 <= i < |matrix| :: |matrix[i]| == column;
      if exists i | 0 <= i < |init| :: |init[i]| == column {
        var i :| 0 <= i < |init| && |init[i]| == column;
        assert matrix[i] == init[i];
      } else if |matrix[|matrix| - 1]| == column {
      } else {
        assert !hit by {
          forall i | 0 <= i < |matrix| ensures |matrix[i]| != column {
            if i < |init| { assert matrix[i] == init[i]; }
          }
        }
      }
    } else {
      assert Column(matrix, column) == [];
    }
  }

  /** `get_column` with the guard corrected to `len(row) > column`. */
  method GetColumn(matrix: seq<seq<string>>, column: nat) returns (col: seq<string>)
    ensures |col| == |matrix|
    ensures forall i | 0 <= i < |matrix| :: col[i] == if column < |matrix[i]| then matrix[i][column] else ""
    ensures col == Column(matrix, column)
  {
    col := [];
    for i := 0 to |matrix|
      invariant col == Column(matrix[..i], column)
    {
      assert matrix[..i + 1][..i] == matrix[..i];
      var row := matrix[i];
      var cell := "";
      if |row| > column {
        cell := row[column];
      }
      col := col + [cell];
    }
    assert matrix[..|matrix|] == matrix;
    forall i | 0 <= i < |matrix|
      ensures col[i] == if column < |matrix[i]| then matrix[i][column] else ""
    {
      ColumnAt(matrix, column, i);
    }
  }

  // ------------------------------------------------------------- print_table_row

  const RowTypeError := "ERROR: A line has to be of the type list."

  /** The row line: "|", then every cell followed by "|". */
  function RowLine(cells: seq<string>): string {
    if cells == [] then "|" else RowLine(cells[..|cells| - 1]) + cells[|cells| - 1] + "|"
  }

  function Dashes(n: nat): (s: string)
    ensures |s| == n
  {
    seq(n, _ => '-')
  }

  /** A cell's width for the border: cleaned when a border is drawn, raw otherwise. */
  function CellWidth(cell: string, clean: bool): nat {
    if clean then |Cleaned(cell)| else |cell|
  }

  /** The separator line: "+", then per cell one '-' per measured character and a "+". */
  function Border(cells: seq<string>, clean: bool): string {
    if cells == [] then "+"
    else Border(cells[..|cells| - 1], clean) + Dashes(CellWidth(cells[|cells| - 1], clean)) + "+"
  }

  /** What `print_table_row(cells, top, bottom)` prints: the row, with the separator before and/or after. */
  function RowLines(cells: seq<string>, top: bool, bottom: bool): seq<string> {
    var sep := Border(cells, true);
    (if top then [sep] else []) + [RowLine(cells)] + (if bottom then [sep] else [])
  }

  /** `print_table_row(row, top_border, bottom_border)`; `None` stands for an argument that is not a list. */
  method PrintTableRow(row: Option<seq<string>>, topBorder: bool, bottomBorder: bool) returns (code: int, lines: seq<string>)
    ensures row.None? ==> code == 1 && lines == [RowTypeError]
    ensures row.Some? ==> code == 0 && lines == RowLines(row.value, topBorder, bottomBorder)
  {
    if row.None? {
      return 1, [RowTypeError];
    }
    var cells := row.value;
    var sep := "+";
    var out := "|";
    for c := 0 to |cells|
      invariant sep == Border(cells[..c], topBorder || bottomBorder)
      invariant out == RowLine(cells[..c])
    {
      assert cells[..c + 1][..c] == cells[..c];
      var lenCol: nat;
      if topBorder || bottomBorder {
        var clean := Clean(cells[c]);
        lenCol := |clean|;
      } else {
        lenCol := |cells[c]|;
      }
      sep := sep + Dashes(lenCol) + "+";
      out := out + cells[c] + "|";
    }
    assert cells[..|cells|] == cells;
    lines := [];
    if topBorder {
      lines := lines + [sep];
    }
    lines := lines + [out];
    if bottomBorder {
      lines := lines + [sep];
    }
    code := 0;
  }

  /** The row line opens and closes with "|" and, for cells without "|", has one per cell boundary. */
  lemma {:induction false} RowLineShape(cells: seq<string>)
    ensures var line := RowLine(cells); |line| >= 1 && line[0] == '|' && line[|line| - 1] == '|'
    ensures (forall j | 0 <= j < |cells| :: CountChar(cells[j], '|') == 0) ==>
            CountChar(RowLine(cells), '|') == |cells| + 1
  {
    if cells != [] {
      var init := cells[..|cells| - 1];
      RowLineShape(init);
      CountCharConcat(RowLine(init) + cells[|cells| - 1], "|", '|');
      CountCharConcat(RowLine(init), cells[|cells| - 1], '|');
      assert ["|"[0]] == "|";
      if forall j | 0 <= j < |cells| :: CountChar(cells[j], '|') == 0 {
        assert forall j | 0 <= j < |init| :: CountChar(init[j], '|') == 0 by {
          forall j | 0 <= j < |init| ensures CountChar(init[j], '|') == 0 {
            assert init[j] == cells[j];
          }
        }
      }
    }
  }

  /** The border has a "+" per cell boundary and is as long as the cells are wide. */
  lemma {:induction false} BorderShape(cells: seq<string>, clean: bool)
    ensures CountChar(Border(cells, clean), '+') == |cells| + 1
    ensures forall i | 0 <= i < |Border(cells, clean)| :: Border(cells, clean)[i] in "+-"
  {
    if cells != [] {
      var init := cells[..|cells| - 1];
      var d := Dashes(CellWidth(cells[|cells| - 1], clean));
      BorderShape(init, clean);
      CountCharConcat(Border(init, clean) + d, "+", '+');
      CountCharConcat(Border(init, clean), d, '+');
      CountCharAbsent(d, '+');
      assert ["+"[0]] == "+";
      var b := Border(cells, clean);
      forall i | 0 <= i < |b| ensures b[i] in "+-" {
        if i < |Border(init, clean)| {
          assert b[i] == Border(init, clean)[i];
        } else if i < |Border(init, clean)| + |d| {
          assert b[i] == d[i - |Border(init, clean)|];
        }
      }
    }
  }

  /** For cells without escapes the border is exactly as long as the row line. */
  lemma {:induction false} BorderFitsRow(cells: seq<string>)
    requires forall j | 0 <= j < |cells| :: NoEsc(cells[j])
    ensures |Border(cells, true)| == |RowLine(cells)|
  {
    if cells != [] {
      BorderFitsRow(cells[..|cells| - 1]);
      CleanedPlain(cells[|cells| - 1]);
    }
  }

  /** Rows whose cells have the same widths draw row lines of the same length. */
  lemma {:induction false} RowLineLength(a: seq<string>, b: seq<string>)
    requires |a| == |b| && forall j | 0 <= j < |a| :: |a[j]| == |b[j]|
    ensures |RowLine(a)| == |RowLine(b)|
  {
    if a != [] {
      RowLineLength(a[..|a| - 1], b[..|b| - 1]);
    }
  }

  // ------------------------------------------------------------- print_table

  const TableTypeError := "ERROR: Table rows have to be of the type list."

  /** A non-empty cell is right-aligned to `width` without truncation; an empty one is left alone. */
  function AlignCell(cell: string, width: nat): string {
    if cell != "" then AlignCellContent(cell, width, 1, false) else cell
  }

  function AlignedRow(row: seq<string>, c: nat, width: nat): (r: seq<string>)
    ensures |r| == |row|
  {
    if c < |row| then row[c := AlignCell(row[c], width)] else row
  }

  /** One round of the alignment loop: column `c` of every row padded to the column's widest cell. */
  function AlignColumn(rows: seq<seq<string>>, c: nat): (r: seq<seq<string>>)
    ensures |r| == |rows|
  {
    AlignRows(rows, c, MaxWidth(Column(rows, c), CleanedLength))
  }

  /** Column `c` of every row aligned to `width`. */
  function AlignRows(rows: seq<seq<string>>, c: nat, width: nat): (r: seq<seq<string>>)
    ensures |r| == |rows|
  {
    if rows == [] then [] else AlignRows(rows[..|rows| - 1], c, width) + [AlignedRow(rows[|rows| - 1], c, width)]
  }

  lemma {:induction false} AlignRowsAt(rows: seq<seq<string>>, c: nat, width: nat, k: nat)
    requires k < |rows|
    ensures AlignRows(rows, c, width)[k] == AlignedRow(rows[k], c, width)
  {
    if k < |rows| - 1 {
      AlignRowsAt(rows[..|rows| - 1], c, width, k);
    }
  }

  /** The rows after the first `n` rounds. */
  function AlignUpTo(rows: seq<seq<string>>, n: nat): (r: seq<seq<string>>)
    ensures |r| == |rows|
  {
    if n == 0 then rows else AlignColumn(AlignUpTo(rows, n - 1), n - 1)
  }

  /** The rows `print_table` gets through: at least one, none shorter than the first. */
  predicate Fits(rows: seq<seq<string>>) {
    |rows| > 0 && forall i | 0 <= i < |rows| :: |rows[i]| >= |rows[0]|
  }

  /** The lines of the first `n` rows: the first with both borders, the last with a bottom border. */
  function TableLines(rows: seq<seq<string>>, n: nat): seq<string>
    requires n <= |rows|
  {
    if n == 0 then []
    else
      var r := n - 1;
      TableLines(rows, r) + RowLines(rows[r], r == 0, r == 0 || r == |rows| - 1)
  }

  /**
   * One pass of `print_table`'s alignment loop on column `c`, in place. It answers
   * `false` when some row has no cell `c`: in the program `get_column` then raises
   * IndexError at `row[column]` before any cell of the round is padded.
   */
  method AlignColumnInPlace(rows: array<seq<string>>, c: nat) returns (ok: bool)
    modifies rows
    ensures ok <==> forall i | 0 <= i < rows.Length :: c < |old(rows[i])|
    ensures ok ==> rows[..] == AlignColumn(old(rows[..]), c)
  {
    var col := GetColumn(rows[..], c);
    var width := MaxCellLength(col);
    ok := PadColumn(rows, c, width);
  }

  /** The inner loop: every row's cell `c`, when non-empty, right-aligned to `width`. */
  method PadColumn(rows: array<seq<string>>, c: nat, width: nat) returns (ok: bool)
    modifies rows
    ensures ok <==> forall i | 0 <= i < rows.Length :: c < |old(rows[i])|
    ensures ok ==> rows[..] == AlignRows(old(rows[..]), c, width)
  {
    ghost var current := rows[..];
    var k := 0;
    while k < rows.Length
      invariant 0 <= k <= rows.Length
      invariant forall i | 0 <= i < k :: c < |current[i]|
      invariant forall i | 0 <= i < k :: rows[i] == AlignedRow(current[i], c, width)
      invariant forall i | k <= i < rows.Length :: rows[i] == current[i]
    {
      if |rows[k]| <= c {
        return false;
      }
      AlignRowStep(rows[k], c, width);
      if rows[k][c] != "" {
        rows[k] := rows[k][c := AlignCellContent(rows[k][c], width, 1, false)];
      }
      k := k + 1;
    }
    AlignedAll(current, rows[..], c, width);
    return true;
  }

  /** The loop body's update of one row is `AlignedRow`. */
  lemma AlignRowStep(row: seq<string>, c: nat, width: nat)
    requires c < |row|
    ensures (if row[c] != "" then row[c := AlignCellContent(row[c], width, 1, false)] else row) == AlignedRow(row, c, width)
  {
  }

  /** Rows each aligned on their own make up `AlignRows`. */
  lemma AlignedAll(rows: seq<seq<string>>, after: seq<seq<string>>, c: nat, width: nat)
    requires |after| == |rows|
    requires forall i | 0 <= i < |rows| :: after[i] == AlignedRow(rows[i], c, width)
    ensures after == AlignRows(rows, c, width)
  {
    forall i | 0 <= i < |rows|
      ensures after[i] == AlignRows(rows, c, width)[i]
    {
      AlignRowsAt(rows, c, width, i);
    }
  }

  /** `print_table`'s printing loop. */
  method PrintRows(rows: seq<seq<string>>) returns (lines: seq<string>)
    ensures lines == TableLines(rows, |rows|)
  {
    lines := [];
    var i := 0;
    while i < |rows|
      invariant 0 <= i <= |rows|
      invariant lines == TableLines(rows, i)
    {
      var code, rowLines;
      TableLinesStep(rows, i);
      if i == 0 && |rows| > 0 {
        code, rowLines := PrintTableRow(Some(rows[i]), true, true);
      } else if i == |rows| - 1 {
        code, rowLines := PrintTableRow(Some(rows[i]), false, true);
      } else {
        code, rowLines := PrintTableRow(Some(rows[i]), false, false);
      }
      lines := lines + rowLines;
      i := i + 1;
    }
  }

  lemma TableLinesStep(rows: seq<seq<string>>, i: nat)
    requires i < |rows|
    ensures TableLines(rows, i + 1) == TableLines(rows, i) + RowLines(rows[i], i == 0, i == 0 || i == |rows| - 1)
  {
  }

  /** `print_table`'s alignment loop over the columns of the first row, in place. */
  method AlignTable(rows: array<seq<string>>) returns (ok: bool)
    requires rows.Length > 0
    modifies rows
    ensures ok <==> Fits(old(rows[..]))
    ensures ok ==> rows[..] == AlignUpTo(old(rows[..]), |old(rows[0])|)
  {
    ghost var before := rows[..];
    var c := 0;
    while c < |rows[0]|
      invariant 0 <= c <= |before[0]| == |rows[0]|
      invariant forall i | 0 <= i < |before| :: |before[i]| >= c
      invariant rows[..] == AlignUpTo(before, c)
    {
      ghost var current := rows[..];
      ok := AlignColumnInPlace(rows, c);
      if !ok {
        ghost var i :| 0 <= i < rows.Length && c >= |current[i]|;
        ShortRow(before, c, i);
        return;
      }
      RoundWidths(before, c);
      RoundStep(before, c);
      c := c + 1;
    }
    assert c == |before[0]|;
    ok := true;
  }

  /** A row that runs out of cells in round `c < |rows[0]|` is shorter than the first. */
  lemma ShortRow(rows: seq<seq<string>>, c: nat, i: nat)
    requires i < |rows| && c < |rows[0]| && |AlignUpTo(rows, c)[i]| <= c
    ensures !Fits(rows)
  {
    AlignUpToLength(rows, c, i);
  }

  /** Every row getting through round `c` has more than `c` cells. */
  lemma RoundWidths(rows: seq<seq<string>>, c: nat)
    requires forall i | 0 <= i < |rows| :: c < |AlignUpTo(rows, c)[i]|
    ensures forall i | 0 <= i < |rows| :: |rows[i]| >= c + 1
  {
    forall i | 0 <= i < |rows|
      ensures |rows[i]| >= c + 1
    {
      AlignUpToLength(rows, c, i);
    }
  }

  /** Round `c` on the rows after `c` rounds gives the rows after `c + 1`, without changing the first row's length. */
  lemma RoundStep(rows: seq<seq<string>>, c: nat)
    requires |rows| > 0
    ensures AlignUpTo(rows, c + 1) == AlignColumn(AlignUpTo(rows, c), c)
    ensures |AlignUpTo(rows, c + 1)[0]| == |rows[0]|
  {
    AlignUpToLength(rows, c + 1, 0);
  }

  /** Alignment keeps every row's number of cells. */
  lemma {:induction false} AlignUpToLength(rows: seq<seq<string>>, n: nat, i: nat)
    requires i < |rows|
    ensures |AlignUpTo(rows, n)| == |rows| && |AlignUpTo(rows, n)[i]| == |rows[i]|
  {
    if n > 0 {
      AlignUpToLength(rows, n - 1, i);
      var prev := AlignUpTo(rows, n - 1);
      AlignRowsAt(prev, n - 1, MaxWidth(Column(prev, n - 1), CleanedLength), i);
    }
  }

  /**
   * `print_table(rows)`; `null` stands for an argument that is not a list. The rows are
   * aligned in place first, then printed; a row shorter than the first makes `get_column`
   * raise IndexError at `row[column]` (an empty table raises at `rows[0]`) before
   * anything is printed.
   */
  method PrintTable(rows: array?<seq<string>>) returns (r: Result<int>, lines: seq<string>)
    modifies rows
    ensures rows == null ==> r == Ok(1) && lines == [TableTypeError]
    ensures rows != null ==> (r.Ok? <==> Fits(old(rows[..])))
    ensures rows != null && r.Ok? ==>
              r.value == 0 && rows[..] == AlignUpTo(old(rows[..]), |old(rows[0])|) &&
              lines == TableLines(rows[..], rows.Length)
    ensures rows != null && r.Err? ==> r.error == IndexError && lines == []
  {
    if rows == null {
      return Ok(1), [TableTypeError];
    }
    if rows.Length == 0 {
      return Err(IndexError), [];
    }
    var ok := AlignTable(rows);
    if !ok {
      return Err(IndexError), [];
    }
    lines := PrintRows(rows[..]);
    r := Ok(0);
  }
  /** After `n` rounds, columns below `n` hold their aligned cell and the others their original one. */
  lemma AlignUpToCell(rows: seq<seq<string>>, n: nat, k: nat, c: nat)
    requires k < |rows| && c < |rows[k]|
    ensures |AlignUpTo(rows, n)[k]| == |rows[k]|
    ensures AlignUpTo(rows, n)[k][c] ==
            if c < n then AlignCell(rows[k][c], MaxWidth(Column(rows, c), CleanedLength)) else rows[k][c]
  {
    if c < n {
      AlignUpToStable(rows, n, k, c);
      AlignUpToRound(rows, k, c);
    } else {
      AlignUpToOther(rows, n, k, c);
    }
  }

  /** Rounds below column `c` leave it alone. */
  lemma {:induction false} AlignUpToOther(rows: seq<seq<string>>, n: nat, k: nat, c: nat)
    requires k < |rows| && c < |rows[k]| && n <= c
    ensures |AlignUpTo(rows, n)[k]| == |rows[k]| && AlignUpTo(rows, n)[k][c] == rows[k][c]
  {
    AlignUpToLength(rows, n, k);
    if n > 0 {
      AlignUpToOther(rows, n - 1, k, c);
      RoundOther(AlignUpTo(rows, n - 1), n - 1, k, c);
    }
  }

  /** Round `c` gives column `c` its aligned cells, measured on the original column. */
  lemma AlignUpToRound(rows: seq<seq<string>>, k: nat, c: nat)
    requires k < |rows| && c < |rows[k]|
    ensures |AlignUpTo(rows, c + 1)[k]| == |rows[k]|
    ensures AlignUpTo(rows, c + 1)[k][c] == AlignCell(rows[k][c], MaxWidth(Column(rows, c), CleanedLength))
  {
    assert AlignUpTo(rows, c + 1) == AlignColumn(AlignUpTo(rows, c), c);
    BeforeRound(rows, k, c);
    RoundCell(AlignUpTo(rows, c), rows, k, c);
  }

  /** Before round `c`, row `k` and column `c` are as they were. */
  lemma BeforeRound(rows: seq<seq<string>>, k: nat, c: nat)
    requires k < |rows| && c < |rows[k]|
    ensures var prev := AlignUpTo(rows, c);
            |prev| == |rows| && |prev[k]| == |rows[k]| && prev[k][c] == rows[k][c] && Column(prev, c) == Column(rows, c)
  {
    AlignUpToOther(rows, c, k, c);
    ColumnUntouched(rows, c, c);
  }

  /** The round for column `c` of rows that still hold the original column `c`. */
  lemma RoundCell(prev: seq<seq<string>>, rows: seq<seq<string>>, k: nat, c: nat)
    requires k < |prev| && k < |rows| && c < |prev[k]| && c < |rows[k]|
    requires prev[k][c] == rows[k][c] && Column(prev, c) == Column(rows, c)
    ensures |AlignColumn(prev, c)[k]| == |prev[k]|
    ensures AlignColumn(prev, c)[k][c] == AlignCell(rows[k][c], MaxWidth(Column(rows, c), CleanedLength))
  {
    AlignColumnAt(prev, c, k, c);
  }

  /** The round for column `r` leaves every other column alone. */
  lemma RoundOther(prev: seq<seq<string>>, r: nat, k: nat, j: nat)
    requires k < |prev| && j < |prev[k]| && j != r
    ensures j < |AlignColumn(prev, r)[k]| && AlignColumn(prev, r)[k][j] == prev[k][j]
  {
    AlignColumnAt(prev, r, k, j);
  }

  /** A column no round has reached yet is the original column. */
  lemma ColumnUntouched(rows: seq<seq<string>>, n: nat, c: nat)
    requires n <= c
    ensures Column(AlignUpTo(rows, n), c) == Column(rows, c)
  {
    var cur := AlignUpTo(rows, n);
    forall i | 0 <= i < |rows|
      ensures |cur[i]| == |rows[i]| && (c < |cur[i]| ==> cur[i][c] == rows[i][c])
    {
      AlignUpToLength(rows, n, i);
      if c < |rows[i]| {
        AlignUpToOther(rows, n, i, c);
      }
    }
    ColumnSame(cur, rows, c);
  }

  /** Matrices that agree on column `c` have the same column `c`. */
  lemma ColumnSame(a: seq<seq<string>>, b: seq<seq<string>>, c: nat)
    requires |a| == |b|
    requires forall i | 0 <= i < |a| :: |a[i]| == |b[i]| && (c < |a[i]| ==> a[i][c] == b[i][c])
    ensures Column(a, c) == Column(b, c)
  {
    forall i | 0 <= i < |a|
      ensures Column(a, c)[i] == Column(b, c)[i]
    {
      ColumnAt(a, c, i);
      ColumnAt(b, c, i);
    }
  }

  /** Round `c` changes only column `c`, to the aligned cell. */
  lemma AlignColumnAt(rows: seq<seq<string>>, c: nat, k: nat, j: nat)
    requires k < |rows| && j < |rows[k]|
    ensures |AlignColumn(rows, c)[k]| == |rows[k]| && AlignColumn(rows, c)[k][j] ==
            if j == c then AlignCell(rows[k][c], MaxWidth(Column(rows, c), CleanedLength)) else rows[k][j]
  {
    AlignRowsAt(rows, c, MaxWidth(Column(rows, c), CleanedLength), k);
  }

  /** A non-empty cell without escapes that fits in `width` is widened to exactly `width`. */
  lemma {:induction false} AlignCellWidth(cell: string, width: nat)
    requires cell != "" && NoEsc(cell) && |cell| <= width
    ensures |AlignCell(cell, width)| == width && NoEsc(AlignCell(cell, width))
  {
    CleanedPlain(cell);
    if |cell| < width {
      AlignPads(cell, width, 1, false);
      var r := AlignCell(cell, width);
      assert r == Spaces(width - |cell|) + cell + Spaces(0);
      forall i | 0 <= i < |r| ensures r[i] != Esc {
        if i >= width - |cell| {
          assert r[i] == cell[i - (width - |cell|)];
        }
      }
    }
  }

  /** Later rounds leave an aligned column alone. */
  lemma {:induction false} AlignUpToStable(rows: seq<seq<string>>, n: nat, k: nat, c: nat)
    requires k < |rows| && c < |rows[k]| && c < n
    ensures |AlignUpTo(rows, n)[k]| == |AlignUpTo(rows, c + 1)[k]| == |rows[k]|
    ensures AlignUpTo(rows, n)[k][c] == AlignUpTo(rows, c + 1)[k][c]
  {
    AlignUpToLength(rows, n, k);
    AlignUpToLength(rows, c + 1, k);
    if n > c + 1 {
      AlignUpToStable(rows, n - 1, k, c);
      AlignUpToLength(rows, n - 1, k);
      AlignColumnAt(AlignUpTo(rows, n - 1), n - 1, k, c);
    }
  }

  /** An aligned cell of an even table of plain, non-empty cells has its column's width. */
  lemma {:induction false} AlignedCell(rows: seq<seq<string>>, i: nat, c: nat)
    requires i < |rows| && c < |rows[i]| && rows[i][c] != "" && NoEsc(rows[i][c])
    ensures |AlignUpTo(rows, c + 1)[i]| == |rows[i]|
    ensures var cell := AlignUpTo(rows, c + 1)[i][c];
            |cell| == MaxWidth(Column(rows, c), CleanedLength) && NoEsc(cell)
  {
    AlignUpToCell(rows, c + 1, i, c);
    MaxWidthIsMax(Column(rows, c), CleanedLength);
    ColumnAt(rows, c, i);
    CleanedPlain(rows[i][c]);
    AlignCellWidth(rows[i][c], MaxWidth(Column(rows, c), CleanedLength));
  }

  /**
   * When every row has as many cells as the first, and no cell is empty or coloured, the printed
   * table is even: every row line has the length of the first, and every border matches its row.
   */
  lemma {:induction false} AlignedRowsEven(rows: seq<seq<string>>)
    requires |rows| > 0 && forall i | 0 <= i < |rows| :: |rows[i]| == |rows[0]|
    requires forall i, c | 0 <= i < |rows| && 0 <= c < |rows[i]| :: rows[i][c] != "" && NoEsc(rows[i][c])
    ensures var aligned := AlignUpTo(rows, |rows[0]|);
            forall i | 0 <= i < |rows| ::
              |RowLine(aligned[i])| == |RowLine(aligned[0])| && |Border(aligned[i], true)| == |RowLine(aligned[i])|
  {
    var w := |rows[0]|;
    var aligned := AlignUpTo(rows, w);
    forall i | 0 <= i < |rows|
      ensures |RowLine(aligned[i])| == |RowLine(aligned[0])| && |Border(aligned[i], true)| == |RowLine(aligned[i])|
    {
      AlignUpToLength(rows, w, i);
      AlignUpToLength(rows, w, 0);
      forall c | 0 <= c < w ensures |aligned[i][c]| == |aligned[0][c]| && NoEsc(aligned[i][c]) {
        AlignUpToStable(rows, w, i, c);
        AlignUpToStable(rows, w, 0, c);
        AlignedCell(rows, i, c);
        AlignedCell(rows, 0, c);
      }
      RowLineLength(aligned[i], aligned[0]);
      BorderFitsRow(aligned[i]);
    }
  }

  /**
   * The printed table has three lines for one row and `n + 3` for `n >= 2` rows: the first
   * row between two borders, the last row followed by its border, the others bare.
   */
  lemma {:induction false} TableLinesLayout(rows: seq<seq<string>>, n: nat)
    requires n <= |rows|
    ensures |TableLines(rows, n)| == if n == 0 then 0 else n + 2 + (if n == |rows| && n > 1 then 1 else 0)
    ensures n > 0 ==> TableLines(rows, n)[..3] == [Border(rows[0], true), RowLine(rows[0]), Border(rows[0], true)]
    ensures n == |rows| > 0 ==> TableLines(rows, n)[|TableLines(rows, n)| - 1] == Border(rows[n - 1], true)
  {
    if n > 0 {
      TableLinesLayout(rows, n - 1);
      if n > 1 {
        assert TableLines(rows, n)[..3] == TableLines(rows, n - 1)[..3];
      }
    }
  }
}
