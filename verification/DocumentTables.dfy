/** A reference parser of the rendered tables, and the proof that it inverts the printer.

    The parser knows nothing of the printer's inputs: it splits lines, splits a line at the
    pipes that no backslash directly precedes, and drops the backslash before every pipe. */
module DocumentTables {
  import opened Common
  import opened Documents

  // ---------------------------------------------------------------- the parser

  /** The first index from `i` on that holds `c`, or |s|. */
  function IndexOf(s: string, c: char, i: nat): (k: nat)
    requires i <= |s|
    ensures i <= k <= |s|
    decreases |s| - i
  {
    if i == |s| || s[i] == c then i else IndexOf(s, c, i + 1)
  }

  /** The lines of a text in which every line is terminated. */
  function Lines(text: string): Option<seq<string>>
    decreases |text|
  {
    if text == "" then Some([])
    else
      var k := IndexOf(text, '\n', 0);
      if k == |text| then None
      else match Lines(text[k + 1..])
        case None => None
        case Some(rest) => Some([text[..k]] + rest)
  }

  predicate IsBoundary(s: string, i: nat)
    requires i < |s|
  {
    s[i] == '|' && (i == 0 || s[i - 1] != '\\')
  }

  /** The first cell boundary from `i` on, or |s|. */
  function Boundary(s: string, i: nat): (k: nat)
    requires i <= |s|
    ensures i <= k <= |s|
    decreases |s| - i
  {
    if i == |s| || IsBoundary(s, i) then i else Boundary(s, i + 1)
  }

  function Unescape(s: string): string {
    if s == "" then ""
    else if |s| >= 2 && s[0] == '\\' && s[1] == '|' then "|" + Unescape(s[2..])
    else [s[0]] + Unescape(s[1..])
  }

  /** Cells, each padded by one space and closed by a pipe. */
  function ParseCells(s: string): Option<Row>
    decreases |s|
  {
    if s == "" then Some([])
    else
      var k := Boundary(s, 0);
      if k == |s| || k < 2 || s[0] != ' ' || s[k - 1] != ' ' then None
      else match ParseCells(s[k + 1..])
        case None => None
        case Some(rest) => Some([Unescape(s[1..k - 1])] + rest)
  }

  function ParseLine(line: string): Option<Row> {
    if line == "" || line[0] != '|' then None else ParseCells(line[1..])
  }

  function ParseLines(lines: seq<string>): Option<seq<Row>> {
    if lines == [] then Some([])
    else
      var row := ParseLine(lines[0]);
      var rest := ParseLines(lines[1..]);
      if row.None? || rest.None? then None else Some([row.value] + rest.value)
  }

  predicate IsSeparator(row: Row, width: nat) {
    |row| == width && forall i :: 0 <= i < |row| ==> row[i] == "---"
  }

  /** A header, a separator of the header's width, and the other rows. */
  function ParseTable(text: string): Option<seq<Row>> {
    var lines := Lines(text);
    if lines.None? || |lines.value| < 2 then None
    else
      var rows := ParseLines(lines.value);
      if rows.None? || |rows.value| < 2 || !IsSeparator(rows.value[1], |rows.value[0]|) then None
      else Some([rows.value[0]] + rows.value[2..])
  }

  // ---------------------------------------------------------------- one cell

  /** What the table keeps of a cell. */
  function Flat(cell: string): string {
    Replace(cell, '\n', " ")
  }

  /** Every character stays in its place, but a space takes the place of a newline. */
  lemma {:induction false} FlatExactly(cell: string)
    ensures |Flat(cell)| == |cell|
    ensures forall i :: 0 <= i < |cell| ==> Flat(cell)[i] == if cell[i] == '\n' then ' ' else cell[i]
  {
    if cell != "" {
      FlatExactly(cell[1..]);
      assert Flat(cell) == (if cell[0] == '\n' then " " else [cell[0]]) + Flat(cell[1..]);
      forall i | 0 <= i < |cell| ensures Flat(cell)[i] == if cell[i] == '\n' then ' ' else cell[i] {
        if i > 0 {
          assert Flat(cell)[i] == Flat(cell[1..])[i - 1];
        }
      }
    }
  }

  function FlatRow(row: Row): Row {
    seq(|row|, i requires 0 <= i < |row| => Flat(row[i]))
  }

  function FlatRows(rows: seq<Row>): seq<Row> {
    seq(|rows|, i requires 0 <= i < |rows| => FlatRow(rows[i]))
  }

  lemma ReplaceCons(c: char, rest: string, what: char, with: string)
    ensures Replace([c] + rest, what, with) == (if c == what then with else [c]) + Replace(rest, what, with)
  {
    assert ([c] + rest)[1..] == rest;
  }

  /** One character at a time. */
  lemma EscapeCons(cell: string)
    requires cell != ""
    ensures EscapeCell(cell)
         == (if cell[0] == '|' then "\\|" else if cell[0] == '\n' then " " else [cell[0]]) + EscapeCell(cell[1..])
  {
    var rest := Replace(cell[1..], '|', "\\|");
    if cell[0] == '|' {
      assert Replace(cell, '|', "\\|") == "\\|" + rest == ['\\'] + (['|'] + rest);
      ReplaceCons('\\', ['|'] + rest, '\n', " ");
      ReplaceCons('|', rest, '\n', " ");
      assert ['\\'] + (['|'] + EscapeCell(cell[1..])) == "\\|" + EscapeCell(cell[1..]);
    } else {
      assert Replace(cell, '|', "\\|") == [cell[0]] + rest;
      ReplaceCons(cell[0], rest, '\n', " ");
    }
  }

  /** No bare pipe: a backslash directly precedes each. */
  predicate Plain(e: string) {
    forall i :: 0 <= i < |e| && e[i] == '|' ==> i > 0 && e[i - 1] == '\\'
  }

  lemma PlainGrows(head: string, rest: string)
    requires Plain(rest) && (head == "\\|" || (|head| == 1 && head[0] != '|'))
    ensures Plain(head + rest)
  {
    var e, n := head + rest, |head|;
    assert rest == "" || (rest[0] != '|' && e[n] == rest[0]);
    forall i | 0 <= i < |e| && e[i] == '|' ensures i > 0 && e[i - 1] == '\\' {
      if i > n {
        assert e[i] == rest[i - n] && e[i - 1] == rest[i - n - 1];
      }
    }
  }

  lemma {:induction false} EscapedShape(cell: string)
    ensures '\n' !in EscapeCell(cell) && Plain(EscapeCell(cell))
  {
    if cell != "" {
      EscapedShape(cell[1..]);
      EscapeCons(cell);
      var head := if cell[0] == '|' then "\\|" else if cell[0] == '\n' then " " else [cell[0]];
      PlainGrows(head, EscapeCell(cell[1..]));
    }
  }

  /** Unescaping an escaped cell gives the cell back, its newlines turned into spaces. */
  lemma {:induction false} UnescapeInverts(cell: string)
    ensures Unescape(EscapeCell(cell)) == Flat(cell)
  {
    if cell != "" {
      UnescapeInverts(cell[1..]);
      EscapeCons(cell);
      EscapedShape(cell[1..]);
      var e, rest := EscapeCell(cell), EscapeCell(cell[1..]);
      if cell[0] == '|' {
        assert e[2..] == rest;
      } else {
        assert e[1..] == rest;
      }
    }
  }

  // ---------------------------------------------------------------- one row

  lemma {:induction false} BoundaryAt(s: string, i: nat, k: nat)
    requires i <= k < |s| && IsBoundary(s, k)
    requires forall j :: i <= j < k ==> !IsBoundary(s, j)
    ensures Boundary(s, i) == k
    decreases k - i
  {
    if i < k {
      BoundaryAt(s, i + 1, k);
    }
  }

  lemma CellBoundary(e: string, rest: string)
    requires Plain(e)
    ensures var s := " " + e + " |" + rest;
            && Boundary(s, 0) == |e| + 2 && s[0] == ' ' && s[|e| + 1] == ' '
            && s[1..|e| + 1] == e && s[|e| + 3..] == rest
  {
    var s := " " + e + " |" + rest;
    assert forall j :: 1 <= j <= |e| ==> s[j] == e[j - 1];
    assert s[|e| + 1] == ' ' && s[|e| + 2] == '|';
    forall j: nat | j < |e| + 2 ensures !IsBoundary(s, j) {
      if 1 <= j <= |e| {
        assert s[j] == e[j - 1];
        if e[j - 1] == '|' {
          assert s[j - 1] == e[j - 2];
        }
      }
    }
    BoundaryAt(s, 0, |e| + 2);
  }

  predicate PlainRow(row: Row) {
    forall i :: 0 <= i < |row| ==> Plain(row[i])
  }

  function UnescapeRow(row: Row): Row {
    seq(|row|, i requires 0 <= i < |row| => Unescape(row[i]))
  }

  lemma {:induction false} CellsParse(row: Row)
    requires PlainRow(row)
    ensures ParseCells(CellsText(row)) == Some(UnescapeRow(row))
    decreases |row|
  {
    if row != [] {
      CellBoundary(row[0], CellsText(row[1..]));
      CellsParse(row[1..]);
      assert UnescapeRow(row) == [Unescape(row[0])] + UnescapeRow(row[1..]);
    }
  }

  lemma EscapedRowParses(row: Row)
    ensures ParseLine("|" + CellsText(EscapeRow(row))) == Some(FlatRow(row))
  {
    var escaped := EscapeRow(row);
    forall i | 0 <= i < |row| ensures Plain(escaped[i]) && Unescape(escaped[i]) == Flat(row[i]) {
      EscapedShape(row[i]);
      UnescapeInverts(row[i]);
    }
    CellsParse(escaped);
    assert UnescapeRow(escaped) == FlatRow(row);
    assert ("|" + CellsText(escaped))[1..] == CellsText(escaped);
  }

  lemma DashesParse(n: nat)
    ensures ParseLine("|" + CellsText(Dashes(n))) == Some(Dashes(n))
  {
    var row := Dashes(n);
    assert Unescape("---") == "---" by {
      assert "---"[1..] == "--" && "--"[1..] == "-" && "-"[1..] == "";
    }
    CellsParse(row);
    assert UnescapeRow(row) == row;
    assert ("|" + CellsText(row))[1..] == CellsText(row);
  }

  // ---------------------------------------------------------------- lines

  lemma {:induction false} IndexAt(s: string, c: char, i: nat, k: nat)
    requires i <= k < |s| && s[k] == c && forall j :: i <= j < k ==> s[j] != c
    ensures IndexOf(s, c, i) == k
    decreases k - i
  {
    if i < k {
      IndexAt(s, c, i + 1, k);
    }
  }

  lemma {:induction false} CellsOnOneLine(row: Row)
    requires forall i :: 0 <= i < |row| ==> '\n' !in row[i]
    ensures '\n' !in CellsText(row)
    decreases |row|
  {
    if row != [] {
      CellsOnOneLine(row[1..]);
    }
  }

  lemma FirstLine(line: string, rest: string)
    requires '\n' !in line
    ensures Lines(line + "\n" + rest) == match Lines(rest) case None => None case Some(lines) => Some([line] + lines)
  {
    var text := line + "\n" + rest;
    assert forall j :: 0 <= j < |line| ==> text[j] == line[j];
    IndexAt(text, '\n', 0, |line|);
    assert text[..|line|] == line && text[|line| + 1..] == rest;
  }

  function RowLines(rows: seq<Row>): seq<string> {
    seq(|rows|, i requires 0 <= i < |rows| => "|" + CellsText(EscapeRow(rows[i])))
  }

  lemma RowFirst(row: Row, rest: string)
    requires forall i :: 0 <= i < |row| ==> '\n' !in row[i]
    ensures Lines(RowText(row) + rest)
         == match Lines(rest) case None => None case Some(lines) => Some(["|" + CellsText(row)] + lines)
  {
    CellsOnOneLine(row);
    FirstLine("|" + CellsText(row), rest);
  }

  lemma EscapedOnOneLine(row: Row)
    ensures forall i :: 0 <= i < |row| ==> '\n' !in EscapeRow(row)[i]
  {
    forall i | 0 <= i < |row| ensures '\n' !in EscapeRow(row)[i] {
      EscapedShape(row[i]);
    }
  }

  lemma {:induction false} RowsLines(rows: seq<Row>)
    ensures Lines(RowsText(rows)) == Some(RowLines(rows))
    decreases |rows|
  {
    if rows != [] {
      RowsLines(rows[1..]);
      EscapedOnOneLine(rows[0]);
      RowFirst(EscapeRow(rows[0]), RowsText(rows[1..]));
      assert RowLines(rows) == ["|" + CellsText(EscapeRow(rows[0]))] + RowLines(rows[1..]);
    }
  }

  lemma ParseLinesCons(line: string, lines: seq<string>)
    requires ParseLine(line).Some? && ParseLines(lines).Some?
    ensures ParseLines([line] + lines) == Some([ParseLine(line).value] + ParseLines(lines).value)
  {
    assert ([line] + lines)[1..] == lines;
  }

  lemma {:induction false} RowLinesParse(rows: seq<Row>)
    ensures ParseLines(RowLines(rows)) == Some(FlatRows(rows))
    decreases |rows|
  {
    if rows != [] {
      RowLinesParse(rows[1..]);
      EscapedRowParses(rows[0]);
      var line := "|" + CellsText(EscapeRow(rows[0]));
      assert RowLines(rows) == [line] + RowLines(rows[1..]);
      ParseLinesCons(line, RowLines(rows[1..]));
      assert FlatRows(rows) == [FlatRow(rows[0])] + FlatRows(rows[1..]);
    } else {
      assert RowLines(rows) == [] && FlatRows(rows) == [];
    }
  }

  // ---------------------------------------------------------------- the table

  function HeaderLine(row: Row): string {
    "|" + CellsText(EscapeRow(row))
  }

  function SeparatorLine(n: nat): string {
    "|" + CellsText(Dashes(n))
  }

  lemma TableLines(rows: seq<Row>)
    requires HasCells(rows)
    ensures Lines(Table(rows)) == Some([HeaderLine(rows[0])] + ([SeparatorLine(|rows[0]|)] + RowLines(rows[1..])))
  {
    var header, separator, rest := EscapeRow(rows[0]), Dashes(|rows[0]|), RowsText(rows[1..]);
    RowsLines(rows[1..]);
    RowFirst(separator, rest);
    EscapedOnOneLine(rows[0]);
    RowFirst(header, RowText(separator) + rest);
    Regroup(RowText(header), RowText(separator), rest);
  }

  lemma TableRows(rows: seq<Row>)
    requires rows != []
    ensures ParseLines([HeaderLine(rows[0])] + ([SeparatorLine(|rows[0]|)] + RowLines(rows[1..])))
         == Some([FlatRow(rows[0])] + ([Dashes(|rows[0]|)] + FlatRows(rows[1..])))
  {
    RowLinesParse(rows[1..]);
    EscapedRowParses(rows[0]);
    DashesParse(|rows[0]|);
    ParseLinesCons(SeparatorLine(|rows[0]|), RowLines(rows[1..]));
    ParseLinesCons(HeaderLine(rows[0]), [SeparatorLine(|rows[0]|)] + RowLines(rows[1..]));
  }

  lemma RowsAssemble(rows: seq<Row>)
    requires rows != []
    ensures var parsed := [FlatRow(rows[0])] + ([Dashes(|rows[0]|)] + FlatRows(rows[1..]));
            IsSeparator(parsed[1], |parsed[0]|) && [parsed[0]] + parsed[2..] == FlatRows(rows)
  {
    var parsed := [FlatRow(rows[0])] + ([Dashes(|rows[0]|)] + FlatRows(rows[1..]));
    assert parsed[2..] == FlatRows(rows[1..]);
    assert [FlatRow(rows[0])] + FlatRows(rows[1..]) == FlatRows(rows);
  }

  /** Rendering is invertible: from the table of any rows with a cell the parser recovers
      exactly those rows, newlines in cells turned into spaces; pipes, backslashes before
      pipes, ragged widths and an empty first row included. */
  lemma TableRoundTrip(rows: seq<Row>)
    requires HasCells(rows)
    ensures ParseTable(Table(rows)) == Some(FlatRows(rows))
  {
    TableLines(rows);
    TableRows(rows);
    RowsAssemble(rows);
  }

  lemma {:induction false} FlatIsIdentity(cell: string)
    requires '\n' !in cell
    ensures Flat(cell) == cell
  {
    if cell != "" {
      FlatIsIdentity(cell[1..]);
    }
  }

  /** Different rows without newlines have different tables. */
  lemma TablesAreInjective(a: seq<Row>, b: seq<Row>)
    requires HasCells(a) && HasCells(b) && Table(a) == Table(b)
    requires forall i, j :: 0 <= i < |a| && 0 <= j < |a[i]| ==> '\n' !in a[i][j]
    requires forall i, j :: 0 <= i < |b| && 0 <= j < |b[i]| ==> '\n' !in b[i][j]
    ensures a == b
  {
    TableRoundTrip(a);
    TableRoundTrip(b);
    WithoutNewlines(a);
    WithoutNewlines(b);
  }

  lemma WithoutNewlines(rows: seq<Row>)
    requires forall i, j :: 0 <= i < |rows| && 0 <= j < |rows[i]| ==> '\n' !in rows[i][j]
    ensures FlatRows(rows) == rows
  {
    forall i | 0 <= i < |rows| ensures FlatRow(rows[i]) == rows[i] {
      forall j | 0 <= j < |rows[i]| ensures Flat(rows[i][j]) == rows[i][j] {
        FlatIsIdentity(rows[i][j]);
      }
    }
  }
}
