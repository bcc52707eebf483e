/** CSV documents rendered as Markdown tables.

    The CSV reader is a list of records, None where it reports a malformed one. */
module Documents {
  import opened Common

  type Row = seq<string>

  datatype DocumentError = Malformed | WorkLimit | OutputLimit

  // ---------------------------------------------------------------- rendering

  function Replace(s: string, c: char, with: string): string {
    if s == "" then "" else (if s[0] == c then with else [s[0]]) + Replace(s[1..], c, with)
  }

  /** `escape_cell`. */
  function EscapeCell(cell: string): string {
    Replace(Replace(cell, '|', "\\|"), '\n', " ")
  }

  function EscapeRow(row: Row): Row {
    seq(|row|, i requires 0 <= i < |row| => EscapeCell(row[i]))
  }

  /** ` cell |` for each cell of an escaped row. */
  function CellsText(row: Row): string {
    if row == [] then "" else " " + row[0] + " |" + CellsText(row[1..])
  }

  function RowText(row: Row): string {
    "|" + CellsText(row) + "\n"
  }

  function Dashes(n: nat): Row {
    seq(n, _ => "---")
  }

  function RowsText(rows: seq<Row>): string {
    if rows == [] then "" else RowText(EscapeRow(rows[0])) + RowsText(rows[1..])
  }

  predicate HasCells(rows: seq<Row>) {
    exists i :: 0 <= i < |rows| && rows[i] != []
  }

  /** The table: the first row, a separator as wide, the other rows. */
  function Table(rows: seq<Row>): string {
    if !HasCells(rows) then ""
    else RowText(EscapeRow(rows[0])) + RowText(Dashes(|rows[0]|)) + RowsText(rows[1..])
  }

  /** `bounded_output`. */
  function Bounded(markdown: string, maxOutputBytes: nat): Result<string, DocumentError> {
    if maxOutputBytes == 0 || Utf8Length(markdown) > maxOutputBytes then Err(OutputLimit) else Ok(markdown)
  }

  /** Cells so far, as the saturating counter has them. */
  function Cells(rows: seq<Row>): nat {
    if rows == [] then 0 else SaturatingAdd(Cells(rows[..|rows| - 1]), |rows[|rows| - 1]|)
  }

  /** The rows, or the first thing that stops the reading of them. */
  function Scan(records: seq<Option<Row>>, maxCells: nat): Result<seq<Row>, DocumentError> {
    if records == [] then Ok([])
    else
      match Scan(records[..|records| - 1], maxCells)
      case Err(e) => Err(e)
      case Ok(rows) =>
        match records[|records| - 1]
        case None => Err(Malformed)
        case Some(row) => if Cells(rows + [row]) > maxCells then Err(WorkLimit) else Ok(rows + [row])
  }

  /** The bounded table of the rows, or the first error. */
  function Extraction(records: seq<Option<Row>>, maxCells: nat, maxOutputBytes: nat): Result<string, DocumentError> {
    match Scan(records, maxCells)
    case Err(e) => Err(e)
    case Ok(rows) => Bounded(Table(rows), maxOutputBytes)
  }

  lemma {:induction false} ScanStops(records: seq<Option<Row>>, maxCells: nat, n: nat)
    requires n <= |records| && Scan(records[..n], maxCells).Err?
    ensures Scan(records, maxCells) == Scan(records[..n], maxCells)
    decreases |records|
  {
    if n < |records| {
      var front := records[..|records| - 1];
      assert front[..n] == records[..n];
      ScanStops(front, maxCells, n);
    } else {
      assert records[..n] == records;
    }
  }

  method AppendRow(markdown: string, row: Row) returns (longer: string)
    ensures longer == markdown + RowText(row)
  {
    longer := markdown + "|";
    var i := 0;
    while i < |row|
      invariant i <= |row| && longer + CellsText(row[i..]) == markdown + "|" + CellsText(row)
    {
      assert row[i..][1..] == row[i + 1..];
      CellThenRest(longer, row[i], CellsText(row[i + 1..]));
      longer := longer + (" " + row[i] + " |");
      i := i + 1;
    }
    assert longer == markdown + "|" + CellsText(row);
    longer := longer + "\n";
    assert longer == markdown + RowText(row);
  }

  lemma CellThenRest(before: string, cell: string, rest: string)
    ensures (before + (" " + cell + " |")) + rest == before + (" " + cell + " |" + rest)
  {
  }

  lemma Regroup(a: string, b: string, c: string)
    ensures (a + b) + c == a + (b + c)
  {
  }

  /** `extract_csv`. */
  method ExtractCsv(records: seq<Option<Row>>, maxCells: nat, maxOutputBytes: nat)
    returns (r: Result<string, DocumentError>)
    ensures r == Extraction(records, maxCells, maxOutputBytes)
  {
    var rows: seq<Row> := [];
    var escaped: seq<Row> := [];
    var cells := 0;
    for i := 0 to |records|
      invariant Scan(records[..i], maxCells) == Ok(rows) && cells == Cells(rows)
      invariant |escaped| == |rows| && forall k :: 0 <= k < |rows| ==> escaped[k] == EscapeRow(rows[k])
    {
      assert records[..i + 1][..i] == records[..i];
      if records[i].None? {
        ScanStops(records, maxCells, i + 1);
        return Err(Malformed);
      }
      var row := records[i].value;
      assert (rows + [row])[..|rows|] == rows;
      cells := SaturatingAdd(cells, |row|);
      if cells > maxCells {
        ScanStops(records, maxCells, i + 1);
        return Err(WorkLimit);
      }
      rows := rows + [row];
      escaped := escaped + [EscapeRow(row)];
    }
    assert records[..|records|] == records;
    var width := MaxWidth(rows);
    if width == 0 {
      return Bounded("", maxOutputBytes);
    }
    var markdown := RenderTable(rows, escaped);
    r := Bounded(markdown, maxOutputBytes);
  }

  method MaxWidth(rows: seq<Row>) returns (width: nat)
    ensures width > 0 <==> HasCells(rows)
    ensures forall i :: 0 <= i < |rows| ==> |rows[i]| <= width
  {
    width := 0;
    for i := 0 to |rows|
      invariant width > 0 <==> exists k :: 0 <= k < i && rows[k] != []
      invariant forall k :: 0 <= k < i ==> |rows[k]| <= width
    {
      if |rows[i]| > width {
        width := |rows[i]|;
      }
    }
  }

  method RenderTable(ghost rows: seq<Row>, escaped: seq<Row>) returns (markdown: string)
    requires HasCells(rows) && |escaped| == |rows|
    requires forall k :: 0 <= k < |rows| ==> escaped[k] == EscapeRow(rows[k])
    ensures markdown == Table(rows)
  {
    markdown := AppendRow("", escaped[0]);
    markdown := AppendRow(markdown, Dashes(|escaped[0]|));
    ghost var head := markdown;
    assert head == RowText(EscapeRow(rows[0])) + RowText(Dashes(|rows[0]|));
    for i := 1 to |escaped|
      invariant markdown + RowsText(rows[i..]) == head + RowsText(rows[1..])
    {
      assert rows[i..][1..] == rows[i + 1..];
      Regroup(markdown, RowText(escaped[i]), RowsText(rows[i + 1..]));
      markdown := AppendRow(markdown, escaped[i]);
    }
    assert markdown == head + RowsText(rows[1..]);
  }
}
