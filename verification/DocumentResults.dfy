/** What extraction answers, said of the records: which one stops it, and that nothing is lost when
    none does. */
module DocumentResults {
  import opened Common
  import opened Documents
  import opened DocumentTables

  predicate WellFormed(records: seq<Option<Row>>, n: nat)
    requires n <= |records|
  {
    forall i :: 0 <= i < n ==> records[i].Some?
  }

  /** The cells of the first n records. */
  function CellCount(records: seq<Option<Row>>, n: nat): nat
    requires n <= |records| && WellFormed(records, n)
  {
    if n == 0 then 0 else CellCount(records, n - 1) + |records[n - 1].value|
  }

  /** The counter cannot pass the largest u64. */
  predicate Within(cells: nat, maxCells: nat) {
    cells <= maxCells || maxCells >= U64_MAX
  }

  /** The first n records are read: well-formed and within the limit. */
  predicate Read(records: seq<Option<Row>>, maxCells: nat, n: nat) {
    n <= |records| && WellFormed(records, n) && Within(CellCount(records, n), maxCells)
  }

  function RowsOf(records: seq<Option<Row>>): seq<Row>
    requires WellFormed(records, |records|)
  {
    seq(|records|, i requires 0 <= i < |records| => records[i].value)
  }

  // ---------------------------------------------------------------- the scan, by place

  lemma {:induction false} CellCountOfFront(records: seq<Option<Row>>, m: nat, n: nat)
    requires n <= m <= |records| && WellFormed(records, n)
    ensures CellCount(records[..m], n) == CellCount(records, n)
    decreases n
  {
    if n > 0 {
      CellCountOfFront(records, m, n - 1);
    }
  }

  lemma {:induction false} CellCountGrows(records: seq<Option<Row>>, m: nat, n: nat)
    requires m <= n <= |records| && WellFormed(records, n)
    ensures CellCount(records, m) <= CellCount(records, n)
    decreases n
  {
    if m < n {
      CellCountGrows(records, m, n - 1);
    }
  }

  /** The saturating counter is the count, cut off. */
  lemma {:induction false} CellsAreCounted(records: seq<Option<Row>>)
    requires WellFormed(records, |records|)
    ensures Cells(RowsOf(records)) == Min(CellCount(records, |records|), U64_MAX)
    decreases |records|
  {
    if records != [] {
      var n := |records| - 1;
      CellsAreCounted(records[..n]);
      CellCountOfFront(records, n, n);
      assert RowsOf(records)[..n] == RowsOf(records[..n]);
    }
  }

  lemma {:induction false} ReadEarlier(records: seq<Option<Row>>, maxCells: nat, m: nat, n: nat)
    requires Read(records, maxCells, n) && m <= n
    ensures Read(records, maxCells, m)
  {
    CellCountGrows(records, m, n);
  }

  lemma FrontRead(records: seq<Option<Row>>, maxCells: nat, m: nat, n: nat)
    requires n <= m <= |records|
    ensures Read(records[..m], maxCells, n) <==> Read(records, maxCells, n)
  {
    if WellFormed(records, n) {
      CellCountOfFront(records, m, n);
    }
    assert WellFormed(records[..m], n) <==> WellFormed(records, n);
  }

  /** Record n stops the reading. */
  predicate StopsAt(records: seq<Option<Row>>, maxCells: nat, n: nat, e: DocumentError) {
    && n < |records| && Read(records, maxCells, n)
    && if records[n].None? then e == Malformed
       else e == WorkLimit && !Within(CellCount(records, n + 1), maxCells)
  }

  /** Everything is read, or exactly one record stops it. */
  lemma {:induction false} ScanIs(records: seq<Option<Row>>, maxCells: nat) returns (n: nat)
    ensures match Scan(records, maxCells)
            case Ok(rows) => Read(records, maxCells, |records|) && rows == RowsOf(records)
            case Err(e) => StopsAt(records, maxCells, n, e)
    decreases |records|
  {
    n := 0;
    if records != [] {
      var m := |records| - 1;
      var front := records[..m];
      n := ScanIs(front, maxCells);
      FrontRead(records, maxCells, m, m);
      if Scan(front, maxCells).Err? {
        FrontRead(records, maxCells, m, n);
        if front[n].Some? {
          CellCountOfFront(records, m, n + 1);
        }
      } else {
        n := m;
        if records[m].Some? {
          CellsAreCounted(records);
          assert RowsOf(front) + [records[m].value] == RowsOf(records);
        }
      }
    }
  }

  lemma StopsOnce(records: seq<Option<Row>>, maxCells: nat, m: nat, d: DocumentError, n: nat, e: DocumentError)
    requires StopsAt(records, maxCells, m, d) && StopsAt(records, maxCells, n, e)
    ensures m == n && d == e
  {
    if m < n {
      ReadEarlier(records, maxCells, m + 1, n);
    } else if n < m {
      ReadEarlier(records, maxCells, n + 1, m);
    }
  }

  lemma StoppedIsUnread(records: seq<Option<Row>>, maxCells: nat, n: nat, e: DocumentError)
    requires StopsAt(records, maxCells, n, e)
    ensures !Read(records, maxCells, |records|)
  {
    if Read(records, maxCells, |records|) {
      ReadEarlier(records, maxCells, n + 1, |records|);
    }
  }

  // ---------------------------------------------------------------- the answer

  /** Record n is the malformed one, and all before it is read. */
  predicate MalformedAt(records: seq<Option<Row>>, maxCells: nat, n: nat) {
    n < |records| && Read(records, maxCells, n) && records[n].None?
  }

  /** Record n passes the limit, and all before it is read. */
  predicate OverAt(records: seq<Option<Row>>, maxCells: nat, n: nat) {
    n < |records| && Read(records, maxCells, n) && records[n].Some? && !Within(CellCount(records, n + 1), maxCells)
  }

  lemma NeverStopped(records: seq<Option<Row>>, maxCells: nat)
    requires forall k: nat, e :: !StopsAt(records, maxCells, k, e)
    ensures !exists n: nat :: MalformedAt(records, maxCells, n) || OverAt(records, maxCells, n)
  {
    forall n: nat ensures !MalformedAt(records, maxCells, n) && !OverAt(records, maxCells, n) {
      assert !StopsAt(records, maxCells, n, Malformed) && !StopsAt(records, maxCells, n, WorkLimit);
    }
  }

  lemma StopsForReason(records: seq<Option<Row>>, maxCells: nat, m: nat, e: DocumentError)
    requires StopsAt(records, maxCells, m, e)
    ensures e == Malformed <==> exists n: nat :: MalformedAt(records, maxCells, n)
    ensures e == WorkLimit <==> exists n: nat :: OverAt(records, maxCells, n)
  {
    if e == Malformed {
      assert MalformedAt(records, maxCells, m);
    } else {
      assert OverAt(records, maxCells, m);
    }
    if n: nat :| MalformedAt(records, maxCells, n) {
      StopsOnce(records, maxCells, m, e, n, Malformed);
    }
    if n: nat :| OverAt(records, maxCells, n) {
      StopsOnce(records, maxCells, m, e, n, WorkLimit);
    }
  }

  /** Extraction, exactly.  It is malformed if and only if some record is and the cells before it
      fit; over the work limit if and only if well-formed records pass it before a malformed one
      comes; over the output limit if and only if all is read and the table is too long; and
      otherwise the answer parses back to exactly the rows, or is empty when there is no cell. */
  lemma ExtractionExactly(records: seq<Option<Row>>, maxCells: nat, maxOutputBytes: nat)
    ensures var r := Extraction(records, maxCells, maxOutputBytes);
            && (r == Err(Malformed) <==> exists n: nat :: MalformedAt(records, maxCells, n))
            && (r == Err(WorkLimit) <==> exists n: nat :: OverAt(records, maxCells, n))
            && (r.Ok? || r == Err(OutputLimit) <==> Read(records, maxCells, |records|))
            && (r.Ok? ==> 0 < maxOutputBytes && Utf8Length(r.value) <= maxOutputBytes)
            && (r.Ok? && (exists i :: 0 <= i < |records| && records[i].value != []) ==>
                  ParseTable(r.value) == Some(FlatRows(RowsOf(records))))
            && (r.Ok? && (forall i :: 0 <= i < |records| ==> records[i].value == []) ==> r.value == "")
  {
    var n := ScanIs(records, maxCells);
    match Scan(records, maxCells)
    case Ok(rows) =>
      forall k: nat, e ensures !StopsAt(records, maxCells, k, e) {
        if StopsAt(records, maxCells, k, e) {
          StoppedIsUnread(records, maxCells, k, e);
        }
      }
      NeverStopped(records, maxCells);
      if HasCells(rows) {
        TableRoundTrip(rows);
      }
      assert forall i :: 0 <= i < |records| ==> rows[i] == records[i].value;
    case Err(e) =>
      StoppedIsUnread(records, maxCells, n, e);
      StopsForReason(records, maxCells, n, e);
  }

  /** When all is read, whether it is too long is a matter of the table's bytes alone. */
  lemma TooLongExactly(records: seq<Option<Row>>, maxCells: nat, maxOutputBytes: nat)
    requires Read(records, maxCells, |records|)
    ensures Extraction(records, maxCells, maxOutputBytes) == Err(OutputLimit) <==>
              maxOutputBytes == 0 || Utf8Length(Table(RowsOf(records))) > maxOutputBytes
  {
    var n := ScanIs(records, maxCells);
    if Scan(records, maxCells).Err? {
      StoppedIsUnread(records, maxCells, n, Scan(records, maxCells).error);
    }
  }
}
