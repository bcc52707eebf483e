/** The rotating diagnostic log: a sink that closes a segment rather than let it outgrow the
    configured size.  A failing write may leave the beginning of its record behind. */
module LogSink {
  import opened Common

  type Bytes = seq<bv8>

  const SEGMENT_MAX: nat := 0xFFFF_FFFF

  /** What one write left in the file: a whole record, or what a failed one got written. */
  datatype Chunk = Whole(bytes: Bytes) | Torn(bytes: Bytes)

  type Segment = seq<Chunk>

  /** The bytes of a file. */
  function FileOf(segment: Segment): Bytes {
    if segment == [] then [] else FileOf(segment[..|segment| - 1]) + segment[|segment| - 1].bytes
  }

  /** What a failed write of `record` leaves of at most `n` bytes: never all of it. */
  function Left(record: Bytes, n: nat): Bytes {
    if record == [] then [] else record[..Min(n, |record| - 1)]
  }

  datatype Sink = Sink(closed: seq<Segment>, current: Segment, bytes: nat, number: nat)

  /** Where a rotation fails: flushing, opening the new file, or cleaning up after it. */
  datatype RotateFault = NoFault | FlushFails | OpenFails | CleanupFails

  datatype Faults = Faults(rotate: RotateFault, write: Option<nat>)

  function Empty(): Sink {
    Sink([], [], 0, 0)
  }

  function NextSegment(number: nat): nat {
    Min(number + 1, SEGMENT_MAX)
  }

  predicate Rotates(max: nat, s: Sink, record: Bytes) {
    s.bytes > 0 && SaturatingAdd(s.bytes, |record|) > max
  }

  /** The sink after a rotation, and whether it succeeded. */
  function Rotated(s: Sink, fault: RotateFault): (Sink, bool) {
    match fault
    case FlushFails => (s, false)
    case OpenFails => (s.(number := NextSegment(s.number)), false)
    case CleanupFails => (Sink(s.closed + [s.current], [], 0, NextSegment(s.number)), false)
    case NoFault => (Sink(s.closed + [s.current], [], 0, NextSegment(s.number)), true)
  }

  function Appended(s: Sink, record: Bytes, fault: Option<nat>): (Sink, bool) {
    match fault
    case Some(n) => (s.(current := s.current + [Torn(Left(record, n))]), false)
    case None =>
      (s.(current := s.current + [Whole(record)], bytes := SaturatingAdd(s.bytes, |record|)), true)
  }

  /** `FileSink::write`. */
  function Write(max: nat, s: Sink, record: Bytes, f: Faults): (Sink, bool) {
    if Rotates(max, s, record) then
      var (t, ok) := Rotated(s, f.rotate);
      if ok then Appended(t, record, f.write) else (t, false)
    else Appended(s, record, f.write)
  }

  class FileSink {
    const max: nat
    ghost var closed: seq<Segment>
    var current: Segment
    var bytes: nat
    var segment: nat

    ghost function View(): Sink
      reads this
    {
      Sink(closed, current, bytes, segment)
    }

    constructor (max: nat)
      ensures View() == Empty() && this.max == max
    {
      this.max := max;
      closed, current, bytes, segment := [], [], 0, 0;
    }

    method Rotate(fault: RotateFault) returns (ok: bool)
      modifies this
      ensures (View(), ok) == Rotated(old(View()), fault)
    {
      if fault.FlushFails? {
        return false;
      }
      segment := NextSegment(segment);
      if fault.OpenFails? {
        return false;
      }
      closed := closed + [current];
      current := [];
      bytes := 0;
      ok := !fault.CleanupFails?;
    }

    method WriteRecord(record: Bytes, f: Faults) returns (ok: bool)
      modifies this
      ensures (View(), ok) == Write(max, old(View()), record, f)
    {
      if bytes > 0 && SaturatingAdd(bytes, |record|) > max {
        ok := Rotate(f.rotate);
        if !ok {
          return;
        }
      }
      if f.write.Some? {
        current := current + [Torn(Left(record, f.write.value))];
        return false;
      }
      current := current + [Whole(record)];
      bytes := SaturatingAdd(bytes, |record|);
      ok := true;
    }
  }

  // ---------------------------------------------------------------- what the segments hold

  datatype Call = Call(record: Bytes, faults: Faults)

  function After(max: nat, calls: seq<Call>): Sink {
    if calls == [] then Empty()
    else Write(max, After(max, calls[..|calls| - 1]), calls[|calls| - 1].record, calls[|calls| - 1].faults).0
  }

  /** The records whose write reported success. */
  function Reported(max: nat, calls: seq<Call>): seq<Bytes> {
    if calls == [] then []
    else
      var front := calls[..|calls| - 1];
      var last := calls[|calls| - 1];
      if Write(max, After(max, front), last.record, last.faults).1 then Reported(max, front) + [last.record]
      else Reported(max, front)
  }

  function RecordsOf(segment: Segment): seq<Bytes> {
    if segment == [] then []
    else
      var last := segment[|segment| - 1];
      RecordsOf(segment[..|segment| - 1]) + if last.Whole? then [last.bytes] else []
  }

  function Records(segments: seq<Segment>): seq<Bytes> {
    if segments == [] then [] else Records(segments[..|segments| - 1]) + RecordsOf(segments[|segments| - 1])
  }

  /** All the records of a sink, from segment to segment. */
  function Stream(s: Sink): seq<Bytes> {
    Records(s.closed) + RecordsOf(s.current)
  }

  function Size(records: seq<Bytes>): nat {
    if records == [] then 0 else Size(records[..|records| - 1]) + |records[|records| - 1]|
  }

  /** At most `max` bytes of records, or one oversized record that found the file empty. */
  predicate Fits(max: nat, records: seq<Bytes>) {
    Size(records) <= max || (records != [] && Size(records[..|records| - 1]) == 0)
  }

  lemma SizeGrows(records: seq<Bytes>, record: Bytes)
    ensures Size(records + [record]) == Size(records) + |record|
  {
    assert (records + [record])[..|records|] == records;
  }

  lemma RecordsGrow(segments: seq<Segment>, segment: Segment)
    ensures Records(segments + [segment]) == Records(segments) + RecordsOf(segment)
  {
    assert (segments + [segment])[..|segments|] == segments;
  }

  lemma ChunkGrows(segment: Segment, chunk: Chunk)
    ensures RecordsOf(segment + [chunk]) == RecordsOf(segment) + if chunk.Whole? then [chunk.bytes] else []
    ensures FileOf(segment + [chunk]) == FileOf(segment) + chunk.bytes
  {
    assert (segment + [chunk])[..|segment|] == segment;
  }

  /** Rotating moves records between segments and loses none. */
  lemma RotationKeepsStream(s: Sink, fault: RotateFault)
    ensures Stream(Rotated(s, fault).0) == Stream(s)
  {
    RecordsGrow(s.closed, s.current);
  }

  lemma AppendExtendsStream(s: Sink, record: Bytes, fault: Option<nat>)
    ensures var (t, ok) := Appended(s, record, fault); Stream(t) == Stream(s) + if ok then [record] else []
  {
    ChunkGrows(s.current, if fault.None? then Whole(record) else Torn(Left(record, fault.value)));
    assert Records(s.closed) + (RecordsOf(s.current) + [record]) == Stream(s) + [record];
  }

  lemma WriteExtendsStream(max: nat, s: Sink, record: Bytes, f: Faults)
    ensures var (t, ok) := Write(max, s, record, f); Stream(t) == Stream(s) + if ok then [record] else []
  {
    if Rotates(max, s, record) {
      RotationKeepsStream(s, f.rotate);
      if Rotated(s, f.rotate).1 {
        AppendExtendsStream(Rotated(s, f.rotate).0, record, f.write);
      } else {
        assert Stream(s) + [] == Stream(s);
      }
    } else {
      AppendExtendsStream(s, record, f.write);
    }
  }

  /** The whole records of the segments are exactly those whose write reported success, in
      order. */
  lemma {:induction false} SegmentsHoldTheReported(max: nat, calls: seq<Call>)
    ensures Stream(After(max, calls)) == Reported(max, calls)
  {
    if calls != [] {
      var front, last := calls[..|calls| - 1], calls[|calls| - 1];
      SegmentsHoldTheReported(max, front);
      WriteExtendsStream(max, After(max, front), last.record, last.faults);
    }
  }

  // ---------------------------------------------------------------- the bytes of the files

  function Joined(records: seq<Bytes>): Bytes {
    if records == [] then [] else Joined(records[..|records| - 1]) + records[|records| - 1]
  }

  function Files(segments: seq<Segment>): Bytes {
    if segments == [] then [] else Files(segments[..|segments| - 1]) + FileOf(segments[|segments| - 1])
  }

  /** All the files of a sink, one after the other. */
  function Contents(s: Sink): Bytes {
    Files(s.closed) + FileOf(s.current)
  }

  /** How many bytes failed writes left. */
  function TornOf(segment: Segment): nat {
    if segment == [] then 0
    else
      var last := segment[|segment| - 1];
      TornOf(segment[..|segment| - 1]) + if last.Torn? then |last.bytes| else 0
  }

  function TornIn(segments: seq<Segment>): nat {
    if segments == [] then 0 else TornIn(segments[..|segments| - 1]) + TornOf(segments[|segments| - 1])
  }

  function TornBytes(s: Sink): nat {
    TornIn(s.closed) + TornOf(s.current)
  }

  lemma {:induction false} JoinedConcat(a: seq<Bytes>, b: seq<Bytes>)
    ensures Joined(a + b) == Joined(a) + Joined(b)
    decreases |b|
  {
    if b == [] {
      assert a + b == a;
    } else {
      assert (a + b)[..|a + b| - 1] == a + b[..|b| - 1];
      JoinedConcat(a, b[..|b| - 1]);
      assert (Joined(a) + Joined(b[..|b| - 1])) + b[|b| - 1] == Joined(a) + (Joined(b[..|b| - 1]) + b[|b| - 1]);
    }
  }

  lemma {:induction false} JoinedSize(records: seq<Bytes>)
    ensures |Joined(records)| == Size(records)
  {
    if records != [] {
      JoinedSize(records[..|records| - 1]);
    }
  }

  /** A file is its records and its torn bytes, and only its records when there are none. */
  lemma {:induction false} FileParts(segment: Segment)
    ensures |FileOf(segment)| == Size(RecordsOf(segment)) + TornOf(segment)
    ensures TornOf(segment) == 0 ==> FileOf(segment) == Joined(RecordsOf(segment))
  {
    if segment != [] {
      var front, last := segment[..|segment| - 1], segment[|segment| - 1];
      FileParts(front);
      if last.Whole? {
        SizeGrows(RecordsOf(front), last.bytes);
        JoinedConcat(RecordsOf(front), [last.bytes]);
        assert Joined([last.bytes]) == last.bytes by { assert [last.bytes][..0] == []; }
      } else {
        assert RecordsOf(segment) == RecordsOf(front) + [] == RecordsOf(front);
      }
    }
  }

  lemma {:induction false} FilesParts(segments: seq<Segment>)
    ensures |Files(segments)| == |Joined(Records(segments))| + TornIn(segments)
    ensures TornIn(segments) == 0 ==> Files(segments) == Joined(Records(segments))
  {
    if segments != [] {
      var front, last := segments[..|segments| - 1], segments[|segments| - 1];
      FilesParts(front);
      FileParts(last);
      JoinedConcat(Records(front), RecordsOf(last));
      JoinedSize(RecordsOf(last));
    }
  }

  /** The files hold the reported records and nothing else if and only if no failed write left
      a byte; otherwise a record shares its line with the remains before it. */
  lemma FilesAreTheReportedExactlyWhenNothingIsTorn(max: nat, calls: seq<Call>)
    ensures Contents(After(max, calls)) == Joined(Reported(max, calls)) <==> TornBytes(After(max, calls)) == 0
  {
    var s := After(max, calls);
    SegmentsHoldTheReported(max, calls);
    FilesParts(s.closed);
    FileParts(s.current);
    JoinedConcat(Records(s.closed), RecordsOf(s.current));
    JoinedSize(RecordsOf(s.current));
  }

  // ---------------------------------------------------------------- the size of the files

  /** Every closed segment holds a record and its records fit; those of the current one fit,
      and the byte counter is their size. */
  predicate Bounded(max: nat, s: Sink) {
    && s.bytes == Min(Size(RecordsOf(s.current)), U64_MAX) && Fits(max, RecordsOf(s.current))
    && forall i :: 0 <= i < |s.closed| ==> RecordsOf(s.closed[i]) != [] && Fits(max, RecordsOf(s.closed[i]))
  }

  lemma RotationKeepsBounds(max: nat, s: Sink, fault: RotateFault)
    requires Bounded(max, s) && s.bytes > 0
    ensures Bounded(max, Rotated(s, fault).0)
  {
    assert RecordsOf(s.current) != [];
  }

  lemma FitsGrows(max: nat, records: seq<Bytes>, record: Bytes)
    requires Size(records) == 0 || Size(records) + |record| <= max
    ensures Fits(max, records + [record])
  {
    SizeGrows(records, record);
    assert (records + [record])[..|records + [record]| - 1] == records;
  }

  lemma AppendKeepsBounds(max: nat, s: Sink, record: Bytes, fault: Option<nat>)
    requires Bounded(max, s) && max < U64_MAX
    requires s.bytes == 0 || s.bytes + |record| <= max
    ensures Bounded(max, Appended(s, record, fault).0)
  {
    if fault.None? {
      ChunkGrows(s.current, Whole(record));
      SizeGrows(RecordsOf(s.current), record);
      FitsGrows(max, RecordsOf(s.current), record);
    } else {
      ChunkGrows(s.current, Torn(Left(record, fault.value)));
      assert RecordsOf(s.current) + [] == RecordsOf(s.current);
    }
  }

  lemma WriteKeepsBounds(max: nat, s: Sink, record: Bytes, f: Faults)
    requires Bounded(max, s) && max < U64_MAX
    ensures Bounded(max, Write(max, s, record, f).0)
  {
    if Rotates(max, s, record) {
      RotationKeepsBounds(max, s, f.rotate);
      if Rotated(s, f.rotate).1 {
        AppendKeepsBounds(max, Rotated(s, f.rotate).0, record, f.write);
      }
    } else {
      AppendKeepsBounds(max, s, record, f.write);
    }
  }

  /** The records of a segment are within the limit or one oversized record, and no rotation
      leaves a segment without one, whatever fails. */
  lemma {:induction false} RecordsAreBounded(max: nat, calls: seq<Call>)
    requires max < U64_MAX
    ensures Bounded(max, After(max, calls))
  {
    if calls != [] {
      var front, last := calls[..|calls| - 1], calls[|calls| - 1];
      RecordsAreBounded(max, front);
      WriteKeepsBounds(max, After(max, front), last.record, last.faults);
    }
  }

  /** The file is within the limit, or is one record. */
  ghost predicate FileFits(max: nat, segment: Segment) {
    |FileOf(segment)| <= max || FileOf(segment) in RecordsOf(segment)
  }

  ghost predicate FilesFit(max: nat, s: Sink) {
    FileFits(max, s.current) && forall i :: 0 <= i < |s.closed| ==> FileFits(max, s.closed[i])
  }

  /** No failed write of the run left more than `n` bytes. */
  predicate LeavesAtMost(calls: seq<Call>, n: nat) {
    forall i :: 0 <= i < |calls| && calls[i].faults.write.Some? ==> calls[i].faults.write.value <= n
  }

  lemma OnlyRecordFits(max: nat, segment: Segment)
    requires TornOf(segment) == 0 && Fits(max, RecordsOf(segment))
    ensures FileFits(max, segment)
  {
    var records := RecordsOf(segment);
    FileParts(segment);
    JoinedSize(records);
    if Size(records) > max {
      JoinedSize(records[..|records| - 1]);
      assert Joined(records) == [] + records[|records| - 1] == records[|records| - 1];
    }
  }

  lemma {:induction false} NothingTorn(max: nat, calls: seq<Call>)
    requires LeavesAtMost(calls, 0)
    ensures Clean(After(max, calls))
  {
    if calls != [] {
      var front, last := calls[..|calls| - 1], calls[|calls| - 1];
      NothingTorn(max, front);
      NothingTornByWrite(max, After(max, front), last.record, last.faults);
    }
  }

  predicate Clean(s: Sink) {
    TornOf(s.current) == 0 && forall i :: 0 <= i < |s.closed| ==> TornOf(s.closed[i]) == 0
  }

  lemma AppendStaysClean(s: Sink, record: Bytes, fault: Option<nat>)
    requires Clean(s) && (fault.Some? ==> fault.value == 0)
    ensures Clean(Appended(s, record, fault).0)
  {
    var chunk := if fault.None? then Whole(record) else Torn(Left(record, fault.value));
    assert (s.current + [chunk])[..|s.current|] == s.current;
  }

  lemma NothingTornByWrite(max: nat, s: Sink, record: Bytes, f: Faults)
    requires Clean(s) && (f.write.Some? ==> f.write.value == 0)
    ensures Clean(Write(max, s, record, f).0)
  {
    if Rotates(max, s, record) {
      assert Clean(Rotated(s, f.rotate).0);
      if Rotated(s, f.rotate).1 {
        AppendStaysClean(Rotated(s, f.rotate).0, record, f.write);
      }
    } else {
      AppendStaysClean(s, record, f.write);
    }
  }

  /** n failed writes of a two-byte record, each leaving its first byte. */
  function Failing(n: nat): seq<Call> {
    seq(n, _ => Call([0, 0], Faults(NoFault, Some(1))))
  }

  lemma {:induction false} FailingGrows(max: nat, n: nat)
    ensures After(max, Failing(n)).closed == [] && After(max, Failing(n)).bytes == 0
    ensures |FileOf(After(max, Failing(n)).current)| == n && RecordsOf(After(max, Failing(n)).current) == []
  {
    if n > 0 {
      FailingGrows(max, n - 1);
      assert Failing(n)[..n - 1] == Failing(n - 1);
      ChunkGrows(After(max, Failing(n - 1)).current, Torn(Left([0, 0], 1)));
    }
  }

  /** The size of files is bounded in every run whose failed writes leave at most n bytes if
      and only if n is zero: torn bytes are never counted, so a single byte each is enough to
      pass any limit. */
  lemma FilesFitExactlyWhenNothingIsTorn(max: nat, n: nat)
    requires max < U64_MAX
    ensures (forall calls :: LeavesAtMost(calls, n) ==> FilesFit(max, After(max, calls))) <==> n == 0
  {
    if n == 0 {
      forall calls | LeavesAtMost(calls, n) ensures FilesFit(max, After(max, calls)) {
        CleanFilesFit(max, calls);
      }
    } else {
      FailingGrows(max, max + 1);
      assert LeavesAtMost(Failing(max + 1), n) && !FilesFit(max, After(max, Failing(max + 1)));
    }
  }

  lemma CleanFilesFit(max: nat, calls: seq<Call>)
    requires max < U64_MAX && LeavesAtMost(calls, 0)
    ensures FilesFit(max, After(max, calls))
  {
    var s := After(max, calls);
    RecordsAreBounded(max, calls);
    NothingTorn(max, calls);
    OnlyRecordFits(max, s.current);
    forall i | 0 <= i < |s.closed| ensures FileFits(max, s.closed[i]) {
      OnlyRecordFits(max, s.closed[i]);
    }
  }

  // ---------------------------------------------------------------- rotation, and only when needed

  /** A failed write adds a beginning of its record: as much as it got written, but never all. */
  predicate LeavesABeginning(s: Sink, t: Sink, record: Bytes, n: nat) {
    && |t.current| == |s.current| + 1 && s.current <= t.current
    && var left := t.current[|s.current|];
       && left.Torn? && left.bytes <= record
       && (record == [] || |left.bytes| == if n < |record| then n else |record| - 1)
  }

  lemma AppendExactly(s: Sink, record: Bytes, fault: Option<nat>)
    ensures var (t, ok) := Appended(s, record, fault);
            && (ok <==> fault == None) && t.closed == s.closed && t.number == s.number
            && RecordsOf(t.current) == RecordsOf(s.current) + (if ok then [record] else [])
            && (ok ==> t.current == s.current + [Whole(record)])
            && (!ok ==> LeavesABeginning(s, t, record, fault.value))
            && t.bytes == if ok then Min(s.bytes + |record|, 0xFFFF_FFFF_FFFF_FFFF) else s.bytes
  {
    if fault.Some? {
      ChunkGrows(s.current, Torn(Left(record, fault.value)));
    } else {
      ChunkGrows(s.current, Whole(record));
    }
  }

  predicate MustRotate(max: nat, s: Sink, record: Bytes) {
    s.bytes > 0 && (s.bytes + |record| > max && max < 0xFFFF_FFFF_FFFF_FFFF)
  }

  /** A write that stays in its segment: the segment is empty or the record fits. */
  lemma StayExactly(max: nat, s: Sink, record: Bytes, f: Faults)
    requires !MustRotate(max, s, record)
    ensures Write(max, s, record, f) == Appended(s, record, f.write)
  {
  }

  lemma RotationFails(max: nat, s: Sink, record: Bytes, f: Faults)
    requires MustRotate(max, s, record)
    ensures f.rotate == FlushFails ==> Write(max, s, record, f) == (s, false)
    ensures f.rotate == OpenFails ==>
              Write(max, s, record, f) == (s.(number := Min(s.number + 1, 4_294_967_295)), false)
    ensures f.rotate == CleanupFails ==>
              Write(max, s, record, f)
              == (Sink(s.closed + [s.current], [], 0, Min(s.number + 1, 4_294_967_295)), false)
  {
  }

  lemma RotationBegins(max: nat, s: Sink, record: Bytes, f: Faults)
    requires MustRotate(max, s, record) && f.rotate == NoFault
    ensures Write(max, s, record, f)
            == Appended(Sink(s.closed + [s.current], [], 0, Min(s.number + 1, 4_294_967_295)), record, f.write)
  {
  }

  /** A write that must rotate: it fails with the rotation, and otherwise begins a new segment. */
  lemma RotateExactly(max: nat, s: Sink, record: Bytes, f: Faults)
    requires MustRotate(max, s, record)
    ensures var (t, ok) := Write(max, s, record, f);
            && (ok <==> f.rotate == NoFault && f.write == None)
            && (f.rotate == FlushFails ==> t == s)
            && (f.rotate == OpenFails ==> t == s.(number := Min(s.number + 1, 4_294_967_295)))
            && (f.rotate == NoFault || f.rotate == CleanupFails ==>
                  && t.closed == s.closed + [s.current] && t.number == Min(s.number + 1, 4_294_967_295)
                  && RecordsOf(t.current) == (if ok then [record] else [])
                  && t.bytes == if ok then Min(|record|, 0xFFFF_FFFF_FFFF_FFFF) else 0)
  {
    RotationFails(max, s, record, f);
    if f.rotate == NoFault {
      RotationBegins(max, s, record, f);
      AppendExactly(Sink(s.closed + [s.current], [], 0, Min(s.number + 1, 4_294_967_295)), record, f.write);
    }
  }

  /** No fault at all. */
  predicate Faultless(calls: seq<Call>) {
    forall i :: 0 <= i < |calls| ==> calls[i].faults == Faults(NoFault, None)
  }

  /** Segment i is full: with the first record of `next` it would pass the limit. */
  predicate FullBefore(max: nat, segment: Segment, next: Segment) {
    RecordsOf(next) != [] && Size(RecordsOf(segment)) + |RecordsOf(next)[0]| > max
  }

  /** Each closed segment is full. */
  predicate Full(max: nat, s: Sink) {
    && (forall i :: 0 <= i < |s.closed| - 1 ==> FullBefore(max, s.closed[i], s.closed[i + 1]))
    && (s.closed != [] ==> FullBefore(max, s.closed[|s.closed| - 1], s.current))
    && s.bytes == Min(Size(RecordsOf(s.current)), U64_MAX)
  }

  lemma FullAfterStay(max: nat, s: Sink, record: Bytes)
    requires Full(max, s)
    ensures Full(max, Appended(s, record, None).0)
  {
    AppendExactly(s, record, None);
    SizeGrows(RecordsOf(s.current), record);
  }

  lemma FullAfterRotate(max: nat, s: Sink, record: Bytes, t: Sink)
    requires Full(max, s) && MustRotate(max, s, record)
    requires t == Write(max, s, record, Faults(NoFault, None)).0
    ensures Full(max, t)
  {
    RotateExactly(max, s, record, Faults(NoFault, None));
    SizeGrows([], record);
    assert [] + [record] == [record];
    assert FullBefore(max, s.current, t.current);
    forall i | 0 <= i < |t.closed| - 1 ensures FullBefore(max, t.closed[i], t.closed[i + 1]) {
      assert t.closed[i] == s.closed[i];
    }
  }

  lemma WriteStaysFull(max: nat, s: Sink, record: Bytes)
    requires Full(max, s) && max < U64_MAX
    ensures var (t, ok) := Write(max, s, record, Faults(NoFault, None)); ok && Full(max, t)
  {
    if MustRotate(max, s, record) {
      RotateExactly(max, s, record, Faults(NoFault, None));
      FullAfterRotate(max, s, record, Write(max, s, record, Faults(NoFault, None)).0);
    } else {
      StayExactly(max, s, record, Faults(NoFault, None));
      AppendExactly(s, record, None);
      FullAfterStay(max, s, record);
    }
  }

  /** Without faults no segment is closed before it is full. */
  lemma {:induction false} RotatesOnlyWhenFull(max: nat, calls: seq<Call>)
    requires max < U64_MAX && Faultless(calls)
    ensures Full(max, After(max, calls))
  {
    if calls != [] {
      var n := |calls| - 1;
      RotatesOnlyWhenFull(max, calls[..n]);
      assert calls[n].faults == Faults(NoFault, None);
      WriteStaysFull(max, After(max, calls[..n]), calls[n].record);
    }
  }

  lemma FaultlessSucceeds(max: nat, s: Sink, record: Bytes)
    requires max < U64_MAX
    ensures Write(max, s, record, Faults(NoFault, None)).1
  {
    if MustRotate(max, s, record) {
      RotateExactly(max, s, record, Faults(NoFault, None));
    } else {
      StayExactly(max, s, record, Faults(NoFault, None));
    }
  }

  /** And every record is reported. */
  lemma {:induction false} FaultlessIsReported(max: nat, calls: seq<Call>)
    requires max < U64_MAX && Faultless(calls)
    ensures |Reported(max, calls)| == |calls|
    ensures forall i :: 0 <= i < |calls| ==> Reported(max, calls)[i] == calls[i].record
  {
    if calls != [] {
      var n := |calls| - 1;
      FaultlessIsReported(max, calls[..n]);
      assert calls[n].faults == Faults(NoFault, None);
      FaultlessSucceeds(max, After(max, calls[..n]), calls[n].record);
      assert Reported(max, calls) == Reported(max, calls[..n]) + [calls[n].record];
    }
  }
}
