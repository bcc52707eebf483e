/** Streaming verification of stored artifacts: `verify_path` and `read_verified_range`.

    A read may return any positive number of bytes up to the chunk size, and fails where the
    file says so; what the reader then does is the same for every choice of chunks. */
module ArtifactReader {
  import opened Common

  type Bytes = seq<bv8>
  type Hash = nat

  const CHUNK: nat := 16 * 1024
  const USIZE_MAX: nat := U64_MAX

  datatype ReadError =
    | InvalidLimit(value: nat)
    | TooLarge(actual: nat, limit: nat)
    | InvalidRange(offset: nat, length: nat)
    | CorruptContent
    | ChangedDuringRead
    | Io

  datatype Range = Range(offset: nat, total: nat, bytes: Bytes, truncatedAfter: bool)

  /** The file behind a path: what its metadata says, what reading it to the end yields,
      whether the path still names it afterwards, and which reads of it fail. */
  datatype File = File(metadataLen: nat, content: Bytes, stillNamed: bool, fails: nat -> bool)

  ghost predicate Faulty(file: File) {
    exists k: nat :: file.fails(k)
  }

  /** The compiled resource ceiling. */
  datatype Limits = Limits(ceiling: nat)

  /** One `read` of at most `limit` bytes from `position`; None is an I/O error. */
  method ReadSome(content: Bytes, position: nat, limit: nat, fails: bool) returns (n: Option<nat>)
    requires position <= |content| && limit > 0
    ensures n.None? <==> fails
    ensures n.Some? ==> n.value <= limit && position + n.value <= |content|
    ensures n.Some? ==> (n.value == 0 <==> position == |content|)
  {
    if fails {
      n := None;
    } else if position == |content| {
      n := Some(0);
    } else {
      var size: nat :| 1 <= size <= limit && position + size <= |content|;
      n := Some(size);
    }
  }

  /** `verify_path`: apart from I/O errors it accepts exactly a file whose metadata has the
      expected length, within the limit, and of which as many first bytes hash as expected.  A
      file that grew after its metadata was read is accepted for its beginning. */
  method VerifyPath(hash: Bytes -> Hash, file: File, expectedHash: Hash, expectedLen: nat, maxBytes: nat)
    returns (r: Result<(), ReadError>)
    ensures r == Ok(()) || r == Err(CorruptContent) || r == Err(Io)
    ensures r == Err(Io) ==> Faulty(file)
    ensures r != Err(Io) ==>
              (r.Ok? <==> file.metadataLen == expectedLen && expectedLen <= maxBytes
                          && expectedLen <= |file.content| && hash(file.content[..expectedLen]) == expectedHash)
  {
    if file.metadataLen != expectedLen || file.metadataLen > maxBytes {
      return Err(CorruptContent);
    }
    var hashed: Bytes := [];
    var remaining := expectedLen;
    var asked := 0;
    while remaining > 0
      invariant |hashed| + remaining == expectedLen && |hashed| <= |file.content| && hashed == file.content[..|hashed|]
    {
      var read := ReadSome(file.content, |hashed|, Min(remaining, CHUNK), file.fails(asked));
      asked := asked + 1;
      if read.None? {
        return Err(Io);
      }
      if read.value == 0 {
        return Err(CorruptContent);
      }
      hashed := hashed + file.content[|hashed|..|hashed| + read.value];
      remaining := remaining - read.value;
    }
    if hash(hashed) != expectedHash {
      return Err(CorruptContent);
    }
    r := Ok(());
  }

  /** The bytes of `content` in the window of at most `window` bytes from `offset`. */
  function Window(content: Bytes, offset: nat, window: nat): Bytes
    requires offset <= |content|
  {
    content[offset..Min(offset + window, |content|)]
  }

  /** What a reader without I/O errors answers: the window, or the first check that fails. */
  function RangeOf(hash: Bytes -> Hash, file: File, limits: Limits, declared: nat, expected: Hash,
                   offset: nat, window: nat, maxBytes: nat): Result<Range, ReadError>
  {
    if maxBytes == 0 || maxBytes > limits.ceiling then Err(InvalidLimit(maxBytes))
    else if declared > maxBytes then Err(TooLarge(declared, maxBytes))
    else if offset > declared then Err(InvalidRange(offset, declared))
    else if file.metadataLen != declared then Err(CorruptContent)
    else if |file.content| != declared || hash(file.content) != expected then Err(CorruptContent)
    else if !file.stillNamed then Err(ChangedDuringRead)
    else Ok(Range(offset, declared, Window(file.content, offset, window), offset + window < declared))
  }

  /** The part of the window [offset, end) among the first `upto` bytes. */
  function Copied(content: Bytes, offset: nat, end: nat, upto: nat): Bytes
    requires offset <= end && upto <= |content|
  {
    if upto <= offset then [] else content[offset..Min(upto, end)]
  }

  lemma SliceOfSlice(content: Bytes, a: nat, b: nat, c: nat, d: nat)
    requires a <= c <= d <= b <= |content|
    ensures content[a..b][c - a..d - a] == content[c..d]
  {
    var l, r := content[a..b][c - a..d - a], content[c..d];
    assert |l| == |r|;
    forall i | 0 <= i < |l| ensures l[i] == r[i] {
      assert l[i] == content[a..b][c - a + i] == content[c + i];
    }
  }

  lemma SliceSplit(content: Bytes, a: nat, b: nat, c: nat)
    requires a <= b <= c <= |content|
    ensures content[a..b] + content[b..c] == content[a..c]
  {
  }

  /** The bytes of the chunk [from, to) that the window [offset, end) takes. */
  function Taken(content: Bytes, offset: nat, end: nat, from: nat, to: nat): Bytes
    requires from <= to <= |content|
  {
    var start := if from < offset then offset else from;
    var stop := Min(to, end);
    if start < stop then content[start..stop] else []
  }

  lemma CopiedStep(content: Bytes, offset: nat, end: nat, from: nat, to: nat)
    requires offset <= end && from < to <= |content|
    ensures Copied(content, offset, end, to)
            == Copied(content, offset, end, from) + Taken(content, offset, end, from, to)
  {
    if offset < from && from < end {
      SliceSplit(content, offset, from, Min(to, end));
    }
  }

  /** `read_verified_range`.  However the file is chunked the answer is RangeOf, unless a read
      fails or the file outgrows the byte limit between its metadata and its last byte. */
  method ReadVerifiedRange(hash: Bytes -> Hash, file: File, limits: Limits, declared: nat, expected: Hash,
                           offset: nat, window: nat, maxBytes: nat) returns (r: Result<Range, ReadError>)
    requires declared <= U64_MAX && window <= USIZE_MAX && maxBytes <= USIZE_MAX
    ensures r == RangeOf(hash, file, limits, declared, expected, offset, window, maxBytes)
         || r == Err(Io)
         || (r.Err? && r.error.TooLarge? && |file.content| > maxBytes)
    ensures r == Err(Io) ==> Faulty(file)
    ensures r.Ok? ==> RangeOf(hash, file, limits, declared, expected, offset, window, maxBytes) == r
  {
    if maxBytes == 0 || maxBytes > limits.ceiling {
      return Err(InvalidLimit(maxBytes));
    }
    if declared > maxBytes {
      return Err(TooLarge(declared, maxBytes));
    }
    if offset > declared {
      return Err(InvalidRange(offset, declared));
    }
    if file.metadataLen != declared {
      return Err(CorruptContent);
    }
    var requestedEnd := Min(SaturatingAdd(offset, window), declared);
    assert requestedEnd == Min(offset + window, declared);
    var range: Bytes := [];
    var hashed: Bytes := [];
    var actual := 0;
    var done := false;
    var asked := 0;
    while !done
      invariant actual <= |file.content| && hashed == file.content[..actual]
      invariant actual <= maxBytes && (done ==> actual == |file.content|)
      invariant range == Copied(file.content, offset, requestedEnd, actual)
      decreases |file.content| - actual, !done
    {
      var read := ReadSome(file.content, actual, CHUNK, file.fails(asked));
      asked := asked + 1;
      if read.None? {
        return Err(Io);
      }
      if read.value == 0 {
        done := true;
      } else {
        var chunkStart := actual;
        var chunk := file.content[chunkStart..chunkStart + read.value];
        actual := actual + read.value;
        if actual > maxBytes {
          return Err(TooLarge(actual, maxBytes));
        }
        assert file.content[..actual] == file.content[..chunkStart] + chunk;
        hashed := hashed + chunk;
        CopiedStep(file.content, offset, requestedEnd, chunkStart, actual);
        var copyStart := if chunkStart < offset then offset else chunkStart;
        var copyEnd := Min(actual, requestedEnd);
        if copyStart < copyEnd {
          SliceOfSlice(file.content, chunkStart, actual, copyStart, copyEnd);
          range := range + chunk[copyStart - chunkStart..copyEnd - chunkStart];
        }
        assert range == Copied(file.content, offset, requestedEnd, actual);
      }
    }
    assert hashed == file.content;
    if actual != declared || hash(hashed) != expected {
      return Err(CorruptContent);
    }
    assert range == Window(file.content, offset, window);
    if !file.stillNamed {
      return Err(ChangedDuringRead);
    }
    r := Ok(Range(offset, declared, range, requestedEnd < declared));
  }

  /** What passes the checks before a byte is read. */
  predicate Admitted(file: File, limits: Limits, declared: nat, offset: nat, maxBytes: nat) {
    0 < maxBytes <= limits.ceiling && declared <= maxBytes && offset <= declared
  }

  /** The answer, exactly: a range of genuine content that is still in place, whose bytes are
      those from the offset on, as many as fit; or the first thing that is wrong. */
  lemma RangeExactly(hash: Bytes -> Hash, file: File, limits: Limits, declared: nat, expected: Hash, offset: nat,
                     window: nat, maxBytes: nat)
    ensures var r := RangeOf(hash, file, limits, declared, expected, offset, window, maxBytes);
            var genuine := file.metadataLen == declared == |file.content| && hash(file.content) == expected;
            && (r.Ok? <==> Admitted(file, limits, declared, offset, maxBytes) && genuine && file.stillNamed)
            && (r.Ok? ==>
                  && r.value.offset == offset && r.value.total == declared
                  && |r.value.bytes| == (if window <= declared - offset then window else declared - offset)
                  && (forall i :: 0 <= i < |r.value.bytes| ==> r.value.bytes[i] == file.content[offset + i])
                  && (r.value.truncatedAfter <==> offset + |r.value.bytes| < declared))
            && (r == Err(InvalidLimit(maxBytes)) <==> !(0 < maxBytes <= limits.ceiling))
            && (r == Err(TooLarge(declared, maxBytes)) <==> 0 < maxBytes <= limits.ceiling && declared > maxBytes)
            && (r == Err(InvalidRange(offset, declared)) <==>
                  0 < maxBytes <= limits.ceiling && declared <= maxBytes && offset > declared)
            && (r == Err(CorruptContent) <==> Admitted(file, limits, declared, offset, maxBytes) && !genuine)
            && (r == Err(ChangedDuringRead) <==>
                  Admitted(file, limits, declared, offset, maxBytes) && genuine && !file.stillNamed)
  {
  }

  // ---------------------------------------------------------------- pagination

  /** The windows a caller reads who continues where the last one ended while it says
      `truncatedAfter`. */
  function Pages(content: Bytes, offset: nat, window: nat): seq<Bytes>
    requires offset <= |content| && window > 0
    decreases |content| - offset
  {
    var page := Window(content, offset, window);
    if offset + window < |content| then [page] + Pages(content, offset + |page|, window) else [page]
  }

  function Concatenated(pages: seq<Bytes>): Bytes {
    if pages == [] then [] else pages[0] + Concatenated(pages[1..])
  }

  lemma ConcatenatedCons(page: Bytes, rest: seq<Bytes>)
    ensures Concatenated([page] + rest) == page + Concatenated(rest)
  {
    assert ([page] + rest)[1..] == rest;
  }

  lemma {:induction false} PagesConcatenate(content: Bytes, offset: nat, window: nat)
    requires offset <= |content| && window > 0
    ensures Concatenated(Pages(content, offset, window)) == content[offset..]
    decreases |content| - offset
  {
    var page := Window(content, offset, window);
    if offset + window < |content| {
      PagesConcatenate(content, offset + window, window);
      ConcatenatedCons(page, Pages(content, offset + window, window));
      SliceSplit(content, offset, offset + window, |content|);
    } else {
      ConcatenatedCons(page, []);
      assert [page] + [] == [page] && page == content[offset..];
    }
  }

  lemma {:induction false} PagesAreFull(content: Bytes, offset: nat, window: nat)
    requires offset <= |content| && window > 0
    ensures forall i :: 0 <= i < |Pages(content, offset, window)| - 1 ==> |Pages(content, offset, window)[i]| == window
    decreases |content| - offset
  {
    if offset + window < |content| {
      PagesAreFull(content, offset + window, window);
    }
  }

  /** Reading window after window ends, and yields the rest of the artifact exactly, in full
      windows up to the last. */
  lemma PagesCoverTheArtifact(content: Bytes, offset: nat, window: nat)
    requires offset <= |content| && window > 0
    ensures Concatenated(Pages(content, offset, window)) == content[offset..]
    ensures forall i :: 0 <= i < |Pages(content, offset, window)| - 1 ==> |Pages(content, offset, window)[i]| == window
  {
    PagesConcatenate(content, offset, window);
    PagesAreFull(content, offset, window);
  }

  /** A caller has read `pages`, together `read`, from `offset` up to `at`. */
  predicate Progress(content: Bytes, offset: nat, at: nat, window: nat, pages: seq<Bytes>, read: Bytes)
    requires window > 0
  {
    && offset <= at <= |content| && read == content[offset..at]
    && pages + Pages(content, at, window) == Pages(content, offset, window)
  }

  lemma ProgressGoesOn(content: Bytes, offset: nat, at: nat, window: nat, pages: seq<Bytes>, read: Bytes)
    requires window > 0 && Progress(content, offset, at, window, pages, read) && at + window < |content|
    ensures var page := Window(content, at, window);
            Progress(content, offset, at + window, window, pages + [page], read + page)
  {
    var page, rest := Window(content, at, window), Pages(content, at + window, window);
    assert (pages + [page]) + rest == pages + ([page] + rest);
    SliceSplit(content, offset, at, at + window);
  }

  lemma ProgressEnds(content: Bytes, offset: nat, at: nat, window: nat, pages: seq<Bytes>, read: Bytes)
    requires window > 0 && Progress(content, offset, at, window, pages, read) && at + window >= |content|
    ensures var page := Window(content, at, window);
            pages + [page] == Pages(content, offset, window) && read + page == content[offset..]
  {
    SliceSplit(content, offset, at, |content|);
    assert content[offset..|content|] == content[offset..] && Window(content, at, window) == content[at..|content|];
  }

  /** A caller that reads window after window of a stored artifact, each where the last one
      ended, until one says that nothing was truncated. */
  method ReadPages(hash: Bytes -> Hash, file: File, limits: Limits, declared: nat, expected: Hash, offset: nat,
                   window: nat, maxBytes: nat)
    returns (r: Result<Bytes, ReadError>, pages: seq<Bytes>)
    requires declared <= U64_MAX && 0 < window <= USIZE_MAX && maxBytes <= USIZE_MAX
    ensures r.Ok? ==>
              && offset <= |file.content| && r.value == file.content[offset..]
              && pages == Pages(file.content, offset, window)
    ensures RangeOf(hash, file, limits, declared, expected, offset, window, maxBytes).Err? ==> r.Err?
    ensures RangeOf(hash, file, limits, declared, expected, offset, window, maxBytes).Ok? && r.Err? ==> r.error == Io
    ensures r == Err(Io) ==> Faulty(file)
  {
    pages := [];
    var read: Bytes := [];
    var at := offset;
    ghost var good := RangeOf(hash, file, limits, declared, expected, offset, window, maxBytes).Ok?;
    var more := true;
    while more
      invariant if good then declared == |file.content| else more && at == offset
      invariant good && more ==> Progress(file.content, offset, at, window, pages, read)
      invariant good && !more ==> pages == Pages(file.content, offset, window) && read == file.content[offset..]
      decreases more, declared - at
    {
      var range := ReadVerifiedRange(hash, file, limits, declared, expected, at, window, maxBytes);
      if range.Err? {
        return Err(range.error), pages;
      }
      var page := range.value.bytes;
      more := range.value.truncatedAfter;
      if more {
        ProgressGoesOn(file.content, offset, at, window, pages, read);
      } else {
        ProgressEnds(file.content, offset, at, window, pages, read);
      }
      pages := pages + [page];
      read := read + page;
      at := at + |page|;
    }
    r := Ok(read);
  }
}
