/** Reads and fetches as they run: loops over hints, batches and records. */
module Fetcher {
  import opened Base
  import opened Wire
  import opened Codec
  import opened Batches
  import opened Segments
  import opened PartitionLog
  import opened Index
  import opened Reads
  import opened Coder

  const DEFAULT_FETCH_RECORDS: nat := 1024
  const DEFAULT_FETCH_BYTES: nat := 4 * 1024 * 1024

  /** normalizeFetchOptions */
  function Normalize(maxRecords: u32, maxBytes: u64): Option<Limits> {
    if maxRecords > MAX_BATCH_RECORDS || maxBytes > MAX_BATCH_BYTES then None
    else Some(Limits(if maxRecords == 0 then DEFAULT_FETCH_RECORDS else maxRecords,
                     Some(if maxBytes == 0 then DEFAULT_FETCH_BYTES else maxBytes)))
  }

  method FindHint(entries: seq<Entry>, offset: nat) returns (position: nat)
    ensures position == HintFrom(entries, offset, SEGMENT_HEADER_BYTES)
  {
    position := SEGMENT_HEADER_BYTES;
    assert entries[0..] == entries;
    for i := 0 to |entries|
      invariant HintFrom(entries, offset, SEGMENT_HEADER_BYTES) == HintFrom(entries[i..], offset, position)
    {
      assert entries[i..][1..] == entries[i + 1..];
      if entries[i].base > offset { return; }
      position := entries[i].position;
    }
  }

  /** The record loop of a scan. */
  method FeedRecords(records: seq<Record>, offset: nat, lim: Limits, start: Progress) returns (p: Progress)
    requires start.status.More?
    ensures p == FeedAll(start, records, offset, lim)
  {
    hide RecordSize;
    p := start;
    assert records[0..] == records;
    for i := 0 to |records|
      invariant p.status.More? && FeedAll(start, records, offset, lim) == FeedAll(p, records[i..], offset, lim)
    {
      var r := records[i];
      assert records[i..][0] == r && records[i..][1..] == records[i + 1..];
      if r.offset >= offset {
        if |p.records| >= lim.maxRecords { return p.(status := Full); }
        var size := RecordSize(r);
        if lim.maxBytes.Some? && size > lim.maxBytes.value - p.bytes {
          return p.(status := if p.records == [] then TooSmall else Full);
        }
        p := p.(records := p.records + [r], bytes := p.bytes + size);
      }
    }
  }

  /** scanSegmentForFetch, and the same loop in Read. */
  method ScanSegment(f: Format, data: Bytes, topic: Id, partition: u32, from: nat, offset: nat, lim: Limits,
                     start: Progress)
    returns (r: Option<Progress>)
    requires from <= |data| && start.status.More?
    ensures r == ScanBytes(f, data, topic, partition, from, offset, lim, start)
  {
    hide DecodeBatch, FeedAll;
    var position, p := from, start;
    while position < |data|
      invariant position <= |data| && p.status.More?
      invariant ScanBytes(f, data, topic, partition, from, offset, lim, start) ==
                ScanBytes(f, data, topic, partition, position, offset, lim, p)
      decreases |data| - position
    {
      ghost var rest := data[position..];
      if |data| - position < BATCH_HEADER_BYTES { return None; }
      assert data[position + 8..position + 12] == rest[8..12];
      var length := U32(data[position + 8..position + 12]);
      if length < BATCH_HEADER_BYTES + BATCH_TRAILER_BYTES || length > |data| - position { return None; }
      assert data[position..position + length] == rest[..length];
      var batch := ReadBatch(f, data[position..position + length], topic, partition);
      if batch.None? { return None; }
      position := position + length;
      p := FeedRecords(batch.value.records, offset, lim, p);
      if !p.status.More? { return Some(p); }
    }
    r := Some(p);
  }

  /** A segment, its file and its index. */
  datatype Readable = Readable(base: nat, end: nat, data: Bytes, index: seq<Entry>)

  ghost predicate Shows(f: Format, files: seq<Readable>, log: seq<Seg>) {
    && |files| == |log|
    && forall i | 0 <= i < |log| ::
       files[i].base == log[i].header.base && files[i].end == EndOf(log[i]) && files[i].data == SegBytes(f, log[i])
  }

  function Indexes(files: seq<Readable>): seq<seq<Entry>> {
    seq(|files|, i requires 0 <= i < |files| => files[i].index)
  }

  /** The segment loop of Fetch and Read: for every log and every valid index the
      result is the longest allowed prefix of the records at or above the offset. */
  method FetchSegments(f: Format, files: seq<Readable>, ghost log: seq<Seg>, topic: Id, partition: u32, offset: nat,
                       lim: Limits)
    returns (p: Progress)
    requires LogOk(f, log, topic, partition) && Shows(f, files, log) && Indexed(f, log, Indexes(files))
    requires log[0].header.base <= offset <= EndOf(Last(log))
    ensures Outcome(p, Above(LogRecords(log), log[0].header.base, offset), lim)
  {
    hide SegOk, Outcome, FeedAll, LogRecords, Above, HintFrom, SegBytes, ValidOffsets, View, EndOf, ScanBytes;
    ghost var indexes := Indexes(files);
    FetchMeans(f, log, indexes, topic, partition, offset, lim);
    p := START;
    assert log[0..] == log && indexes[0..] == indexes;
    for i := 0 to |files|
      invariant p.status.More?
      invariant FetchLog(f, log, indexes, topic, partition, offset, lim, START) ==
                FetchLog(f, log[i..], indexes[i..], topic, partition, offset, lim, p)
    {
      assert log[i..][0] == log[i] && log[i..][1..] == log[i + 1..] && indexes[i..][0] == files[i].index
             && indexes[i..][1..] == indexes[i + 1..];
      if offset < files[i].end {
        var from := FindHint(files[i].index, offset);
        var scanned := ScanSegment(f, files[i].data, topic, partition, from, offset, lim, p);
        HintedScan(f, log[i], indexes[i], topic, partition, offset, lim, p);
        if !scanned.value.status.More? { return scanned.value; }
        p := scanned.value;
      }
    }
  }

  datatype Fetched = InvalidLimits | OutOfRange | LimitTooSmall | Fetched(records: seq<Record>, next: nat)

  /** Fetch, when the tail has no answer. */
  method Fetch(f: Format, files: seq<Readable>, ghost log: seq<Seg>, topic: Id, partition: u32, offset: u64,
               maxRecords: u32, maxBytes: u64)
    returns (r: Fetched)
    requires LogOk(f, log, topic, partition) && Shows(f, files, log) && Indexed(f, log, Indexes(files))
    ensures r.InvalidLimits? <==> maxRecords > MAX_BATCH_RECORDS || maxBytes > MAX_BATCH_BYTES
    ensures r.OutOfRange? <==> !r.InvalidLimits? && !(log[0].header.base <= offset <= EndOf(Last(log)))
    ensures !r.InvalidLimits? && !r.OutOfRange? ==>
              var lim := Normalize(maxRecords, maxBytes).value;
              var above := Above(LogRecords(log), log[0].header.base, offset);
              && (r.LimitTooSmall? <==> above != [] && RecordSize(above[0]) > lim.maxBytes.value)
              && (r.Fetched? ==>
                  |r.records| <= |above| && r.records == above[..|r.records|] && r.next == offset + |r.records|
                                 && Longest(above, |r.records|, lim))
  {
    hide SegOk, LogRecords, Above, SegBytes, ValidOffsets, View, EndOf, RecordSize, Sizes;
    var lim := Normalize(maxRecords, maxBytes);
    if lim.None? { return InvalidLimits; }
    if offset < files[0].base || offset > files[|files| - 1].end { return OutOfRange; }
    var p := FetchSegments(f, files, log, topic, partition, offset, lim.value);
    if p.status.TooSmall? { return LimitTooSmall; }
    ghost var above := Above(LogRecords(log), log[0].header.base, offset);
    AboveNumbered(f, log, topic, partition, offset);
    var next: nat := offset;
    if p.records != [] {
      ResultNext(p, above, offset, lim.value);
      next := p.records[|p.records| - 1].offset + 1;
    }
    r := Fetched(p.records, next);
  }

  lemma {:induction false} AboveNumbered(f: Format, log: seq<Seg>, topic: Id, partition: u32, offset: nat)
    requires LogOk(f, log, topic, partition) && log[0].header.base <= offset <= EndOf(Last(log))
    ensures Numbered(Above(LogRecords(log), log[0].header.base, offset), offset)
  {
    hide SegOk, LogRecords;
    LogNumbered(f, log, topic, partition);
  }

  /** Read: no byte limit, and a zero record limit means the largest one. */
  method Read(f: Format, files: seq<Readable>, ghost log: seq<Seg>, topic: Id, partition: u32, offset: u64,
              maxRecords: u32)
    returns (r: Option<seq<Record>>)
    requires LogOk(f, log, topic, partition) && Shows(f, files, log) && Indexed(f, log, Indexes(files))
    ensures r.None? <==> !(log[0].header.base <= offset <= EndOf(Last(log)))
    ensures r.Some? ==>
              var above := Above(LogRecords(log), log[0].header.base, offset);
              var most := if maxRecords == 0 then MAX_BATCH_RECORDS else maxRecords;
              r.value == if |above| <= most then above else above[..most]
  {
    hide SegOk, LogRecords, Above, SegBytes, ValidOffsets, View, EndOf, RecordSize;
    if offset < files[0].base || offset > files[|files| - 1].end { return None; }
    var lim := Limits(if maxRecords == 0 then MAX_BATCH_RECORDS else maxRecords, None);
    var p := FetchSegments(f, files, log, topic, partition, offset, lim);
    r := Some(p.records);
  }
}
