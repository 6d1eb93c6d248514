/** Recovery as it runs: the scan loops over a file, the truncation of a torn
    tail in place, and opening a whole directory. */
module Recovery {
  import opened Base
  import opened Wire
  import opened Codec
  import opened Batches
  import opened Segments
  import opened PartitionLog
  import opened Coder

  /** A segment file on disk. */
  class SegmentFile {
    const base: nat
    var data: Bytes

    constructor (base: nat, data: Bytes)
      ensures this.base == base && this.data == data
    {
      this.base, this.data := base, data;
    }

    method Truncate(size: nat)
      requires size <= |data|
      modifies this
      ensures data == old(data)[..size]
    {
      data := data[..size];
    }
  }

  /** One step of either scan: the batch at `position`, or why there is none. */
  datatype Found = FoundBatch(batch: Batch, length: u32, stored: i64) | TornTail | Corrupt

  function Look(f: Format, data: Bytes, topic: Id, partition: u32, final: bool, position: nat, current: nat): (r: Found)
    requires position < |data|
    ensures r.FoundBatch? ==> position + r.length <= |data| && r.length > 0 && |r.batch.records| <= MAX_BATCH_RECORDS
  {
    var rest := data[position..];
    if |rest| < BATCH_HEADER_BYTES then Corrupt
    else
      var length := U32(rest[8..12]);
      if length > |rest| then if final && CanTruncateTail(f, rest, current) then TornTail else Corrupt
      else if length < BATCH_HEADER_BYTES + BATCH_TRAILER_BYTES then Corrupt
      else match DecodeBatch(f, rest[..length], topic, partition)
        case None => Corrupt
        case Some(batch) =>
          DecodedShape(f, rest[..length], topic, partition);
          if batch.base != current then Corrupt else FoundBatch(batch, length, AsI64(U64(rest[24..32])))
  }

  method LookAt(f: Format, data: Bytes, topic: Id, partition: u32, final: bool, position: nat, current: nat)
    returns (r: Found)
    requires position < |data|
    ensures r == Look(f, data, topic, partition, final, position, current)
  {
    hide DecodeBatch, CanTruncateTail;
    var rest := data[position..];
    if |data| - position < BATCH_HEADER_BYTES { return Corrupt; }
    assert data[position + 8..position + 12] == rest[8..12] && data[position + 24..position + 32] == rest[24..32];
    var length := U32(data[position + 8..position + 12]);
    if length > |data| - position {
      if final && CanTruncateTail(f, rest, current) { return TornTail; }
      return Corrupt;
    }
    if length < BATCH_HEADER_BYTES + BATCH_TRAILER_BYTES { return Corrupt; }
    assert data[position..position + length] == rest[..length];
    var batch := ReadBatch(f, data[position..position + length], topic, partition);
    if batch.None? { return Corrupt; }
    if batch.value.base != current { return Corrupt; }
    r := FoundBatch(batch.value, length, AsI64(U64(data[position + 24..position + 32])));
  }

  lemma {:induction false} ScanLook(f: Format, data: Bytes, topic: Id, partition: u32, final: bool, s: Scanned)
    requires s.position < |data|
    ensures Scan(f, data, topic, partition, final, s) ==
            match Look(f, data, topic, partition, final, s.position, s.current)
            case Corrupt => None
            case TornTail => Some(s)
            case FoundBatch(batch, length, stored) => Scan(f, data, topic, partition, final,
                                                           Advance(s, batch, length, stored))
  {
    hide DecodeBatch, CanTruncateTail, MaxTimestamp;
  }

  lemma PreScanLook(f: Format, data: Bytes, topic: Id, partition: u32, final: bool, position: nat, current: nat,
                    records: nat)
    requires position < |data|
    ensures PreScan(f, data, topic, partition, final, position, current, records) ==
            match Look(f, data, topic, partition, final, position, current)
            case Corrupt => None
            case TornTail => Some((current, records))
            case FoundBatch(batch, length, _) =>
              PreScan(f, data, topic, partition, final, position + length, current + |batch.records|,
                      records + |batch.records|)
  {
    hide DecodeBatch, CanTruncateTail;
  }

  /** recoverSegment: reads every batch, and cuts the file where a torn one starts. */
  method RecoverSegment(f: Format, file: SegmentFile, topic: Id, partition: u32, final: bool, expected: nat)
    returns (r: Option<Segment>)
    modifies file
    ensures r == Recover(f, old(file.data), topic, partition, final, expected)
    ensures r.Some? ==> r.value.size <= |old(file.data)| && file.data == old(file.data)[..r.value.size]
    ensures r.None? ==> file.data == old(file.data)
  {
    hide Scan, Look, DecodeSegmentHeader, MaxTimestamp;
    var data := file.data;
    if |data| < SEGMENT_HEADER_BYTES { return None; }
    var header := DecodeSegmentHeader(f, data[..SEGMENT_HEADER_BYTES], topic, partition);
    if header.None? || header.value.base != expected { return None; }
    var s := StartOf(header.value);
    while s.position < |data|
      invariant s.position <= |data|
      invariant Scan(f, data, topic, partition, final, StartOf(header.value)) ==
                Scan(f, data, topic, partition, final, s)
      invariant file.data == data == old(file.data)
      decreases |data| - s.position
    {
      var found := LookAt(f, data, topic, partition, final, s.position, s.current);
      ScanLook(f, data, topic, partition, final, s);
      LookFits(f, data, topic, partition, final, s.position, s.current);
      if found.Corrupt? { return None; }
      if found.TornTail? {
        file.Truncate(s.position);
        r := Some(Segment(header.value, s.current, s.position, s.records, s.maxTime, s.batches));
        return;
      }
      s := Advance(s, found.batch, found.length, found.stored);
    }
    ScanEnd(f, data, topic, partition, final, s);
    assert data[..|data|] == data;
    if !final && s.records == 0 { return None; }
    r := Some(Segment(header.value, s.current, s.position, s.records, s.maxTime, s.batches));
  }

  lemma LookFits(f: Format, data: Bytes, topic: Id, partition: u32, final: bool, position: nat, current: nat)
    requires position < |data|
    ensures Look(f, data, topic, partition, final, position, current).TornTail? ==> final
  {
    hide DecodeBatch, CanTruncateTail;
  }

  /** validateSegmentReadOnly: the same scan over the bytes of a file that it does not
      touch. */
  method ValidateSegment(f: Format, data: Bytes, topic: Id, partition: u32, final: bool, expected: nat,
                         maxBytes: u64)
    returns (r: Option<nat>)
    ensures r == Preflight(f, data, topic, partition, final, expected, maxBytes)
    ensures r.Some? <==> Recover(f, data, topic, partition, final, expected).Some? && |data| <= maxBytes
  {
    hide PreScan, Look, DecodeSegmentHeader, Recover;
    PreflightAgrees(f, data, topic, partition, final, expected, maxBytes);
    if |data| < SEGMENT_HEADER_BYTES || |data| > maxBytes { return None; }
    var header := DecodeSegmentHeader(f, data[..SEGMENT_HEADER_BYTES], topic, partition);
    if header.None? || header.value.base != expected { return None; }
    var position, current, records := SEGMENT_HEADER_BYTES, header.value.base, 0;
    while position < |data|
      invariant position <= |data| && 0 <= current && 0 <= records
      invariant PreScan(f, data, topic, partition, final, SEGMENT_HEADER_BYTES, header.value.base, 0) ==
                PreScan(f, data, topic, partition, final, position, current, records)
      decreases |data| - position
    {
      var found := LookAt(f, data, topic, partition, final, position, current);
      PreScanLook(f, data, topic, partition, final, position, current, records);
      LookFits(f, data, topic, partition, final, position, current);
      if found.Corrupt? { return None; }
      if found.TornTail? { return Some(current); }
      position, current, records := position + found.length, current + |found.batch.records|,
          records + |found.batch.records|;
    }
    PreScanEnd(f, data, topic, partition, final, position, current, records);
    if !final && records == 0 { return None; }
    r := Some(current);
  }

  lemma {:induction false} PreScanEnd(f: Format, data: Bytes, topic: Id, partition: u32, final: bool, position: nat,
                                      current: nat, records: nat)
    requires position == |data|
    ensures PreScan(f, data, topic, partition, final, position, current, records) == Some((current, records))
  {
  }

  // ---------------------------------------------------------------- directory

  predicate Apart(files: seq<SegmentFile>) {
    forall i, j | 0 <= i < j < |files| :: files[i] != files[j]
  }

  ghost predicate Holds(files: seq<SegmentFile>, from: nat, contents: seq<File>)
    reads files
  {
    |files| == |contents| && forall i | from <= i < |files| ::
        files[i].base == contents[i].base && files[i].data == contents[i].data
  }

  function Prepend(segments: seq<Segment>, rest: Option<seq<Segment>>): Option<seq<Segment>> {
    match rest case None => None case Some(more) => Some(segments + more)
  }

  lemma PrependNone(rest: Option<seq<Segment>>)
    ensures Prepend([], rest) == rest
  {
    assert rest.Some? ==> [] + rest.value == rest.value;
  }

  /** One file of the chain: it must continue the ones before it and recover. */
  lemma {:induction false} OpenNext(f: Format, contents: seq<File>, i: nat, topic: Id, partition: u32, expected: nat,
                                    segments: seq<Segment>)
    requires i < |contents|
    ensures var found := Recover(f, contents[i].data, topic, partition, i == |contents| - 1, expected);
            Prepend(segments, Open(f, contents[i..], topic, partition, expected)) ==
            if contents[i].base != expected || found.None? then None
            else Prepend(segments + [found.value], Open(f, contents[i + 1..], topic, partition, found.value.end))
  {
    hide Recover;
    var rest, found := contents[i..], Recover(f, contents[i].data, topic, partition, i == |contents| - 1, expected);
    assert rest[0] == contents[i] && rest[1..] == contents[i + 1..];
    if found.Some? {
      var more := Open(f, contents[i + 1..], topic, partition, found.value.end);
      assert more.Some? ==> segments + ([found.value] + more.value) == segments + [found.value] + more.value;
    }
  }

  lemma {:induction false} OpenDone(f: Format, rest: seq<File>, topic: Id, partition: u32, expected: nat,
                                    segments: seq<Segment>)
    requires rest == []
    ensures Prepend(segments, Open(f, rest, topic, partition, expected)) == Some(segments)
  {
    assert segments + [] == segments;
  }

  /** openPartition over the files in base order: every file must continue the one
      before it, and only the last may be cut. */
  method OpenDirectory(f: Format, files: seq<SegmentFile>, ghost contents: seq<File>, topic: Id, partition: u32,
                       initial: nat)
    returns (r: Option<seq<Segment>>)
    requires Apart(files) && Holds(files, 0, contents)
    modifies files
    ensures r == Open(f, contents, topic, partition, initial)
    ensures r.Some? ==> |r.value| == |files|
    ensures r.Some? ==> forall i | 0 <= i < |files| ::
                          r.value[i].size <= |contents[i].data| && files[i].data == contents[i].data[..r.value[i].size]
  {
    hide Recover, Open, Prepend;
    var segments: seq<Segment> := [];
    var expected := initial;
    assert contents[0..] == contents;
    ghost var whole := Open(f, contents, topic, partition, initial);
    PrependNone(whole);
    for i := 0 to |files|
      invariant |segments| == i && 0 <= expected && Holds(files, i, contents)
      invariant whole == Prepend(segments, Open(f, contents[i..], topic, partition, expected))
      invariant forall j | 0 <= j < i ::
                  segments[j].size <= |contents[j].data| && files[j].data == contents[j].data[..segments[j].size]
    {
      OpenNext(f, contents, i, topic, partition, expected, segments);
      if files[i].base != expected { return None; }
      var segment := RecoverSegment(f, files[i], topic, partition, i == |files| - 1, expected);
      if segment.None? { return None; }
      segments := segments + [segment.value];
      expected := segment.value.end;
    }
    OpenDone(f, contents[|files|..], topic, partition, expected, segments);
    r := Some(segments);
  }
}
