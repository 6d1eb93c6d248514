/** Segment files: the header, the scan that recovers a file after a crash, and
    the read-only scan that precedes it. */
module Segments {
  import opened Base
  import opened Wire
  import opened Codec
  import opened Batches

  const SEGMENT_HEADER_BYTES: int := 72

  /** "IELSEG00" */
  const SEGMENT_MAGIC: Bytes := [0x49, 0x45, 0x4C, 0x53, 0x45, 0x47, 0x30, 0x30]

  datatype SegmentHeader = SegmentHeader(topic: Id, partition: u32, base: u64, id: Id)

  // ------------------------------------------------------------------ headers

  predicate ValidSegmentHeader(h: SegmentHeader) {
    h.topic != 0 && h.id != 0 && h.partition <= MAX_INT32 && h.base <= MAX_OFFSET
  }

  function SegmentFields(h: SegmentHeader): (b: Bytes)
    ensures |b| == 68
  {
    SEGMENT_MAGIC + Le16(FORMAT_VERSION) + Le16(SEGMENT_HEADER_BYTES) + Le32(0) + IdBytes(h.topic) + Le32(h.partition)
    + Le16(FORMAT_VERSION) + Le16(0) + Le64(h.base) + IdBytes(h.id) + Le32(0)
  }

  function HeaderImage(f: Format, h: SegmentHeader): (b: Bytes)
    ensures |b| == SEGMENT_HEADER_BYTES
  {
    Checksummed(f, SegmentFields(h))
  }

  function EncodeSegmentHeader(f: Format, h: SegmentHeader): Option<Bytes> {
    if !ValidSegmentHeader(h) then None else Some(HeaderImage(f, h))
  }

  predicate SegmentHeaderOk(f: Format, data: Bytes) {
    && |data| >= SEGMENT_HEADER_BYTES
    && data[..8] == SEGMENT_MAGIC
    && U16(data[10..12]) == SEGMENT_HEADER_BYTES
    && U32(data[68..72]) == f.crc(data[..68])
    && U16(data[8..10]) == FORMAT_VERSION && U16(data[36..38]) == FORMAT_VERSION
    && U32(data[12..16]) == 0 && U16(data[38..40]) == 0 && U32(data[64..68]) == 0
  }

  function DecodeSegmentHeader(f: Format, data: Bytes, topic: Id, partition: u32): Option<SegmentHeader> {
    if !SegmentHeaderOk(f, data) then None
    else
      var h := SegmentHeader(IdOf(data[16..32]), U32(data[32..36]), U64(data[40..48]), IdOf(data[48..64]));
      if !ValidSegmentHeader(h) || (topic != 0 && h.topic != topic) || h.partition != partition then None
      else Some(h)
  }

  lemma SegmentLayout(h: SegmentHeader, rest: Bytes)
    ensures var b := SegmentFields(h) + rest;
            && b[..8] == SEGMENT_MAGIC && U16(b[8..10]) == FORMAT_VERSION && U16(b[10..12]) == SEGMENT_HEADER_BYTES
            && U32(b[12..16]) == 0 && IdOf(b[16..32]) == h.topic && U32(b[32..36]) == h.partition
            && U16(b[36..38]) == FORMAT_VERSION && U16(b[38..40]) == 0 && U64(b[40..48]) == h.base
            && IdOf(b[48..64]) == h.id && U32(b[64..68]) == 0
            && b[..68] == SegmentFields(h) && b[68..] == rest
  {
    hide Le, Un, Be, UnBe;
    var b := SegmentFields(h) + rest;
    assert b[..8] == SEGMENT_MAGIC && b[8..10] == Le16(FORMAT_VERSION) && b[10..12] == Le16(SEGMENT_HEADER_BYTES);
    assert b[12..16] == Le32(0) && b[16..32] == IdBytes(h.topic) && b[32..36] == Le32(h.partition);
    assert b[36..38] == Le16(FORMAT_VERSION) && b[38..40] == Le16(0) && b[40..48] == Le64(h.base);
    assert b[48..64] == IdBytes(h.id) && b[64..68] == Le32(0);
    Exact16(FORMAT_VERSION, Le16(0));
    Exact16(SEGMENT_HEADER_BYTES, Le16(0));
    Exact16(0, Le16(0));
    Exact32(h.partition, Le32(0));
    Exact32(0, Le32(0));
    Exact64(h.base, Le64(0));
    ExactId(h.topic, IdBytes(0));
    ExactId(h.id, IdBytes(0));
  }

  /** Decoding an encoded segment header gives the header back. */
  lemma SegmentHeaderRoundTrip(f: Format, h: SegmentHeader)
    requires ValidSegmentHeader(h)
    ensures EncodeSegmentHeader(f, h).Some?
    ensures var b := EncodeSegmentHeader(f, h).value;
            |b| == SEGMENT_HEADER_BYTES && DecodeSegmentHeader(f, b, h.topic, h.partition) == Some(h)
  {
    hide Le, Un, SegmentFields;
    var c := Le32(f.crc(SegmentFields(h)));
    SegmentLayout(h, c);
    var b := EncodeSegmentHeader(f, h).value;
    assert b[68..72] == b[68..];
    Exact32(f.crc(SegmentFields(h)), Le32(0));
  }

  lemma Slices(data: Bytes)
    requires |data| == SEGMENT_HEADER_BYTES
    ensures data[..68] == data[..8] + data[8..10] + data[10..12] + data[12..16] + data[16..32] + data[32..36]
                          + data[36..38] + data[38..40] + data[40..48] + data[48..64] + data[64..68]
    ensures data == data[..68] + data[68..72]
  {
    assert data[..12] == data[..8] + data[8..10] + data[10..12];
    assert data[..32] == data[..12] + data[12..16] + data[16..32];
    assert data[..38] == data[..32] + data[32..36] + data[36..38];
    assert data[..48] == data[..38] + data[38..40] + data[40..48];
    assert data[..68] == data[..48] + data[48..64] + data[64..68];
  }

  /** An accepted 72-byte header is the encoding of what was read from it. */
  lemma SegmentHeaderCanonical(f: Format, data: Bytes, topic: Id, partition: u32)
    requires |data| == SEGMENT_HEADER_BYTES && DecodeSegmentHeader(f, data, topic, partition).Some?
    ensures EncodeSegmentHeader(f, DecodeSegmentHeader(f, data, topic, partition).value) == Some(data)
  {
    hide Le, Un, Be, UnBe;
    Exact16(0, data[8..10]);
    Exact16(0, data[10..12]);
    Exact32(0, data[12..16]);
    ExactId(0, data[16..32]);
    Exact32(0, data[32..36]);
    Exact16(0, data[36..38]);
    Exact16(0, data[38..40]);
    Exact64(0, data[40..48]);
    ExactId(0, data[48..64]);
    Exact32(0, data[64..68]);
    Exact32(0, data[68..72]);
    Slices(data);
  }

  // --------------------------------------------------------------------- scan

  /** Where one batch lies in its segment. */
  datatype BatchInfo = BatchInfo(base: u64, position: nat, bytes: u32, records: u32, maxTime: i64)

  /** The loop variables of a scan. */
  datatype Scanned = Scanned(position: nat, current: nat, records: nat, maxTime: i64, batches: seq<BatchInfo>)

  /** A batch header that is whole, for the expected offset, and declares more
      bytes than the file holds. */
  predicate CanTruncateTail(f: Format, data: Bytes, expected: nat) {
    && HeaderOk(f, data)
    && (var total, count, base := U32(data[8..12]), U32(data[12..16]), U64(data[16..24]);
        && BATCH_HEADER_BYTES + BATCH_TRAILER_BYTES + RECORD_PREFIX_BYTES <= total <= MAX_BATCH_BYTES
        && 0 < count <= MAX_BATCH_RECORDS
        && ValidOffsetRange(base, count) && base == expected && total > |data|)
  }

  function Advance(s: Scanned, batch: Batch, length: u32, stored: i64): Scanned
    requires |batch.records| <= MAX_BATCH_RECORDS
  {
    Scanned(s.position + length, s.current + |batch.records|, s.records + |batch.records|,
            MaxTimestamp(batch.records, s.maxTime),
            s.batches + [BatchInfo(batch.base, s.position, length, |batch.records|, stored)])
  }

  lemma {:induction false} TakenCount(f: Format, body: Bytes, base: u64, topic: Id, partition: u32, index: nat,
                                      count: u32, acc: seq<Record>)
    requires index <= count && TakeRecords(f, body, base, topic, partition, index, count, acc).Some?
    ensures |TakeRecords(f, body, base, topic, partition, index, count, acc).value| == |acc| + count - index
    decreases count - index
  {
    hide DecodeRecord;
    if index < count {
      var length := U32(body[..4]);
      var (r, n) := DecodeRecord(f, body[..length], base, topic, partition, Some(index)).value;
      TakenCount(f, body[length..], base, topic, partition, index + 1, count, acc + [r]);
    }
  }

  lemma DecodedShape(f: Format, data: Bytes, topic: Id, partition: u32)
    requires DecodeBatch(f, data, topic, partition).Some?
    ensures var b := DecodeBatch(f, data, topic, partition).value;
            && 0 < |b.records| <= MAX_BATCH_RECORDS && ValidOffsetRange(b.base, |b.records|)
            && b.topic == topic && b.partition == partition
            && |data| >= 80 && U32(data[8..12]) == |data| && U64(data[16..24]) == b.base
            && AsI64(U64(data[24..32])) == MaxTimestamp(b.records, MIN_INT64)
  {
    hide TakeRecords, MaxTimestamp;
    var end := |data| - BATCH_TRAILER_BYTES;
    TakenCount(f, data[48..end], U64(data[16..24]), topic, partition, 0, U32(data[12..16]), []);
  }

  /** recoverSegment's loop: batch after batch, then perhaps one torn batch. */
  function Scan(f: Format, data: Bytes, topic: Id, partition: u32, final: bool, s: Scanned): Option<Scanned>
    requires s.position <= |data|
    decreases |data| - s.position
  {
    if s.position == |data| then Some(s)
    else
      var rest := data[s.position..];
      if |rest| < BATCH_HEADER_BYTES then None
      else
        var length := U32(rest[8..12]);
        if length > |rest| then if final && CanTruncateTail(f, rest, s.current) then Some(s) else None
        else if length < BATCH_HEADER_BYTES + BATCH_TRAILER_BYTES then None
        else match DecodeBatch(f, rest[..length], topic, partition)
          case None => None
          case Some(batch) =>
            DecodedShape(f, rest[..length], topic, partition);
            if batch.base != s.current then None
            else Scan(f, data, topic, partition, final, Advance(s, batch, length, AsI64(U64(rest[24..32]))))
  }

  datatype Segment = Segment(header: SegmentHeader, end: nat, size: nat, records: nat, maxTime: i64,
                             batches: seq<BatchInfo>)

  function StartOf(h: SegmentHeader): Scanned { Scanned(SEGMENT_HEADER_BYTES, h.base, 0, MIN_INT64, []) }

  /** recoverSegment: the file is cut to the segment's size. */
  function Recover(f: Format, data: Bytes, topic: Id, partition: u32, final: bool, expected: nat): Option<Segment> {
    if |data| < SEGMENT_HEADER_BYTES then None
    else match DecodeSegmentHeader(f, data[..SEGMENT_HEADER_BYTES], topic, partition)
      case None => None
      case Some(h) =>
        if h.base != expected then None
        else match Scan(f, data, topic, partition, final, StartOf(h))
          case None => None
          case Some(s) =>
            if !final && s.records == 0 then None
            else Some(Segment(h, s.current, s.position, s.records, s.maxTime, s.batches))
  }

  // ---------------------------------------------------------------- preflight

  /** validateSegmentReadOnly's loop, which keeps no batches and cuts nothing. */
  function PreScan(f: Format, data: Bytes, topic: Id, partition: u32, final: bool, position: nat, current: nat,
                   records: nat)
    : Option<(nat, nat)>
    requires position <= |data|
    decreases |data| - position
  {
    if position == |data| then Some((current, records))
    else
      var rest := data[position..];
      if |rest| < BATCH_HEADER_BYTES then None
      else
        var length := U32(rest[8..12]);
        if length > |rest| then if final && CanTruncateTail(f, rest, current) then Some((current, records)) else None
        else if length < BATCH_HEADER_BYTES + BATCH_TRAILER_BYTES then None
        else match DecodeBatch(f, rest[..length], topic, partition)
          case None => None
          case Some(batch) =>
            if batch.base != current then None
            else PreScan(f, data, topic, partition, final, position + length, current + |batch.records|,
                         records + |batch.records|)
  }

  /** The end offset a read-only check reports; a torn tail ends the scan before
      the empty-segment test. */
  function Preflight(f: Format, data: Bytes, topic: Id, partition: u32, final: bool, expected: nat,
                     maxBytes: u64): Option<nat> {
    if |data| < SEGMENT_HEADER_BYTES || |data| > maxBytes then None
    else match DecodeSegmentHeader(f, data[..SEGMENT_HEADER_BYTES], topic, partition)
      case None => None
      case Some(h) =>
        if h.base != expected then None
        else match PreScan(f, data, topic, partition, final, SEGMENT_HEADER_BYTES, h.base, 0)
          case None => None
          case Some((current, records)) => if !final && records == 0 then None else Some(current)
  }

  lemma {:induction false} PreScanAgrees(f: Format, data: Bytes, topic: Id, partition: u32, final: bool, s: Scanned)
    requires s.position <= |data|
    ensures var t := Scan(f, data, topic, partition, final, s);
            PreScan(f, data, topic, partition, final, s.position, s.current, s.records) ==
            if t.None? then None else Some((t.value.current, t.value.records))
    decreases |data| - s.position
  {
    hide DecodeBatch, CanTruncateTail;
    if s.position < |data| && |data| - s.position >= BATCH_HEADER_BYTES {
      var rest := data[s.position..];
      var length := U32(rest[8..12]);
      if 52 <= length <= |rest| && DecodeBatch(f, rest[..length], topic, partition).Some? {
        var batch := DecodeBatch(f, rest[..length], topic, partition).value;
        DecodedShape(f, rest[..length], topic, partition);
        PreScanAgrees(f, data, topic, partition, final, Advance(s, batch, length, AsI64(U64(rest[24..32]))));
      }
    }
  }

  /** The read-only preflight accepts exactly the files recovery accepts, up to
      the configured size, and reports the same end offset. */
  lemma PreflightAgrees(f: Format, data: Bytes, topic: Id, partition: u32, final: bool, expected: nat, maxBytes: u64)
    ensures var p, r := Preflight(f, data, topic, partition, final, expected, maxBytes),
            Recover(f, data, topic, partition, final, expected);
            && (p.Some? <==> r.Some? && |data| <= maxBytes)
            && (p.Some? ==> p.value == r.value.end)
  {
    hide Scan, PreScan;
    if |data| >= SEGMENT_HEADER_BYTES && DecodeSegmentHeader(f, data[..SEGMENT_HEADER_BYTES], topic, partition).Some? {
      PreScanAgrees(f, data, topic, partition, final,
                    StartOf(DecodeSegmentHeader(f, data[..SEGMENT_HEADER_BYTES], topic, partition).value));
    }
  }

  // -------------------------------------------------------------- idempotence

  lemma SameFields(a: Bytes, b: Bytes, n: nat)
    requires 52 <= n <= |a| && n <= |b| && a[..n] == b[..n]
    ensures a[8..12] == b[8..12] && a[24..32] == b[24..32]
  {
    assert a[8..12] == a[..n][8..12] && b[8..12] == b[..n][8..12];
    assert a[24..32] == a[..n][24..32] && b[24..32] == b[..n][24..32];
  }

  lemma {:induction false} ScanAgain(f: Format, data: Bytes, topic: Id, partition: u32, final: bool, s: Scanned,
                                     again: bool)
    requires s.position <= |data| && Scan(f, data, topic, partition, final, s).Some?
    ensures var t := Scan(f, data, topic, partition, final, s).value;
            && s.position <= t.position <= |data| && s.records <= t.records
            && Scan(f, data[..t.position], topic, partition, again, s) == Some(t)
    decreases |data| - s.position
  {
    hide DecodeBatch, CanTruncateTail;
    var t := Scan(f, data, topic, partition, final, s).value;
    if s.position < |data| {
      var rest := data[s.position..];
      var length := U32(rest[8..12]);
      if length <= |rest| {
        var batch := DecodeBatch(f, rest[..length], topic, partition).value;
        DecodedShape(f, rest[..length], topic, partition);
        var n := Advance(s, batch, length, AsI64(U64(rest[24..32])));
        ScanAgain(f, data, topic, partition, final, n, again);
        var cut := data[..t.position][s.position..];
        assert cut[..length] == rest[..length];
        SameFields(cut, rest, length);
      }
    }
  }

  /** Recovery is idempotent: the file it leaves recovers to the same segment,
      as the last one or, once it holds a record, as any other. */
  lemma RecoverAgain(f: Format, data: Bytes, topic: Id, partition: u32, final: bool, expected: nat, again: bool)
    requires Recover(f, data, topic, partition, final, expected).Some?
    ensures var seg := Recover(f, data, topic, partition, final, expected).value;
            && SEGMENT_HEADER_BYTES <= seg.size <= |data|
            && (again || seg.records > 0 ==>
                Recover(f, data[..seg.size], topic, partition, again, expected) == Some(seg))
  {
    hide Scan, DecodeSegmentHeader;
    var h := DecodeSegmentHeader(f, data[..SEGMENT_HEADER_BYTES], topic, partition).value;
    ScanAgain(f, data, topic, partition, final, StartOf(h), again);
    var t := Scan(f, data, topic, partition, final, StartOf(h)).value;
    assert data[..t.position][..SEGMENT_HEADER_BYTES] == data[..SEGMENT_HEADER_BYTES];
  }

  // ---------------------------------------------------------- written batches

  /** Batches the encoder accepts, one after the other from offset `base`. */
  predicate Contiguous(f: Format, batches: seq<Batch>, topic: Id, partition: u32, base: nat)
    decreases batches
  {
    batches == [] ||
    (&& batches[0].topic == topic && batches[0].partition == partition && batches[0].base == base
     && EncodeBatch(f, batches[0]).Some?
     && Contiguous(f, batches[1..], topic, partition, base + |batches[0].records|))
  }

  function BatchesBytes(f: Format, batches: seq<Batch>): Bytes {
    if batches == [] then []
    else (match EncodeBatch(f, batches[0]) case Some(b) => b case None => []) + BatchesBytes(f, batches[1..])
  }

  function CountRecords(batches: seq<Batch>): nat {
    if batches == [] then 0 else |batches[0].records| + CountRecords(batches[1..])
  }

  lemma EncodedShape(f: Format, batch: Batch)
    requires EncodeBatch(f, batch).Some?
    ensures 0 < |batch.records| <= MAX_BATCH_RECORDS && 80 <= |EncodeBatch(f, batch).value| <= MAX_BATCH_BYTES
    ensures ValidOffsetRange(batch.base, |batch.records|) && batch.topic != 0
  {
    BatchRoundTrip(f, batch);
  }

  function Next(f: Format, s: Scanned, batch: Batch): Scanned
    requires EncodeBatch(f, batch).Some?
  {
    EncodedShape(f, batch);
    Advance(s, batch, |EncodeBatch(f, batch).value|, MaxTimestamp(batch.records, MIN_INT64))
  }

  /** What a scan knows after reading the written batches. */
  function Folded(f: Format, batches: seq<Batch>, s: Scanned): Scanned
    decreases batches
  {
    if batches == [] || EncodeBatch(f, batches[0]).None? then s
    else Folded(f, batches[1..], Next(f, s, batches[0]))
  }

  /** One whole batch at the scan position. */
  lemma {:induction false} ScanBatch(f: Format, data: Bytes, topic: Id, partition: u32, final: bool, s: Scanned,
                                     batch: Batch, tail: Bytes)
    requires EncodeBatch(f, batch).Some? && batch.topic == topic && batch.partition == partition
             && batch.base == s.current
    requires s.position <= |data| && data[s.position..] == EncodeBatch(f, batch).value + tail
    ensures var n := Next(f, s, batch);
            && n.position <= |data| && data[n.position..] == tail
            && Scan(f, data, topic, partition, final, s) == Scan(f, data, topic, partition, final, n)
  {
    hide DecodeBatch, EncodeBatch, CanTruncateTail, MaxTimestamp;
    var e := EncodeBatch(f, batch).value;
    var rest := data[s.position..];
    BatchRoundTrip(f, batch);
    DecodedShape(f, e, topic, partition);
    assert rest[..|e|] == e;
    assert e[..|e|] == e;
    SameFields(rest, e, |e|);
    assert data[s.position + |e|..] == rest[|e|..];
  }

  lemma {:induction false} ScanWritten(f: Format, data: Bytes, topic: Id, partition: u32, final: bool, s: Scanned,
                                       batches: seq<Batch>, tail: Bytes)
    requires Contiguous(f, batches, topic, partition, s.current)
    requires s.position <= |data| && data[s.position..] == BatchesBytes(f, batches) + tail
    ensures var n := Folded(f, batches, s);
            && n.position == s.position + |BatchesBytes(f, batches)| <= |data| && data[n.position..] == tail
            && n.current == s.current + CountRecords(batches) && n.records == s.records + CountRecords(batches)
            && Scan(f, data, topic, partition, final, s) == Scan(f, data, topic, partition, final, n)
    decreases batches
  {
    hide EncodeBatch, Scan, MaxTimestamp;
    if batches == [] {
      assert [] + tail == tail;
    } else {
      var e := EncodeBatch(f, batches[0]).value;
      assert BatchesBytes(f, batches) + tail == e + (BatchesBytes(f, batches[1..]) + tail);
      ScanBatch(f, data, topic, partition, final, s, batches[0], BatchesBytes(f, batches[1..]) + tail);
      ScanWritten(f, data, topic, partition, final, Next(f, s, batches[0]), batches[1..], tail);
    }
  }

  lemma TornHeader(f: Format, batch: Batch, k: nat)
    requires EncodeBatch(f, batch).Some? && 48 <= k < |EncodeBatch(f, batch).value|
    ensures var torn := EncodeBatch(f, batch).value[..k];
            U32(torn[8..12]) == |EncodeBatch(f, batch).value| && CanTruncateTail(f, torn, batch.base)
  {
    hide RecordsBytes, MaxTimestamp, Checksummed, HeaderFields;
    var records := RecordsBytes(f, batch.records, batch.topic, batch.partition, batch.base, 0).value;
    var total := BATCH_HEADER_BYTES + |records| + BATCH_TRAILER_BYTES;
    var maxTimestamp := MaxTimestamp(batch.records, MIN_INT64);
    var header := HeaderFields(total, |batch.records|, batch.base, maxTimestamp);
    EncodedHeader(f, header, records, total, |batch.records|, batch.base, maxTimestamp);
    BatchRoundTrip(f, batch);
    var e := EncodeBatch(f, batch).value;
    SameHeader(f, e, e[..k]);
  }

  lemma SameHeader(f: Format, a: Bytes, b: Bytes)
    requires |a| >= 48 && |b| >= 48 && a[..48] == b[..48]
    ensures HeaderOk(f, a) <==> HeaderOk(f, b)
    ensures a[8..12] == b[8..12] && a[12..16] == b[12..16] && a[16..24] == b[16..24]
  {
    var c := a[..48];
    assert a[..4] == c[..4] && a[4..6] == c[4..6] && a[6..8] == c[6..8] && a[8..12] == c[8..12]
           && a[12..16] == c[12..16];
    assert a[16..24] == c[16..24] && a[32..36] == c[32..36] && a[36..38] == c[36..38] && a[38..40] == c[38..40];
    assert a[40..44] == c[40..44] && a[44..48] == c[44..48] && a[..44] == c[..44];
    assert b[..4] == c[..4] && b[4..6] == c[4..6] && b[6..8] == c[6..8] && b[8..12] == c[8..12]
           && b[12..16] == c[12..16];
    assert b[16..24] == c[16..24] && b[32..36] == c[32..36] && b[36..38] == c[36..38] && b[38..40] == c[38..40];
    assert b[40..44] == c[40..44] && b[44..48] == c[44..48] && b[..44] == c[..44];
  }

  /** The first `k` bytes of one more batch, at the scan position. */
  lemma {:induction false} ScanTorn(f: Format, data: Bytes, topic: Id, partition: u32, final: bool, s: Scanned,
                                    batch: Batch, k: nat)
    requires EncodeBatch(f, batch).Some? && batch.topic == topic && batch.partition == partition
             && batch.base == s.current
    requires k <= |EncodeBatch(f, batch).value|
    requires s.position <= |data| && data[s.position..] == EncodeBatch(f, batch).value[..k]
    ensures var e := EncodeBatch(f, batch).value;
            Scan(f, data, topic, partition, final, s) ==
            if k == |e| then Some(Next(f, s, batch))
            else if k == 0 || (final && k >= BATCH_HEADER_BYTES) then Some(s)
            else None
  {
    hide DecodeBatch, EncodeBatch, CanTruncateTail, MaxTimestamp;
    var e := EncodeBatch(f, batch).value;
    BatchRoundTrip(f, batch);
    if k == |e| {
      assert e[..k] == e == e + [];
      ScanBatch(f, data, topic, partition, final, s, batch, []);
    } else if k >= 48 {
      TornHeader(f, batch, k);
    }
  }

  // -------------------------------------------------------------- torn writes

  /** The first `k` bytes of an encoded batch. */
  function Part(f: Format, batch: Batch, k: nat): Bytes {
    match EncodeBatch(f, batch)
    case None => []
    case Some(e) => if k <= |e| then e[..k] else e
  }

  /** A segment file: its header, whole batches, and part of one more. */
  function FileBytes(f: Format, h: SegmentHeader, batches: seq<Batch>, next: Batch, k: nat): Bytes {
    HeaderImage(f, h) + BatchesBytes(f, batches) + Part(f, next, k)
  }

  function SegmentOf(f: Format, h: SegmentHeader, batches: seq<Batch>): Segment {
    var s := Folded(f, batches, StartOf(h));
    Segment(h, s.current, s.position, s.records, s.maxTime, s.batches)
  }

  /** Torn-write recovery of the last segment: a crash that left `k` bytes of one
      more batch is repaired exactly when `k` is zero or covers the batch header,
      by keeping the written batches, or all of them when nothing was torn. */
  lemma {:induction false} RecoverTorn(f: Format, h: SegmentHeader, batches: seq<Batch>, next: Batch, k: nat)
    requires ValidSegmentHeader(h) && EncodeBatch(f, next).Some? && k <= |EncodeBatch(f, next).value|
    requires Contiguous(f, batches, h.topic, h.partition, h.base)
    requires next.topic == h.topic && next.partition == h.partition && next.base == h.base + CountRecords(batches)
    ensures Recover(f, FileBytes(f, h, batches, next, k), h.topic, h.partition, true, h.base) ==
            if k == |EncodeBatch(f, next).value| then Some(SegmentOf(f, h, batches + [next]))
            else if k == 0 || k >= BATCH_HEADER_BYTES then Some(SegmentOf(f, h, batches))
            else None
    ensures SegmentOf(f, h, batches).size == SEGMENT_HEADER_BYTES + |BatchesBytes(f, batches)|
  {
    hide Scan, DecodeSegmentHeader, HeaderImage, EncodeBatch, MaxTimestamp;
    var data := FileBytes(f, h, batches, next, k);
    var e := EncodeBatch(f, next).value;
    SegmentHeaderRoundTrip(f, h);
    var header := HeaderImage(f, h);
    assert data[..72] == header && data[72..] == BatchesBytes(f, batches) + e[..k];
    ScanWritten(f, data, h.topic, h.partition, true, StartOf(h), batches, e[..k]);
    ScanTorn(f, data, h.topic, h.partition, true, Folded(f, batches, StartOf(h)), next, k);
    FoldedAppend(f, batches, next, StartOf(h), h.topic, h.partition, h.base);
  }

  lemma {:induction false} FoldedAppend(f: Format, batches: seq<Batch>, next: Batch, s: Scanned, topic: Id,
                                        partition: u32, base: nat)
    requires Contiguous(f, batches, topic, partition, base) && EncodeBatch(f, next).Some?
    ensures Folded(f, batches + [next], s) == Next(f, Folded(f, batches, s), next)
    decreases batches
  {
    hide EncodeBatch, Next;
    if batches == [] {
      assert batches + [next] == [next] && [next][1..] == [];
    } else {
      assert (batches + [next])[1..] == batches[1..] + [next];
      FoldedAppend(f, batches[1..], next, Next(f, s, batches[0]), topic, partition, base + |batches[0].records|);
    }
  }
}
