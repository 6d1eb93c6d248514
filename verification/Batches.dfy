/** The batch format: a checksummed header, contiguous records, a checksum. */
module Batches {
  import opened Base
  import opened Wire
  import opened Codec

  const BATCH_HEADER_BYTES: int := 48
  const BATCH_TRAILER_BYTES: int := 4
  const MAX_BATCH_BYTES: int := 64 * 1024 * 1024
  const MAX_BATCH_RECORDS: int := 65_536
  const FORMAT_VERSION: int := 1

  /** "IELB" */
  const BATCH_MAGIC: Bytes := [0x49, 0x45, 0x4C, 0x42]

  datatype Batch = Batch(topic: Id, partition: u32, base: u64, records: seq<Record>)

  predicate ValidOffsetRange(base: u64, count: nat) {
    base <= MAX_OFFSET && count > 0 && base + count <= MAX_OFFSET
  }

  // ----------------------------------------------------------------- encoding

  /** The records from position `index` on, each at its expected offset. */
  function RecordsBytes(f: Format, records: seq<Record>, topic: Id, partition: u32, base: u64,
                        index: nat): Option<Bytes>
    decreases records
  {
    if records == [] then Some([])
    else
      var r := records[0];
      if r.topic != topic || r.partition != partition || r.offset != base + index then None
      else match EncodeRecord(f, r, base)
        case None => None
        case Some(b) =>
          match RecordsBytes(f, records[1..], topic, partition, base, index + 1)
          case None => None
          case Some(rest) => Some(b + rest)
  }

  function MaxTimestamp(records: seq<Record>, acc: i64): i64
    decreases records
  {
    if records == [] then acc
    else MaxTimestamp(records[1..], if records[0].timestamp > acc then records[0].timestamp else acc)
  }

  /** The 44 header bytes the header checksum covers. */
  function HeaderFields(total: u32, count: u32, base: u64, maxTimestamp: i64): (b: Bytes)
    ensures |b| == 44
  {
    BATCH_MAGIC + Le16(FORMAT_VERSION) + Le16(BATCH_HEADER_BYTES) + Le32(total) + Le32(count) + Le64(base)
    + Le64(AsU64(maxTimestamp)) + Le32(0) + Le16(FORMAT_VERSION) + Le16(0) + Le32(0)
  }

  function Checksummed(f: Format, b: Bytes): (r: Bytes)
    ensures |r| == |b| + 4
  {
    b + Le32(f.crc(b))
  }

  function EncodeBatch(f: Format, batch: Batch): Option<Bytes> {
    if batch.topic == 0 || batch.records == [] || |batch.records| > MAX_BATCH_RECORDS
       || !ValidOffsetRange(batch.base, |batch.records|) then None
    else match RecordsBytes(f, batch.records, batch.topic, batch.partition, batch.base, 0)
      case None => None
      case Some(records) =>
        var total := BATCH_HEADER_BYTES + |records| + BATCH_TRAILER_BYTES;
        if total > MAX_BATCH_BYTES then None
        else
          var header := HeaderFields(total, |batch.records|, batch.base, MaxTimestamp(batch.records, MIN_INT64));
          Some(Checksummed(f, Checksummed(f, header) + records))
  }

  // ----------------------------------------------------------------- decoding

  /** Reads records `index` up to `count` from the batch body, after `acc`. */
  function TakeRecords(f: Format, body: Bytes, base: u64, topic: Id, partition: u32, index: nat, count: u32,
                       acc: seq<Record>): Option<seq<Record>>
    requires index <= count
    decreases count - index
  {
    if index == count then if body == [] then Some(acc) else None
    else if |body| < RECORD_PREFIX_BYTES then None
    else
      var length := U32(body[..4]);
      if length < RECORD_PREFIX_BYTES || length > |body| then None
      else match DecodeRecord(f, body[..length], base, topic, partition, Some(index))
        case None => None
        case Some((r, consumed)) =>
          if consumed != length then None
          else TakeRecords(f, body[length..], base, topic, partition, index + 1, count, acc + [r])
  }

  predicate HeaderOk(f: Format, data: Bytes) {
    && |data| >= BATCH_HEADER_BYTES
    && data[..4] == BATCH_MAGIC
    && U16(data[6..8]) == BATCH_HEADER_BYTES
    && U32(data[44..48]) == f.crc(data[..44])
    && U16(data[4..6]) == FORMAT_VERSION && U16(data[36..38]) == FORMAT_VERSION
    && U32(data[32..36]) == 0 && U16(data[38..40]) == 0 && U32(data[40..44]) == 0
  }

  /** The declared length, count and offsets are possible. */
  predicate SizesOk(total: u32, count: u32, base: u64) {
    && 0 < count <= MAX_BATCH_RECORDS
    && BATCH_HEADER_BYTES + BATCH_TRAILER_BYTES + RECORD_PREFIX_BYTES <= total <= MAX_BATCH_BYTES
    && ValidOffsetRange(base, count)
    && count * RECORD_PREFIX_BYTES <= total - BATCH_HEADER_BYTES - BATCH_TRAILER_BYTES
  }

  function DecodeBatch(f: Format, data: Bytes, topic: Id, partition: u32): Option<Batch> {
    if !HeaderOk(f, data) || topic == 0 then None
    else
      var total, count, base := U32(data[8..12]), U32(data[12..16]), U64(data[16..24]);
      if !SizesOk(total, count, base) || total != |data| then None
      else
        var end := |data| - BATCH_TRAILER_BYTES;
        if U32(data[end..]) != f.crc(data[..end]) then None
        else match TakeRecords(f, data[BATCH_HEADER_BYTES..end], base, topic, partition, 0, count, [])
          case None => None
          case Some(records) =>
            if AsI64(U64(data[24..32])) != MaxTimestamp(records, MIN_INT64) then None
            else Some(Batch(topic, partition, base, records))
  }

  // --------------------------------------------------------- decode of encode

  lemma {:induction false} TakeRecordsOf(f: Format, records: seq<Record>, topic: Id, partition: u32, base: u64,
                                         index: nat, count: u32, acc: seq<Record>)
    requires RecordsBytes(f, records, topic, partition, base, index).Some? && index + |records| == count
    ensures var b := RecordsBytes(f, records, topic, partition, base, index).value;
            TakeRecords(f, b, base, topic, partition, index, count, acc) == Some(acc + records)
    decreases records
  {
    hide EncodeRecord, DecodeRecord;
    if records == [] {
      assert acc + records == acc;
    } else {
      var r := records[0];
      var b := EncodeRecord(f, r, base).value;
      var rest := RecordsBytes(f, records[1..], topic, partition, base, index + 1).value;
      var all := RecordsBytes(f, records, topic, partition, base, index).value;
      RecordRoundTrip(f, r, base, []);
      assert b + [] == b && all[..4] == b[..4] && all[..|b|] == b && all[|b|..] == rest;
      TakeRecordsOf(f, records[1..], topic, partition, base, index + 1, count, acc + [r]);
      assert acc + [r] + records[1..] == acc + records;
    }
  }

  lemma {:induction false} RecordsWide(f: Format, records: seq<Record>, topic: Id, partition: u32, base: u64,
                                       index: nat)
    requires RecordsBytes(f, records, topic, partition, base, index).Some?
    ensures |RecordsBytes(f, records, topic, partition, base, index).value| >= |records| * RECORD_PREFIX_BYTES
    decreases records
  {
    hide EncodeRecord, DecodeRecord;
    if records != [] {
      RecordRoundTrip(f, records[0], base, []);
      RecordsWide(f, records[1..], topic, partition, base, index + 1);
    }
  }

  lemma HeaderLayout(total: u32, count: u32, base: u64, maxTimestamp: i64, rest: Bytes)
    ensures var b := HeaderFields(total, count, base, maxTimestamp) + rest;
            && b[..4] == BATCH_MAGIC && U16(b[4..6]) == FORMAT_VERSION && U16(b[6..8]) == BATCH_HEADER_BYTES
            && U32(b[8..12]) == total && U32(b[12..16]) == count && U64(b[16..24]) == base
            && AsI64(U64(b[24..32])) == maxTimestamp && U32(b[32..36]) == 0
            && U16(b[36..38]) == FORMAT_VERSION && U16(b[38..40]) == 0 && U32(b[40..44]) == 0
            && b[..44] == HeaderFields(total, count, base, maxTimestamp) && b[44..] == rest
  {
    hide Le, Un;
    var b := HeaderFields(total, count, base, maxTimestamp) + rest;
    assert b[..4] == BATCH_MAGIC && b[4..6] == Le16(FORMAT_VERSION) && b[6..8] == Le16(BATCH_HEADER_BYTES);
    assert b[8..12] == Le32(total) && b[12..16] == Le32(count) && b[16..24] == Le64(base);
    assert b[24..32] == Le64(AsU64(maxTimestamp)) && b[32..36] == Le32(0);
    assert b[36..38] == Le16(FORMAT_VERSION) && b[38..40] == Le16(0) && b[40..44] == Le32(0);
    Exact16(FORMAT_VERSION, Le16(0));
    Exact16(BATCH_HEADER_BYTES, Le16(0));
    Exact16(0, Le16(0));
    Exact32(total, Le32(0));
    Exact32(count, Le32(0));
    Exact32(0, Le32(0));
    Exact64(base, Le64(0));
    Exact64(AsU64(maxTimestamp), Le64(0));
    TwosComplement(maxTimestamp, 0);
  }

  lemma ChecksumReads(f: Format, b: Bytes, rest: Bytes)
    ensures var c := Checksummed(f, b) + rest;
            c[..|b|] == b && U32(c[|b|..|b| + 4]) == f.crc(b) && c[|b| + 4..] == rest
  {
    hide Le, Un;
    var c := Checksummed(f, b) + rest;
    assert c[|b|..|b| + 4] == Le32(f.crc(b));
    Exact32(f.crc(b), Le32(0));
  }

  lemma EncodedHeader(f: Format, header: Bytes, records: Bytes, total: u32, count: u32, base: u64, maxTimestamp: i64)
    requires header == HeaderFields(total, count, base, maxTimestamp) && total == 52 + |records|
    ensures var data := Checksummed(f, Checksummed(f, header) + records);
            && |data| == total && HeaderOk(f, data)
            && U32(data[8..12]) == total && U32(data[12..16]) == count && U64(data[16..24]) == base
            && AsI64(U64(data[24..32])) == maxTimestamp
            && U32(data[total - 4..]) == f.crc(data[..total - 4]) && data[48..total - 4] == records
  {
    hide Le, Un, HeaderFields, U16, U32, U64;
    var front := Checksummed(f, header) + records;
    var data := Checksummed(f, front);
    ChecksumReads(f, front, []);
    assert data + [] == data && data[total - 4..total] == data[total - 4..];
    var rest := Le32(f.crc(header)) + records + Le32(f.crc(front));
    assert data == header + rest;
    HeaderLayout(total, count, base, maxTimestamp, rest);
    assert data == Checksummed(f, header) + (records + Le32(f.crc(front)));
    ChecksumReads(f, header, records + Le32(f.crc(front)));
  }

  /** Decoding an encoded batch gives the same batch back. */
  lemma BatchRoundTrip(f: Format, batch: Batch)
    requires EncodeBatch(f, batch).Some?
    ensures DecodeBatch(f, EncodeBatch(f, batch).value, batch.topic, batch.partition) == Some(batch)
    ensures BATCH_HEADER_BYTES + BATCH_TRAILER_BYTES
            + RECORD_PREFIX_BYTES <= |EncodeBatch(f, batch).value| <= MAX_BATCH_BYTES
  {
    hide RecordsBytes, TakeRecords, HeaderOk, Checksummed, HeaderFields, MaxTimestamp;
    var records := RecordsBytes(f, batch.records, batch.topic, batch.partition, batch.base, 0).value;
    var total := BATCH_HEADER_BYTES + |records| + BATCH_TRAILER_BYTES;
    var maxTimestamp := MaxTimestamp(batch.records, MIN_INT64);
    var header := HeaderFields(total, |batch.records|, batch.base, maxTimestamp);
    EncodedHeader(f, header, records, total, |batch.records|, batch.base, maxTimestamp);
    RecordsWide(f, batch.records, batch.topic, batch.partition, batch.base, 0);
    TakeRecordsOf(f, batch.records, batch.topic, batch.partition, batch.base, 0, |batch.records|, []);
    assert [] + batch.records == batch.records;
  }

  // --------------------------------------------------------- encode of decode

  /** Every record of the batch body has zeros where the decoder does not look. */
  predicate UnreadZero(body: Bytes)
    decreases |body|
  {
    |body| >= RECORD_PREFIX_BYTES && RECORD_PREFIX_BYTES <= U32(body[..4]) <= |body| ==>
      body[16..24] == Zeros(8) && UnreadZero(body[U32(body[..4])..])
  }

  /** Accepted records re-encode, and to the same bytes exactly when the unread
      bytes are zero. */
  lemma {:induction false} RecordsTaken(f: Format, body: Bytes, base: u64, topic: Id, partition: u32, index: nat,
                                        count: u32, acc: seq<Record>)
    requires index <= count && TakeRecords(f, body, base, topic, partition, index, count, acc).Some?
    ensures var rs := TakeRecords(f, body, base, topic, partition, index, count, acc).value;
            && |rs| == |acc| + (count - index) && rs[..|acc|] == acc
            && (var b := RecordsBytes(f, rs[|acc|..], topic, partition, base, index);
                && b.Some? && |b.value| == |body| && (b.value == body <==> UnreadZero(body)))
    decreases count - index
  {
    hide EncodeRecord, DecodeRecord;
    if index < count {
      var length := U32(body[..4]);
      var (r, n) := DecodeRecord(f, body[..length], base, topic, partition, Some(index)).value;
      RecordCanonical(f, body[..length], base, topic, partition, Some(index));
      DecodedIdentity(f, body[..length], base, topic, partition, index);
      RecordsTaken(f, body[length..], base, topic, partition, index + 1, count, acc + [r]);
      var rs := TakeRecords(f, body, base, topic, partition, index, count, acc).value;
      assert rs[..|acc| + 1][|acc|] == r && rs[..|acc|] == rs[..|acc| + 1][..|acc|];
      assert rs[|acc|..] == [r] + rs[|acc| + 1..] && rs[|acc|..][1..] == rs[|acc| + 1..];
      var b := EncodeRecord(f, r, base).value;
      var tail := RecordsBytes(f, rs[|acc| + 1..], topic, partition, base, index + 1).value;
      assert RecordsBytes(f, rs[|acc|..], topic, partition, base, index) == Some(b + tail);
      Inside(body, length);
      assert b + tail == body <==> b == body[..length] && tail == body[length..] by {
        SplitEqual(b, tail, body[..length], body[length..]);
      }
    }
  }

  lemma Inside(b: Bytes, n: nat)
    requires 24 <= n <= |b|
    ensures b[..n][..n] == b[..n] && b[..n][16..24] == b[16..24] && b == b[..n] + b[n..]
  {
  }

  lemma SplitEqual(a: Bytes, b: Bytes, c: Bytes, d: Bytes)
    requires |a| == |c|
    ensures a + b == c + d <==> a == c && b == d
  {
    if a + b == c + d {
      assert a == (a + b)[..|a|] && c == (c + d)[..|a|];
      assert b == (a + b)[|a|..] && d == (c + d)[|a|..];
    }
  }

  lemma DecodedIdentity(f: Format, data: Bytes, base: u64, topic: Id, partition: u32, index: u32)
    requires DecodeRecord(f, data, base, topic, partition, Some(index)).Some?
    ensures var (r, n) := DecodeRecord(f, data, base, topic, partition, Some(index)).value;
            r.topic == topic && r.partition == partition && r.offset == base + index
  {
    hide TakeFields;
  }

  lemma HeaderOf(f: Format, data: Bytes)
    requires HeaderOk(f, data)
    ensures data[..44] == HeaderFields(U32(data[8..12]), U32(data[12..16]), U64(data[16..24]), AsI64(U64(data[24..32])))
    ensures data[..48] == Checksummed(f, data[..44])
  {
    hide Le, Un;
    Exact16(0, data[4..6]);
    Exact16(0, data[6..8]);
    Exact32(0, data[8..12]);
    Exact32(0, data[12..16]);
    Exact64(0, data[16..24]);
    Exact64(0, data[24..32]);
    Exact32(0, data[32..36]);
    Exact16(0, data[36..38]);
    Exact16(0, data[38..40]);
    Exact32(0, data[40..44]);
    Exact32(0, data[44..48]);
    TwosComplement(0, U64(data[24..32]));
    assert data[..44] == data[..4] + data[4..6] + data[6..8] + data[8..12] + data[12..16] + data[16..24]
                         + data[24..32] + data[32..36] + data[36..38] + data[38..40] + data[40..44];
    assert data[..48] == data[..44] + data[44..48];
  }

  /** An accepted batch re-encodes, and to the same bytes exactly when the bytes
      the decoder skips in each record are zero. */
  lemma BatchCanonical(f: Format, data: Bytes, topic: Id, partition: u32)
    requires DecodeBatch(f, data, topic, partition).Some?
    ensures var batch := DecodeBatch(f, data, topic, partition).value;
            && EncodeBatch(f, batch).Some?
            && (EncodeBatch(f, batch) == Some(data) <==>
                UnreadZero(data[BATCH_HEADER_BYTES..|data| - BATCH_TRAILER_BYTES]))
  {
    hide RecordsBytes, TakeRecords, HeaderOk, Checksummed, HeaderFields, MaxTimestamp, UnreadZero;
    var batch := DecodeBatch(f, data, topic, partition).value;
    var end := |data| - BATCH_TRAILER_BYTES;
    var body := data[48..end];
    var count := U32(data[12..16]);
    RecordsTaken(f, body, batch.base, topic, partition, 0, count, []);
    assert batch.records[0..] == batch.records;
    var records := RecordsBytes(f, batch.records, topic, partition, batch.base, 0).value;
    var header := HeaderFields(|data|, count, batch.base, MaxTimestamp(batch.records, MIN_INT64));
    EncodedHeader(f, header, records, |data|, count, batch.base, MaxTimestamp(batch.records, MIN_INT64));
    HeaderOf(f, data);
    if records == body { Reassembled(f, data, header, body); }
  }

  lemma Reassembled(f: Format, data: Bytes, header: Bytes, body: Bytes)
    requires |data| >= 52 && data[..48] == Checksummed(f, header) && data[48..|data| - 4] == body
    requires U32(data[|data| - 4..]) == f.crc(data[..|data| - 4])
    ensures data == Checksummed(f, Checksummed(f, header) + body)
  {
    hide Le, Un;
    var end := |data| - 4;
    Exact32(0, data[end..]);
    assert data[..end] == data[..48] + data[48..end];
    assert data == data[..end] + data[end..];
  }

  // -------------------------------------------------------------------- sizes

  function RecordSizes(records: seq<Record>): nat {
    if records == [] then 0 else RecordSize(records[0]) + RecordSizes(records[1..])
  }

  lemma {:induction false} RecordsSized(f: Format, records: seq<Record>, topic: Id, partition: u32, base: u64,
                                        index: nat)
    requires RecordsBytes(f, records, topic, partition, base, index).Some?
    ensures |RecordsBytes(f, records, topic, partition, base, index).value| == RecordSizes(records)
    decreases records
  {
    hide EncodeRecord, Encodable, RecordSize;
    if records != [] {
      EncodedIsEncodable(f, records[0], base);
      RecordSized(f, records[0], base);
      RecordsSized(f, records[1..], topic, partition, base, index + 1);
    }
  }

  lemma EncodedIsEncodable(f: Format, r: Record, base: u64)
    requires EncodeRecord(f, r, base).Some?
    ensures Encodable(f, r, base)
  {
  }

  /** The admission estimate is the length the encoder produces. */
  lemma BatchSized(f: Format, batch: Batch)
    requires EncodeBatch(f, batch).Some?
    ensures |EncodeBatch(f, batch).value| == BATCH_HEADER_BYTES + BATCH_TRAILER_BYTES + RecordSizes(batch.records)
  {
    hide RecordsBytes;
    RecordsSized(f, batch.records, batch.topic, batch.partition, batch.base, 0);
  }
}
