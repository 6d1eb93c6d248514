/** The codec as it runs: encoders extend and fill buffers, decoders advance a
    cursor and append what they read. */
module Coder {
  import opened Base
  import opened Wire
  import opened Codec
  import opened Batches

  // ------------------------------------------------------------------- cursor

  /** A reading position in a byte string. */
  class Cursor {
    const data: Bytes
    var pos: nat

    ghost predicate Valid() reads this { pos <= |data| }

    ghost function Rest(): Bytes
      requires Valid()
      reads this
    {
      data[pos..]
    }

    constructor (data: Bytes)
      ensures Valid() && Rest() == data && this.data == data
    {
      this.data := data;
      pos := 0;
    }

    method AtEnd() returns (end: bool)
      requires Valid()
      ensures end <==> Rest() == []
    {
      end := pos == |data|;
    }

    method ReadU32() returns (r: Option<u32>)
      requires Valid()
      modifies this
      ensures Valid()
      ensures r.None? <==> TakeU32(old(Rest())).None?
      ensures r.Some? ==> TakeU32(old(Rest())) == Some((r.value, Rest()))
    {
      if |data| - pos < 4 { return None; }
      assert data[pos..][..4] == data[pos..pos + 4];
      r := Some(U32(data[pos..pos + 4]));
      pos := pos + 4;
    }

    method ReadBytes(length: u32) returns (r: Option<Bytes>)
      requires Valid()
      modifies this
      ensures Valid()
      ensures r.None? <==> TakeBytes(old(Rest()), length).None?
      ensures r.Some? ==> TakeBytes(old(Rest()), length) == Some((r.value, Rest()))
    {
      if length > |data| - pos { return None; }
      var end := pos + length;
      r := Some(data[pos..end]);
      assert data[pos..][..length] == data[pos..end];
      pos := end;
    }

    method ReadNullable() returns (ok: bool, r: Option<Bytes>)
      requires Valid()
      modifies this
      ensures Valid()
      ensures !ok <==> TakeNullable(old(Rest())).None?
      ensures ok ==> TakeNullable(old(Rest())) == Some((r, Rest()))
    {
      hide TakeU32, TakeBytes;
      var length := ReadU32();
      if length.None? { return false, None; }
      if length.value == NULL_LENGTH { return true, None; }
      r := ReadBytes(length.value);
      ok := r.Some?;
    }

    method ReadHeader(f: Format) returns (r: Option<Header>)
      requires Valid()
      modifies this
      ensures Valid()
      ensures r.None? <==> TakeHeader(f, old(Rest())).None?
      ensures r.Some? ==> TakeHeader(f, old(Rest())) == Some((r.value, Rest()))
    {
      hide TakeU32, TakeBytes;
      var nameLength := ReadU32();
      if nameLength.None? || nameLength.value > MAX_HEADER_NAME_BYTES { return None; }
      var valueLength := ReadU32();
      if valueLength.None? { return None; }
      var name := ReadBytes(nameLength.value);
      if name.None? || !ValidName(f, name.value) { return None; }
      var value: Option<Bytes> := None;
      if valueLength.value != NULL_LENGTH {
        value := ReadBytes(valueLength.value);
        if value.None? { return None; }
      }
      r := Some(Header(name.value, value));
    }

    method ReadHeaders(f: Format, count: u32) returns (r: Option<seq<Header>>)
      requires Valid()
      modifies this
      ensures Valid()
      ensures r.None? <==> TakeHeaders(f, old(Rest()), count, []).None?
      ensures r.Some? ==> TakeHeaders(f, old(Rest()), count, []) == Some((r.value, Rest()))
    {
      hide TakeHeader;
      var headers: seq<Header> := [];
      for index := 0 to count
        invariant Valid()
        invariant TakeHeaders(f, old(Rest()), count, []) == TakeHeaders(f, Rest(), count - index, headers)
      {
        var header := ReadHeader(f);
        if header.None? { return None; }
        headers := headers + [header.value];
      }
      r := Some(headers);
    }
  }

  // ------------------------------------------------------------------ records

  /** decodeRecord */
  method ReadRecord(f: Format, data: Bytes, base: u64, topic: Id, partition: u32, expected: Option<u32>)
    returns (r: Option<(Record, nat)>)
    ensures r == DecodeRecord(f, data, base, topic, partition, expected)
  {
    hide TakeNullable, TakeHeader;
    if |data| < RECORD_PREFIX_BYTES { return None; }
    var total := U32(data[..4]);
    if total < RECORD_PREFIX_BYTES || total > MAX_RECORD_BYTES { return None; }
    if total > |data| { return None; }
    var body := data[..total];
    assert body[4..8] == data[4..8] && body[8..16] == data[8..16] && body[24..28] == data[24..28];
    assert body[RECORD_PREFIX_BYTES..] == data[RECORD_PREFIX_BYTES..total];
    var delta := U32(body[4..8]);
    if expected.Some? && delta != expected.value { return None; }
    if base > MAX_OFFSET || delta > MAX_OFFSET - base { return None; }
    var count := U32(body[24..28]);
    if count > MAX_RECORD_HEADERS { return None; }
    var fields := ReadFields(f, body[RECORD_PREFIX_BYTES..], count);
    if fields.None? { return None; }
    var Content(key, value, headers) := fields.value;
    r := Some((Record(topic, partition, base + delta, AsI64(U64(body[8..16])), key, value, headers), total));
  }

  method ReadFields(f: Format, data: Bytes, count: u32) returns (r: Option<Content>)
    ensures r == TakeFields(f, data, count)
  {
    hide TakeNullable, TakeHeaders, Cursor.Rest;
    var c := new Cursor(data);
    var ok, key := c.ReadNullable();
    if !ok { return None; }
    var value;
    ok, value := c.ReadNullable();
    if !ok { return None; }
    var headers := c.ReadHeaders(f, count);
    if headers.None? { return None; }
    var end := c.AtEnd();
    if !end { return None; }
    r := Some(Content(key, value, headers.value));
  }

  method AppendNullable(dst: Bytes, value: Option<Bytes>) returns (r: Option<Bytes>)
    ensures r == if Short(value) then Some(dst + NullableBytes(value)) else None
  {
    if value.None? {
      r := Some(dst + Le32(NULL_LENGTH));
      assert NullableBytes(value) == Le32(NULL_LENGTH);
    } else {
      if |value.value| > MAX_U32 { return None; }
      r := Some(dst + Le32(|value.value|) + value.value);
      assert dst + Le32(|value.value|) + value.value == dst + (Le32(|value.value|) + value.value);
    }
  }

  lemma {:induction false} HeaderAppended(f: Format, dst: Bytes, body: Bytes, headers: seq<Header>, i: nat)
    requires ValidHeaders(f, headers) && i < |headers| && dst == body + HeaderBytes(f, headers[i])
    ensures dst + HeadersBytes(f, headers[i + 1..]) == body + HeadersBytes(f, headers[i..])
  {
    hide HeaderBytes, ValidHeader;
    var rest := HeadersBytes(f, headers[i + 1..]);
    assert headers[i..][0] == headers[i] && headers[i..][1..] == headers[i + 1..];
    assert HeadersBytes(f, headers[i..]) == HeaderBytes(f, headers[i]) + rest;
    assert body + HeaderBytes(f, headers[i]) + rest == body + (HeaderBytes(f, headers[i]) + rest);
  }

  method AppendHeaders(f: Format, dst: Bytes, headers: seq<Header>) returns (r: Option<Bytes>)
    ensures r == if ValidHeaders(f, headers) then Some(dst + HeadersBytes(f, headers)) else None
  {
    hide ValidHeader, HeaderBytes;
    var body := dst;
    for i := 0 to |headers|
      invariant ValidHeaders(f, headers[..i])
      invariant ValidHeaders(f, headers) ==> body + HeadersBytes(f, headers[i..]) == dst + HeadersBytes(f, headers)
    {
      var h := headers[i];
      var bytes := OneHeader(f, h);
      if bytes.None? { return None; }
      ghost var before := body;
      body := body + bytes.value;
      if ValidHeaders(f, headers) { HeaderAppended(f, body, before, headers, i); }
    }
    assert headers[..|headers|] == headers;
    assert body + [] == body;
    r := Some(body);
  }

  method OneHeader(f: Format, h: Header) returns (r: Option<Bytes>)
    ensures r == if ValidHeader(f, h) then Some(HeaderBytes(f, h)) else None
  {
    if !ValidName(f, h.name) { return None; }
    var body := Le32(|h.name|);
    if h.value.None? {
      body := body + Le32(NULL_LENGTH);
    } else {
      if |h.value.value| > MAX_U32 { return None; }
      body := body + Le32(|h.value.value|);
    }
    body := body + h.name;
    if h.value.Some? { body := body + h.value.value; }
    assert body == HeaderBytes(f, h);
    r := Some(body);
  }

  /** EncodeRecord: fills the prefix, appends the fields, then writes the length. */
  method WriteRecord(f: Format, record: Record, base: u64) returns (r: Option<Bytes>)
    ensures r == EncodeRecord(f, record, base)
  {
    hide ValidHeaders, HeadersBytes, NullableBytes, Prefix, Le;
    if record.offset < base || record.offset - base > MAX_U32 { return None; }
    if base > MAX_OFFSET || record.offset > MAX_OFFSET { return None; }
    if |record.headers| > MAX_RECORD_HEADERS { return None; }
    var prefix := Zeros(4) + Le32(record.offset - base) + Le64(AsU64(record.timestamp)) + Zeros(8)
        + Le32(|record.headers|);
    var a := AppendNullable(prefix, record.key);
    if a.None? { return None; }
    var b := AppendNullable(a.value, record.value);
    if b.None? { return None; }
    var c := AppendHeaders(f, b.value, record.headers);
    if c.None? { return None; }
    var body := c.value;
    if |body| > MAX_RECORD_BYTES { return None; }
    var k, v, h := NullableBytes(record.key), NullableBytes(record.value), HeadersBytes(f, record.headers);
    LengthWritten(body, prefix, k, v, h, record.offset - base, record.timestamp, |record.headers|);
    body := Le32(|body|) + body[4..];
    r := Some(body);
  }

  lemma LengthWritten(body: Bytes, prefix: Bytes, k: Bytes, v: Bytes, h: Bytes, delta: u32, timestamp: i64, count: u32)
    requires prefix == Zeros(4) + Le32(delta) + Le64(AsU64(timestamp)) + Zeros(8) + Le32(count)
    requires body == prefix + k + v + h && |body| <= MAX_RECORD_BYTES
    ensures Le32(|body|) + body[4..] == Prefix(|body|, delta, timestamp, count) + (k + v + h)
  {
    hide Le;
    var tail := Le32(delta) + Le64(AsU64(timestamp)) + Zeros(8) + Le32(count);
    assert prefix == Zeros(4) + tail;
    assert body == Zeros(4) + (tail + (k + v + h));
    assert body[4..] == tail + (k + v + h);
    assert Prefix(|body|, delta, timestamp, count) == Le32(|body|) + tail;
  }

  // ------------------------------------------------------------------ batches

  /** The record loop of EncodeBatch. */
  method WriteRecords(f: Format, batch: Batch) returns (r: Option<Bytes>, maxTimestamp: i64)
    ensures r == RecordsBytes(f, batch.records, batch.topic, batch.partition, batch.base, 0)
    ensures r.Some? ==> maxTimestamp == MaxTimestamp(batch.records, MIN_INT64)
  {
    hide EncodeRecord;
    var bytes: Bytes := [];
    maxTimestamp := MIN_INT64;
    var records := batch.records;
    assert records[0..] == records;
    ghost var whole := RecordsBytes(f, records, batch.topic, batch.partition, batch.base, 0);
    assert whole.Some? ==> bytes + whole.value == whole.value;
    for i := 0 to |records|
      invariant RecordsBytes(f, records, batch.topic, batch.partition, batch.base, 0) ==
                match RecordsBytes(f, records[i..], batch.topic, batch.partition, batch.base, i)
                case None => None
                case Some(rest) => Some(bytes + rest)
      invariant MaxTimestamp(records, MIN_INT64) == MaxTimestamp(records[i..], maxTimestamp)
    {
      var record := records[i];
      assert records[i..][1..] == records[i + 1..];
      if record.topic != batch.topic || record.partition != batch.partition || record.offset != batch.base + i {
        return None, maxTimestamp;
      }
      if record.timestamp > maxTimestamp { maxTimestamp := record.timestamp; }
      var encoded := WriteRecord(f, record, batch.base);
      if encoded.None? { return None, maxTimestamp; }
      ghost var before := bytes;
      bytes := bytes + encoded.value;
      ghost var rest := RecordsBytes(f, records[i + 1..], batch.topic, batch.partition, batch.base, i + 1);
      assert rest.Some? ==> before + (encoded.value + rest.value) == bytes + rest.value;
    }
    assert bytes + [] == bytes;
    r := Some(bytes);
  }

  /** Copies `b` into the buffer at `at`. */
  method Put(a: array<u8>, at: nat, b: Bytes)
    requires at + |b| <= a.Length
    modifies a
    ensures a[..] == old(a[..at]) + b + old(a[at + |b|..])
  {
    for i := 0 to |b|
      invariant a[..at] == old(a[..at]) && a[at..at + i] == b[..i] && a[at + i..] == old(a[at + i..])
    {
      a[at + i] := b[i];
      assert a[at + i..][1..] == a[at + i + 1..] && old(a[at + i..])[1..] == old(a[at + i + 1..]);
    }
    assert a[..] == a[..at] + a[at..at + |b|] + a[at + |b|..];
    assert b[..|b|] == b;
  }

  /** The rest of a fresh buffer is still zero. */
  ghost predicate Filled(a: Bytes, front: Bytes) {
    |front| <= |a| && a == front + Zeros(|a| - |front|)
  }

  lemma FillNext(before: Bytes, front: Bytes, b: Bytes, after: Bytes)
    requires Filled(before, front) && |front| + |b| <= |before|
    requires after == before[..|front|] + b + before[|front| + |b|..]
    ensures Filled(after, front + b)
  {
    assert before[..|front|] == front;
    assert before[|front| + |b|..] == Zeros(|before| - |front| - |b|);
  }

  lemma FillZeros(a: Bytes, front: Bytes, zeros: Bytes)
    requires Filled(a, front) && |front| + |zeros| <= |a| && zeros == Zeros(|zeros|)
    ensures Filled(a, front + zeros)
  {
    assert Zeros(|a| - |front|) == zeros + Zeros(|a| - |front| - |zeros|);
  }

  method Fill(a: array<u8>, ghost front: Bytes, at: nat, b: Bytes) returns (ghost next: Bytes)
    requires Filled(a[..], front) && at == |front| && at + |b| <= a.Length
    modifies a
    ensures next == front + b && Filled(a[..], next)
  {
    ghost var before := a[..];
    Put(a, at, b);
    FillNext(before, front, b, a[..]);
    next := front + b;
  }

  method NewBuffer(n: nat) returns (a: array<u8>)
    ensures fresh(a) && a.Length == n && Filled(a[..], [])
  {
    a := new u8[n](_ => 0);
    assert a[..] == [] + Zeros(n);
  }

  lemma FilledFront(a: Bytes, front: Bytes, n: nat)
    requires Filled(a, front) && n <= |front|
    ensures a[..n] == front[..n]
  {
  }

  /** EncodeBatch: allocates the batch, fills its header field by field, checksums
      the header, copies the records, and checksums everything before the end. */
  method WriteBatch(f: Format, batch: Batch) returns (r: Option<Bytes>)
    ensures r == EncodeBatch(f, batch)
  {
    hide RecordsBytes, MaxTimestamp, Le, Filled, HeaderFields, Checksummed;
    if batch.topic == 0 || |batch.records| == 0 || |batch.records| > MAX_BATCH_RECORDS { return None; }
    if !ValidOffsetRange(batch.base, |batch.records|) { return None; }
    var records, maxTimestamp := WriteRecords(f, batch);
    if records.None? { return None; }
    var total := BATCH_HEADER_BYTES + |records.value| + BATCH_TRAILER_BYTES;
    if total > MAX_BATCH_BYTES { return None; }

    var data := NewBuffer(total);
    ghost var header := FillHeader(data, total, |batch.records|, batch.base, maxTimestamp);
    FilledFront(data[..], header, 44);
    ghost var front := Fill(data, header, 44, Le32(f.crc(data[..44])));
    CheckedIs(f, header, front);
    front := Fill(data, front, BATCH_HEADER_BYTES, records.value);
    FilledFront(data[..], front, total - BATCH_TRAILER_BYTES);
    ghost var all := Fill(data, front, total - BATCH_TRAILER_BYTES, Le32(f.crc(data[..total - BATCH_TRAILER_BYTES])));
    CheckedIs(f, front, all);
    FilledAll(data[..], all);
    r := Some(data[..]);
  }

  lemma CheckedIs(f: Format, b: Bytes, c: Bytes)
    requires c == b + Le32(f.crc(b[..|b|]))
    ensures c == Checksummed(f, b)
  {
    assert b[..|b|] == b;
  }

  lemma FilledAll(a: Bytes, front: Bytes)
    requires Filled(a, front) && |a| == |front|
    ensures a == front
  {
  }

  method FillHeader(data: array<u8>, total: u32, count: u32, base: u64, maxTimestamp: i64) returns (ghost front: Bytes)
    requires Filled(data[..], []) && data.Length >= BATCH_HEADER_BYTES
    modifies data
    ensures front == HeaderFields(total, count, base, maxTimestamp) && Filled(data[..], front)
  {
    hide Le, Filled, Zeros;
    ZeroFields();
    front := Fill(data, [], 0, BATCH_MAGIC);
    front := BATCH_MAGIC;
    front := Fill(data, front, 4, Le16(FORMAT_VERSION));
    front := Fill(data, front, 6, Le16(BATCH_HEADER_BYTES));
    front := Fill(data, front, 8, Le32(total));
    front := Fill(data, front, 12, Le32(count));
    front := Fill(data, front, 16, Le64(base));
    front := Fill(data, front, 24, Le64(AsU64(maxTimestamp)));
    FillZeros(data[..], front, Le32(0));
    front := front + Le32(0);
    front := Fill(data, front, 36, Le16(FORMAT_VERSION));
    FillZeros(data[..], front, Le16(0));
    FillZeros(data[..], front + Le16(0), Le32(0));
    front := front + Le16(0) + Le32(0);
  }

  lemma ZeroFields()
    ensures Le32(0) == Zeros(4) && Le16(0) == Zeros(2)
  {
  }

  /** The record loop of DecodeBatch. */
  method ReadRecords(f: Format, body: Bytes, base: u64, topic: Id, partition: u32, count: u32)
    returns (r: Option<seq<Record>>, maxTimestamp: i64)
    ensures r == TakeRecords(f, body, base, topic, partition, 0, count, [])
    ensures r.Some? ==> maxTimestamp == MaxTimestamp(r.value, MIN_INT64)
  {
    hide DecodeRecord;
    var records: seq<Record> := [];
    var position := 0;
    maxTimestamp := MIN_INT64;
    for index := 0 to count
      invariant position <= |body|
      invariant TakeRecords(f, body, base, topic, partition, 0, count, []) ==
                TakeRecords(f, body[position..], base, topic, partition, index, count, records)
      invariant maxTimestamp == MaxTimestamp(records, MIN_INT64)
    {
      if |body| - position < RECORD_PREFIX_BYTES { return None, maxTimestamp; }
      var length := U32(body[position..position + 4]);
      ghost var rest := body[position..];
      assert rest[..4] == body[position..position + 4];
      if length < RECORD_PREFIX_BYTES || length > |body| - position { return None, maxTimestamp; }
      assert rest[..length] == body[position..position + length] && rest[length..] == body[position + length..];
      var record := ReadRecord(f, body[position..position + length], base, topic, partition, Some(index));
      if record.None? { return None, maxTimestamp; }
      if record.value.1 != length { return None, maxTimestamp; }
      MaxTimestampAppend(records, record.value.0, MIN_INT64);
      if record.value.0.timestamp > maxTimestamp { maxTimestamp := record.value.0.timestamp; }
      records := records + [record.value.0];
      position := position + length;
    }
    if position != |body| { return None, maxTimestamp; }
    r := Some(records);
  }

  lemma {:induction false} MaxTimestampAppend(records: seq<Record>, r: Record, acc: i64)
    ensures var m := MaxTimestamp(records, acc);
            MaxTimestamp(records + [r], acc) == if r.timestamp > m then r.timestamp else m
    decreases records
  {
    if records == [] {
      assert records + [r] == [r];
    } else {
      assert (records + [r])[1..] == records[1..] + [r];
      MaxTimestampAppend(records[1..], r, if records[0].timestamp > acc then records[0].timestamp else acc);
    }
  }

  /** DecodeBatch */
  method ReadBatch(f: Format, data: Bytes, topic: Id, partition: u32) returns (r: Option<Batch>)
    ensures r == DecodeBatch(f, data, topic, partition)
  {
    hide TakeRecords, MaxTimestamp, SizesOk;
    if |data| < BATCH_HEADER_BYTES || data[..4] != BATCH_MAGIC { return None; }
    if U16(data[6..8]) != BATCH_HEADER_BYTES { return None; }
    if U32(data[44..48]) != f.crc(data[..44]) { return None; }
    if U16(data[4..6]) != FORMAT_VERSION || U16(data[36..38]) != FORMAT_VERSION { return None; }
    if U32(data[32..36]) != 0 || U16(data[38..40]) != 0 || U32(data[40..44]) != 0 { return None; }
    if topic == 0 { return None; }
    var total, count, base := U32(data[8..12]), U32(data[12..16]), U64(data[16..24]);
    if !SizesOk(total, count, base) { return None; }
    if total != |data| { return None; }
    LongEnough(total, count, base);
    var end := |data| - BATCH_TRAILER_BYTES;
    if U32(data[end..]) != f.crc(data[..end]) { return None; }
    var records, maxTimestamp := ReadRecords(f, data[BATCH_HEADER_BYTES..end], base, topic, partition, count);
    if records.None? { return None; }
    if AsI64(U64(data[24..32])) != maxTimestamp { return None; }
    r := Some(Batch(topic, partition, base, records.value));
  }

  lemma LongEnough(total: u32, count: u32, base: u64)
    requires SizesOk(total, count, base)
    ensures total >= BATCH_HEADER_BYTES + BATCH_TRAILER_BYTES
  {
  }

  // ---------------------------------------------------------------- estimates

  function CheckedAdd(a: nat, b: nat): Option<nat> {
    if a + b > MAX_U64 then None else Some(a + b)
  }

  lemma {:induction false} HeaderSizesSplit(headers: seq<Header>, i: nat)
    requires i < |headers|
    ensures HeaderSizes(headers[..i + 1]) == HeaderSizes(headers[..i]) + 8 + |headers[i].name|
            + |Payload(headers[i].value)|
    ensures HeaderSizes(headers[..i + 1]) <= HeaderSizes(headers)
    decreases headers
  {
    var tail := headers[1..];
    assert headers[..i + 1][1..] == tail[..i];
    if i > 0 {
      HeaderSizesSplit(tail, i - 1);
      assert headers[..i][1..] == tail[..i - 1];
    }
  }

  predicate ValidNames(f: Format, headers: seq<Header>) {
    forall i | 0 <= i < |headers| :: ValidName(f, headers[i].name)
  }

  /** A record whose size can be charged; a total too wide for a counter is not. */
  predicate Chargeable(f: Format, r: Record) {
    |r.headers| <= MAX_RECORD_HEADERS && ValidNames(f, r.headers) && RecordSize(r) <= MAX_U64
  }

  /** recordEncodedBytes: the exact size, unless a header is illegal or the sum
      does not fit 64 bits. */
  method EstimateRecord(f: Format, r: Record) returns (size: Option<nat>)
    requires 36 + |Payload(r.key)| + |Payload(r.value)| <= MAX_U64 // two slices of one address space
    ensures size == if Chargeable(f, r) then Some(RecordSize(r)) else None
  {
    if |r.headers| > MAX_RECORD_HEADERS { return None; }
    var n := RECORD_PREFIX_BYTES + 4 + |Payload(r.key)| + 4 + |Payload(r.value)|;
    for i := 0 to |r.headers|
      invariant forall j | 0 <= j < i :: ValidName(f, r.headers[j].name)
      invariant n == RECORD_PREFIX_BYTES + 4 + |Payload(r.key)| + 4 + |Payload(r.value)|
                + HeaderSizes(r.headers[..i]) <= MAX_U64
    {
      var h := r.headers[i];
      if !ValidName(f, h.name) { return None; }
      HeaderSizesSplit(r.headers, i);
      var sum := CheckedAdd(n, 8 + |h.name| + |Payload(h.value)|);
      if sum.None? { return None; }
      n := sum.value;
    }
    assert r.headers[..|r.headers|] == r.headers;
    size := Some(n);
  }

  lemma {:induction false} RecordSizesSplit(records: seq<Record>, i: nat)
    requires i < |records|
    ensures RecordSizes(records[..i + 1]) == RecordSizes(records[..i]) + RecordSize(records[i])
    ensures RecordSizes(records[..i + 1]) <= RecordSizes(records)
    decreases records
  {
    hide RecordSize;
    var tail := records[1..];
    assert records[..i + 1][1..] == tail[..i];
    if i > 0 {
      RecordSizesSplit(tail, i - 1);
      assert records[..i][1..] == tail[..i - 1];
    }
  }

  lemma {:induction false} RecordSizesNone(records: seq<Record>)
    ensures RecordSizes(records[..0]) == 0
  {
  }

  /** batchEncodedBytes */
  method EstimateBatch(f: Format, records: seq<Record>) returns (size: Option<nat>)
    requires forall i | 0 <= i < |records| :: 36 + |Payload(records[i].key)| + |Payload(records[i].value)| <= MAX_U64
    ensures size == if 0 < |records| <= MAX_BATCH_RECORDS
                       && (forall i | 0 <= i < |records| :: Chargeable(f, records[i]))
                       && BATCH_HEADER_BYTES + BATCH_TRAILER_BYTES + RecordSizes(records) <= MAX_U64
                    then Some(BATCH_HEADER_BYTES + BATCH_TRAILER_BYTES + RecordSizes(records)) else None
  {
    hide Chargeable, RecordSize, RecordSizes;
    if |records| == 0 || |records| > MAX_BATCH_RECORDS { return None; }
    var n := BATCH_HEADER_BYTES + BATCH_TRAILER_BYTES;
    RecordSizesNone(records);
    for i := 0 to |records|
      invariant forall j | 0 <= j < i :: Chargeable(f, records[j])
      invariant n == BATCH_HEADER_BYTES + BATCH_TRAILER_BYTES + RecordSizes(records[..i]) <= MAX_U64
    {
      var one := EstimateRecord(f, records[i]);
      if one.None? { return None; }
      RecordSizesSplit(records, i);
      var sum := CheckedAdd(n, one.value);
      if sum.None? { return None; }
      n := sum.value;
    }
    assert records[..|records|] == records;
    size := Some(n);
  }

  /** What the writer charges for a batch is what the encoder will produce. */
  lemma EstimateIsExact(f: Format, batch: Batch)
    requires EncodeBatch(f, batch).Some?
    ensures forall i | 0 <= i < |batch.records| :: Chargeable(f, batch.records[i])
    ensures |EncodeBatch(f, batch).value| == BATCH_HEADER_BYTES + BATCH_TRAILER_BYTES + RecordSizes(batch.records)
  {
    hide RecordsBytes, Chargeable;
    BatchSized(f, batch);
    forall i | 0 <= i < |batch.records| ensures Chargeable(f, batch.records[i]) {
      EncodedChargeable(f, batch.records, batch.topic, batch.partition, batch.base, 0, i);
    }
  }

  lemma {:induction false} EncodedChargeable(f: Format, records: seq<Record>, topic: Id, partition: u32, base: u64,
                                             index: nat, i: nat)
    requires RecordsBytes(f, records, topic, partition, base, index).Some? && i < |records|
    ensures Chargeable(f, records[i])
    decreases records
  {
    hide EncodeRecord, Encodable, RecordSize;
    if i == 0 {
      EncodedIsEncodable(f, records[0], base);
      RecordSized(f, records[0], base);
      EncodableNames(f, records[0], base);
    } else {
      EncodedChargeable(f, records[1..], topic, partition, base, index + 1, i - 1);
    }
  }

  lemma EncodableNames(f: Format, r: Record, base: u64)
    requires Encodable(f, r, base)
    ensures |r.headers| <= MAX_RECORD_HEADERS && ValidNames(f, r.headers)
  {
    forall i | 0 <= i < |r.headers| ensures ValidName(f, r.headers[i].name) {
      assert ValidHeader(f, r.headers[i]);
    }
  }
}
