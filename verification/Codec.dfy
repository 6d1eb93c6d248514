/** The record format: what a record's bytes are, and how they are read back. */
module Codec {
  import opened Base
  import opened Wire

  const RECORD_PREFIX_BYTES: int := 28
  const MAX_RECORD_BYTES: int := 16 * 1024 * 1024
  const MAX_RECORD_HEADERS: int := 1_024
  const MAX_HEADER_NAME_BYTES: int := 65_535
  const MAX_U32: u32 := 0xFFFF_FFFF
  const NULL_LENGTH: u32 := 0xFFFF_FFFF

  /** The checksum and the UTF-8 test are parameters: the laws hold for any. */
  datatype Format = Format(crc: Bytes -> u32, utf8: Bytes -> bool)

  datatype Header = Header(name: Bytes, value: Option<Bytes>)

  datatype Record = Record(topic: Id, partition: u32, offset: u64, timestamp: i64,
                           key: Option<Bytes>, value: Option<Bytes>, headers: seq<Header>)

  // ----------------------------------------------------------------- encoding

  predicate Short(v: Option<Bytes>) { v.Some? ==> |v.value| <= MAX_U32 }

  predicate ValidName(f: Format, name: Bytes) { f.utf8(name) && |name| <= MAX_HEADER_NAME_BYTES }

  predicate ValidHeader(f: Format, h: Header) { ValidName(f, h.name) && Short(h.value) }

  predicate ValidHeaders(f: Format, headers: seq<Header>) {
    forall i | 0 <= i < |headers| :: ValidHeader(f, headers[i])
  }

  function LengthOf(v: Option<Bytes>): u32
    requires Short(v)
  {
    if v.None? then NULL_LENGTH else |v.value|
  }

  function Payload(v: Option<Bytes>): Bytes {
    if v.None? then [] else v.value
  }

  /** A length of 2^32 - 1 stands for an absent field. */
  function NullableBytes(v: Option<Bytes>): Bytes
    requires Short(v)
  {
    Le32(LengthOf(v)) + Payload(v)
  }

  function HeaderBytes(f: Format, h: Header): Bytes
    requires ValidHeader(f, h)
  {
    Le32(|h.name|) + Le32(LengthOf(h.value)) + h.name + Payload(h.value)
  }

  function HeadersBytes(f: Format, headers: seq<Header>): Bytes
    requires ValidHeaders(f, headers)
  {
    if headers == [] then [] else HeaderBytes(f, headers[0]) + HeadersBytes(f, headers[1..])
  }

  predicate Encodable(f: Format, r: Record, base: u64) {
    && base <= r.offset && r.offset - base <= MAX_U32
    && base <= MAX_OFFSET && r.offset <= MAX_OFFSET
    && |r.headers| <= MAX_RECORD_HEADERS
    && Short(r.key) && Short(r.value) && ValidHeaders(f, r.headers)
  }

  /** The bytes after the fixed prefix. */
  function Fields(f: Format, r: Record): Bytes
    requires Short(r.key) && Short(r.value) && ValidHeaders(f, r.headers)
  {
    NullableBytes(r.key) + NullableBytes(r.value) + HeadersBytes(f, r.headers)
  }

  function Prefix(total: u32, delta: u32, timestamp: i64, count: u32): (b: Bytes)
    ensures |b| == RECORD_PREFIX_BYTES
  {
    Le32(total) + Le32(delta) + Le64(AsU64(timestamp)) + Zeros(8) + Le32(count)
  }

  function EncodeRecord(f: Format, r: Record, base: u64): Option<Bytes> {
    if !Encodable(f, r, base) then None
    else
      var fields := Fields(f, r);
      var total := RECORD_PREFIX_BYTES + |fields|;
      if total > MAX_RECORD_BYTES then None
      else Some(Prefix(total, r.offset - base, r.timestamp, |r.headers|) + fields)
  }

  // ----------------------------------------------------------------- decoding

  function TakeU32(b: Bytes): Option<(u32, Bytes)> {
    if |b| < 4 then None else Some((U32(b[..4]), b[4..]))
  }

  function TakeBytes(b: Bytes, n: u32): Option<(Bytes, Bytes)> {
    if n > |b| then None else Some((b[..n], b[n..]))
  }

  function TakeNullable(b: Bytes): Option<(Option<Bytes>, Bytes)> {
    match TakeU32(b)
    case None => None
    case Some((n, rest)) =>
      if n == NULL_LENGTH then Some((None, rest))
      else match TakeBytes(rest, n)
        case None => None
        case Some((v, rest')) => Some((Some(v), rest'))
  }

  function TakeHeaderValue(b: Bytes, n: u32): Option<(Option<Bytes>, Bytes)> {
    if n == NULL_LENGTH then Some((None, b))
    else match TakeBytes(b, n)
      case None => None
      case Some((v, rest)) => Some((Some(v), rest))
  }

  function TakeHeader(f: Format, b: Bytes): Option<(Header, Bytes)> {
    match TakeU32(b)
    case None => None
    case Some((nameLength, b1)) =>
      if nameLength > MAX_HEADER_NAME_BYTES then None
      else match TakeU32(b1)
        case None => None
        case Some((valueLength, b2)) =>
          match TakeBytes(b2, nameLength)
          case None => None
          case Some((name, b3)) =>
            if !ValidName(f, name) then None
            else match TakeHeaderValue(b3, valueLength)
              case None => None
              case Some((value, rest)) => Some((Header(name, value), rest))
  }

  /** Reads `count` more headers after `acc`. */
  function TakeHeaders(f: Format, b: Bytes, count: nat, acc: seq<Header>): Option<(seq<Header>, Bytes)>
    decreases count
  {
    if count == 0 then Some((acc, b))
    else match TakeHeader(f, b)
      case None => None
      case Some((h, rest)) => TakeHeaders(f, rest, count - 1, acc + [h])
  }

  datatype Content = Content(key: Option<Bytes>, value: Option<Bytes>, headers: seq<Header>)

  function TakeFields(f: Format, b: Bytes, count: nat): Option<Content> {
    match TakeNullable(b)
    case None => None
    case Some((key, b1)) =>
      match TakeNullable(b1)
      case None => None
      case Some((value, b2)) =>
        match TakeHeaders(f, b2, count, [])
        case None => None
        case Some((headers, rest)) => if rest != [] then None else Some(Content(key, value, headers))
  }

  /** The record at the front of `data`, and how many bytes it takes. Bytes 16 to
      23 of a record are not looked at. */
  function DecodeRecord(f: Format, data: Bytes, base: u64, topic: Id, partition: u32, expected: Option<u32>)
    : Option<(Record, nat)>
  {
    if |data| < RECORD_PREFIX_BYTES then None
    else
      var total := U32(data[..4]);
      if total < RECORD_PREFIX_BYTES || total > MAX_RECORD_BYTES || total > |data| then None
      else
        var delta, count := U32(data[4..8]), U32(data[24..28]);
        if (expected.Some? && delta != expected.value) || base > MAX_OFFSET || delta > MAX_OFFSET - base
           || count > MAX_RECORD_HEADERS then None
        else match TakeFields(f, data[RECORD_PREFIX_BYTES..total], count)
          case None => None
          case Some(Content(key, value, headers)) =>
            Some((Record(topic, partition, base + delta, AsI64(U64(data[8..16])), key, value, headers), total))
  }

  // --------------------------------------------------------- decode of encode

  lemma TakeU32Of(v: u32, rest: Bytes)
    ensures TakeU32(Le32(v) + rest) == Some((v, rest))
  {
    Exact32(v, Le32(v));
    assert (Le32(v) + rest)[..4] == Le32(v);
  }

  lemma TakeBytesOf(v: Bytes, rest: Bytes)
    requires |v| <= MAX_U32
    ensures TakeBytes(v + rest, |v|) == Some((v, rest))
  {
    assert (v + rest)[..|v|] == v && (v + rest)[|v|..] == rest;
  }

  lemma TakeNullableOf(v: Option<Bytes>, rest: Bytes)
    requires v.Some? ==> |v.value| < NULL_LENGTH
    ensures TakeNullable(NullableBytes(v) + rest) == Some((v, rest))
  {
    hide TakeU32, TakeBytes;
    assert NullableBytes(v) + rest == Le32(LengthOf(v)) + (Payload(v) + rest);
    TakeU32Of(LengthOf(v), Payload(v) + rest);
    if v.None? { assert Payload(v) + rest == rest; } else { TakeBytesOf(v.value, rest); }
  }

  lemma TakeHeaderOf(f: Format, h: Header, rest: Bytes)
    requires ValidHeader(f, h) && (h.value.Some? ==> |h.value.value| < NULL_LENGTH)
    ensures TakeHeader(f, HeaderBytes(f, h) + rest) == Some((h, rest))
  {
    hide TakeU32, TakeBytes, TakeHeaderValue, Le, LengthOf;
    var b3 := Payload(h.value) + rest;
    var b2 := h.name + b3;
    var b1 := Le32(LengthOf(h.value)) + b2;
    assert HeaderBytes(f, h) + rest == Le32(|h.name|) + b1;
    TakeU32Of(|h.name|, b1);
    TakeU32Of(LengthOf(h.value), b2);
    TakeBytesOf(h.name, b3);
    TakeHeaderValueOf(h.value, rest);
  }

  lemma TakeHeaderValueOf(v: Option<Bytes>, rest: Bytes)
    requires v.Some? ==> |v.value| < NULL_LENGTH
    ensures TakeHeaderValue(Payload(v) + rest, LengthOf(v)) == Some((v, rest))
  {
    if v.None? { assert Payload(v) + rest == rest; } else { TakeBytesOf(v.value, rest); }
  }

  predicate Narrow(headers: seq<Header>) {
    forall i | 0 <= i < |headers| :: headers[i].value.Some? ==> |headers[i].value.value| < NULL_LENGTH
  }

  lemma {:induction false} TakeHeadersOf(f: Format, headers: seq<Header>, acc: seq<Header>, rest: Bytes)
    requires ValidHeaders(f, headers) && Narrow(headers)
    ensures TakeHeaders(f, HeadersBytes(f, headers) + rest, |headers|, acc) == Some((acc + headers, rest))
    decreases headers
  {
    hide TakeHeader, HeaderBytes, ValidHeader;
    if headers == [] {
      assert [] + rest == rest && acc + headers == acc;
    } else {
      var tail := HeadersBytes(f, headers[1..]);
      assert HeadersBytes(f, headers) + rest == HeaderBytes(f, headers[0]) + (tail + rest);
      TakeHeaderOf(f, headers[0], tail + rest);
      TakeHeadersOf(f, headers[1..], acc + [headers[0]], rest);
      assert acc + [headers[0]] + headers[1..] == acc + headers;
    }
  }

  lemma {:induction false} HeadersNarrow(f: Format, headers: seq<Header>)
    requires ValidHeaders(f, headers) && |HeadersBytes(f, headers)| < NULL_LENGTH
    ensures Narrow(headers)
    decreases headers
  {
    if headers != [] { HeadersNarrow(f, headers[1..]); }
  }

  lemma TakeFieldsOf(f: Format, r: Record)
    requires Short(r.key) && Short(r.value) && ValidHeaders(f, r.headers) && |Fields(f, r)| <= MAX_RECORD_BYTES
    ensures TakeFields(f, Fields(f, r), |r.headers|) == Some(Content(r.key, r.value, r.headers))
  {
    hide TakeHeaders, TakeNullable, HeadersBytes, ValidHeaders, Narrow;
    var hs := HeadersBytes(f, r.headers);
    HeadersNarrow(f, r.headers);
    assert Fields(f, r) == NullableBytes(r.key) + (NullableBytes(r.value) + hs);
    TakeNullableOf(r.key, NullableBytes(r.value) + hs);
    TakeNullableOf(r.value, hs);
    assert hs == hs + [];
    TakeHeadersOf(f, r.headers, [], []);
    assert [] + r.headers == r.headers;
  }

  lemma PrefixLayout(total: u32, delta: u32, timestamp: i64, count: u32, rest: Bytes)
    ensures var b := Prefix(total, delta, timestamp, count) + rest;
            && U32(b[..4]) == total && U32(b[4..8]) == delta && AsI64(U64(b[8..16])) == timestamp
            && b[16..24] == Zeros(8) && U32(b[24..28]) == count && b[28..] == rest
  {
    hide Le, Un;
    var b := Prefix(total, delta, timestamp, count) + rest;
    assert b[..4] == Le32(total) && b[4..8] == Le32(delta) && b[8..16] == Le64(AsU64(timestamp))
           && b[16..24] == Zeros(8) && b[24..28] == Le32(count);
    Exact32(total, Le32(0));
    Exact32(delta, Le32(0));
    Exact32(count, Le32(0));
    Exact64(AsU64(timestamp), Le64(0));
    TwosComplement(timestamp, 0);
  }

  /** Decoding an encoded record gives the record back, whatever follows it. */
  lemma RecordRoundTrip(f: Format, r: Record, base: u64, rest: Bytes)
    requires EncodeRecord(f, r, base).Some?
    ensures var b := EncodeRecord(f, r, base).value;
            && DecodeRecord(f, b + rest, base, r.topic, r.partition, Some(r.offset - base)) == Some((r, |b|))
            && DecodeRecord(f, b + rest, base, r.topic, r.partition, None) == Some((r, |b|))
            && |b| <= MAX_RECORD_BYTES && U32(b[..4]) == |b| && |b| >= RECORD_PREFIX_BYTES
  {
    hide Prefix, Fields, TakeFields, ValidHeaders;
    var fields := Fields(f, r);
    var total := RECORD_PREFIX_BYTES + |fields|;
    var b := EncodeRecord(f, r, base).value;
    PrefixLayout(total, r.offset - base, r.timestamp, |r.headers|, fields + rest);
    PrefixLayout(total, r.offset - base, r.timestamp, |r.headers|, fields);
    assert b + rest == Prefix(total, r.offset - base, r.timestamp, |r.headers|) + (fields + rest);
    assert (b + rest)[28..total] == fields;
    TakeFieldsOf(f, r);
  }

  /** Whatever stands in bytes 16 to 24 of an encoded record, it reads as the same
      record: every record has other accepted byte strings than its encoding. */
  lemma UnreadIgnored(f: Format, r: Record, base: u64, unread: Bytes)
    requires EncodeRecord(f, r, base).Some? && |unread| == 8
    ensures |EncodeRecord(f, r, base).value| >= RECORD_PREFIX_BYTES
    ensures var b := EncodeRecord(f, r, base).value;
            var d := b[..16] + unread + b[24..];
            && DecodeRecord(f, d, base, r.topic, r.partition, Some(r.offset - base)) == Some((r, |b|))
            && (d == b <==> unread == Zeros(8))
  {
    hide Prefix, Fields, TakeFields, ValidHeaders, Le, Un;
    var b := EncodeRecord(f, r, base).value;
    RecordRoundTrip(f, r, base, []);
    assert b + [] == b;
    var d := b[..16] + unread + b[24..];
    PrefixLayout(|b|, r.offset - base, r.timestamp, |r.headers|, Fields(f, r));
    assert d[..4] == b[..4] && d[4..8] == b[4..8] && d[8..16] == b[8..16] && d[24..28] == b[24..28]
           && d[28..] == b[28..];
    assert d[16..24] == unread && d[28..|b|] == b[28..|b|] && |d| == |b|;
    assert b == b[..16] + b[16..24] + b[24..];
  }

  // --------------------------------------------------------- encode of decode

  lemma U32Taken(b: Bytes)
    requires TakeU32(b).Some?
    ensures b == Le32(TakeU32(b).value.0) + TakeU32(b).value.1
  {
    Exact32(0, b[..4]);
  }

  lemma NullableTaken(b: Bytes)
    requires TakeNullable(b).Some?
    ensures var (v, rest) := TakeNullable(b).value;
            Short(v) && (v.Some? ==> |v.value| < NULL_LENGTH) && b == NullableBytes(v) + rest
  {
    U32Taken(b);
  }

  lemma HeaderTaken(f: Format, b: Bytes)
    requires TakeHeader(f, b).Some?
    ensures var (h, rest) := TakeHeader(f, b).value; ValidHeader(f, h) && b == HeaderBytes(f, h) + rest
  {
    hide Le, U32, TakeHeaderValue, TakeBytes, LengthOf;
    var (h, rest) := TakeHeader(f, b).value;
    U32Taken(b);
    var (n, b1) := TakeU32(b).value;
    U32Taken(b1);
    var (m, b2) := TakeU32(b1).value;
    BytesTaken(b2, n);
    var (name, b3) := TakeBytes(b2, n).value;
    HeaderValueTaken(b3, m);
    assert b == Le32(n) + (Le32(m) + (name + (Payload(h.value) + rest)));
    assert HeaderBytes(f, h) + rest == Le32(n) + (Le32(m) + (name + (Payload(h.value) + rest)));
  }

  lemma BytesTaken(b: Bytes, n: u32)
    requires TakeBytes(b, n).Some?
    ensures var (v, rest) := TakeBytes(b, n).value; |v| == n && b == v + rest
  {
  }

  lemma HeaderValueTaken(b: Bytes, n: u32)
    requires TakeHeaderValue(b, n).Some?
    ensures var (v, rest) := TakeHeaderValue(b, n).value; Short(v) && LengthOf(v) == n && b == Payload(v) + rest
  {
  }

  /** What was taken is a suffix of valid headers that re-encode to what was read. */
  lemma {:induction false} HeadersTaken(f: Format, b: Bytes, count: nat, acc: seq<Header>)
    requires TakeHeaders(f, b, count, acc).Some?
    ensures var (hs, rest) := TakeHeaders(f, b, count, acc).value;
            && |hs| == |acc| + count && hs[..|acc|] == acc
            && ValidHeaders(f, hs[|acc|..]) && b == HeadersBytes(f, hs[|acc|..]) + rest
    decreases count
  {
    hide TakeHeader, HeaderBytes, ValidHeader;
    if count == 0 {
      assert b == [] + b;
    } else {
      var (h, b1) := TakeHeader(f, b).value;
      HeaderTaken(f, b);
      HeadersTaken(f, b1, count - 1, acc + [h]);
      var (hs, rest) := TakeHeaders(f, b, count, acc).value;
      assert hs[..|acc| + 1][|acc|] == h && hs[..|acc|] == hs[..|acc| + 1][..|acc|];
      assert hs[|acc|..] == [h] + hs[|acc| + 1..] && hs[|acc|..][1..] == hs[|acc| + 1..];
      assert b == HeaderBytes(f, h) + (HeadersBytes(f, hs[|acc| + 1..]) + rest);
    }
  }

  lemma {:induction false} FieldsTaken(f: Format, b: Bytes, count: nat)
    requires TakeFields(f, b, count).Some?
    ensures var Content(key, value, headers) := TakeFields(f, b, count).value;
            && Short(key) && Short(value) && ValidHeaders(f, headers) && |headers| == count
            && b == NullableBytes(key) + NullableBytes(value) + HeadersBytes(f, headers)
  {
    hide TakeNullable, TakeHeaders, ValidHeaders, HeadersBytes, NullableBytes;
    NullableTaken(b);
    var (key, b1) := TakeNullable(b).value;
    NullableTaken(b1);
    var (value, b2) := TakeNullable(b1).value;
    HeadersTaken(f, b2, count, []);
    var (headers, rest) := TakeHeaders(f, b2, count, []).value;
    assert headers[0..] == headers && b2 == HeadersBytes(f, headers) + [];
  }

  lemma PrefixOf(b: Bytes)
    requires |b| >= 28 && b[16..24] == Zeros(8)
    ensures b[..28] == Prefix(U32(b[..4]), U32(b[4..8]), AsI64(U64(b[8..16])), U32(b[24..28]))
  {
    hide Le, Un;
    Exact32(0, b[..4]);
    Exact32(0, b[4..8]);
    Exact32(0, b[24..28]);
    Exact64(0, b[8..16]);
    TwosComplement(0, U64(b[8..16]));
    assert b[..28] == b[..4] + b[4..8] + b[8..16] + b[16..24] + b[24..28];
  }

  /** An accepted record whose unread bytes are zero re-encodes to itself; with
      any other unread bytes it cannot, because the encoder writes zeros there. */
  lemma RecordCanonical(f: Format, data: Bytes, base: u64, topic: Id, partition: u32, expected: Option<u32>)
    requires DecodeRecord(f, data, base, topic, partition, expected).Some?
    ensures var (r, n) := DecodeRecord(f, data, base, topic, partition, expected).value;
            && RECORD_PREFIX_BYTES <= n <= |data|
            && EncodeRecord(f, r, base).Some? && |EncodeRecord(f, r, base).value| == n
            && (EncodeRecord(f, r, base) == Some(data[..n]) <==> data[16..24] == Zeros(8))
  {
    hide TakeFields, ValidHeaders, HeadersBytes, NullableBytes, Prefix;
    var (r, n) := DecodeRecord(f, data, base, topic, partition, expected).value;
    var count := U32(data[24..28]);
    FieldsTaken(f, data[28..n], count);
    var fields := Fields(f, r);
    assert fields == data[28..n];
    var b := EncodeRecord(f, r, base).value;
    PrefixLayout(n, r.offset - base, r.timestamp, |r.headers|, fields);
    assert b[16..24] == Zeros(8);
    assert data[..n][16..24] == data[16..24];
    if data[16..24] == Zeros(8) {
      PrefixOf(data);
      assert data[..n] == data[..28] + data[28..n];
    }
  }

  // -------------------------------------------------------------------- sizes

  /** recordEncodedBytes, before any limit on the total. */
  function HeaderSizes(headers: seq<Header>): nat {
    if headers == [] then 0 else 8 + |headers[0].name| + |Payload(headers[0].value)| + HeaderSizes(headers[1..])
  }

  function RecordSize(r: Record): nat {
    RECORD_PREFIX_BYTES + 4 + |Payload(r.key)| + 4 + |Payload(r.value)| + HeaderSizes(r.headers)
  }

  lemma {:induction false} HeadersSized(f: Format, headers: seq<Header>)
    requires ValidHeaders(f, headers)
    ensures |HeadersBytes(f, headers)| == HeaderSizes(headers)
    decreases headers
  {
    if headers != [] { HeadersSized(f, headers[1..]); }
  }

  lemma RecordSized(f: Format, r: Record, base: u64)
    requires Encodable(f, r, base)
    ensures EncodeRecord(f, r, base).Some? <==> RecordSize(r) <= MAX_RECORD_BYTES
    ensures EncodeRecord(f, r, base).Some? ==> |EncodeRecord(f, r, base).value| == RecordSize(r)
  {
    HeadersSized(f, r.headers);
  }
}
