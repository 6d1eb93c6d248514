/** Machine integers, identifiers and result types shared by every component. */
module Base {

  const TWO_32: int := 0x1_0000_0000
  const TWO_63: int := 0x8000_0000_0000_0000
  const TWO_64: int := 0x1_0000_0000_0000_0000

  type u8 = x: int | 0 <= x < 0x100
  type u32 = x: int | 0 <= x < 0x1_0000_0000
  type u64 = x: int | 0 <= x < 0x1_0000_0000_0000_0000
  type i64 = x: int | -0x8000_0000_0000_0000 <= x < 0x8000_0000_0000_0000

  const MAX_U64: u64 := 0xFFFF_FFFF_FFFF_FFFF
  const MAX_INT32: u32 := 0x7FFF_FFFF
  const MIN_INT64: i64 := -0x8000_0000_0000_0000

  /** The largest offset the format can express. */
  const MAX_OFFSET: u64 := 0x7FFF_FFFF_FFFF_FFFF

  /** The offset of a stored record: its successor is still a legal offset. */
  type Offset = x: int | 0 <= x < 0x7FFF_FFFF_FFFF_FFFF

  type Bytes = seq<u8>

  /** A 16-byte identifier, by its big-endian value: byte order is `<` and the
      zero identifier is 0. */
  type Id = x: int | 0 <= x < 0x1_0000_0000_0000_0000_0000_0000_0000_0000

  /** A SHA-256 digest, by value; the all-zero digest is 0. */
  type Hash = nat

  /** The outcome of a step that may be refused. */
  datatype Option<+T> = None | Some(value: T)

  /** A topic partition, as consumer groups and retention name it. */
  datatype TopicKey = TopicKey(topic: Id, partition: u32)

  predicate ValidKey(key: TopicKey) {
    key.topic != 0 && key.partition <= MAX_INT32
  }

  /** Canonical key order: by topic, then by partition. */
  predicate KeyLess(a: TopicKey, b: TopicKey) {
    a.topic < b.topic || (a.topic == b.topic && a.partition < b.partition)
  }

  /** Byte-string order, as used for group identifiers. */
  predicate BytesLess(a: Bytes, b: Bytes) {
    if b == [] then false
    else if a == [] then true
    else if a[0] != b[0] then a[0] < b[0]
    else BytesLess(a[1..], b[1..])
  }

  function WrappingSucc(x: u64): u64 {
    if x == MAX_U64 then 0 else x + 1
  }

  function Min(a: int, b: int): int { if a < b then a else b }

  function Max(a: int, b: int): int { if a < b then b else a }
}
