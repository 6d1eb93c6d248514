/** The check of all topic storage against the catalog, before anything in it is
    opened or repaired: every file of every partition is read and nothing is
    changed. */
module Preflight {
  import opened Base
  import opened Wire
  import opened Codec
  import opened Segments
  import opened PartitionLog
  import opened SegmentPieces
  import opened Recovery
  import Catalog

  // -------------------------------------------------------------------- chain

  /** The retained files, each continuing the one before it: the end offset. */
  function Chain(f: Format, files: seq<File>, topic: Id, partition: u32, expected: nat, maxBytes: u64): Option<nat>
    decreases files
  {
    if files == [] then Some(expected)
    else if files[0].base != expected then None
    else match Segments.Preflight(f, files[0].data, topic, partition, |files| == 1, expected, maxBytes)
      case None => None
      case Some(end) => Chain(f, files[1..], topic, partition, end, maxBytes)
  }

  predicate Fit(files: seq<File>, maxBytes: u64) { forall i | 0 <= i < |files| :: |files[i].data| <= maxBytes }

  function EndOfSegments(segments: seq<Segment>, expected: nat): nat {
    if segments == [] then expected else segments[|segments| - 1].end
  }

  /** Whatever the files hold, the read-only check accepts exactly what opening the
      partition accepts, up to the configured size, and finds the same end. */
  lemma {:induction false} ChainAgrees(f: Format, files: seq<File>, topic: Id, partition: u32, expected: nat,
                                       maxBytes: u64)
    ensures var p, r := Chain(f, files, topic, partition, expected, maxBytes),
            Open(f, files, topic, partition, expected);
            && (p.Some? <==> r.Some? && Fit(files, maxBytes))
            && (p.Some? ==> p.value == EndOfSegments(r.value, expected))
    decreases files
  {
    hide Segments.Preflight, Recover;
    if files != [] && files[0].base == expected {
      PreflightAgrees(f, files[0].data, topic, partition, |files| == 1, expected, maxBytes);
      FitSplit(files, maxBytes);
      var r := Recover(f, files[0].data, topic, partition, |files| == 1, expected);
      if r.Some? {
        ChainAgrees(f, files[1..], topic, partition, r.value.end, maxBytes);
      }
    }
  }

  lemma FitSplit(files: seq<File>, maxBytes: u64)
    requires files != []
    ensures Fit(files, maxBytes) <==> |files[0].data| <= maxBytes && Fit(files[1..], maxBytes)
  {
    if Fit(files[1..], maxBytes) {
      forall i | 0 < i < |files| ensures |files[i].data| <= maxBytes { assert files[i] == files[1..][i - 1]; }
    }
  }

  // ---------------------------------------------------------------- partition

  /** A file below the retained start must be the segment that the catalog retired. */
  predicate RetiredAccepted(h: Hasher, data: Bytes, topic: Id, partition: u32, e: Catalog.Retired, maxBytes: u64) {
    && SEGMENT_HEADER_BYTES <= |data| == e.bytes
    && (match DecodeSegmentHeader(h.f, data[..SEGMENT_HEADER_BYTES], topic, partition)
        case None => false
        case Some(header) =>
          && header.base == e.base && header.id == e.anchor.id
          && h.digest(data[..SEGMENT_HEADER_BYTES]) == e.anchor.hash)
    && Segments.Preflight(h.f, data, topic, partition, false, e.base, maxBytes) == Some(e.end)
  }

  function Retained(files: seq<File>, start: u64): seq<File> {
    if files == [] then []
    else if files[0].base < start then Retained(files[1..], start)
    else [files[0]] + Retained(files[1..], start)
  }

  /** The first retained segment is the one the catalog names. */
  predicate AnchorAccepted(h: Hasher, data: Bytes, topic: Id, partition: u32, p: Catalog.Partition) {
    && |data| >= SEGMENT_HEADER_BYTES
    && (match DecodeSegmentHeader(h.f, data[..SEGMENT_HEADER_BYTES], topic, partition)
        case None => false
        case Some(header) =>
          && header.base == p.retainedL && header.id == p.current.id
          && h.digest(data[..SEGMENT_HEADER_BYTES]) == p.current.hash)
  }

  predicate BelowStart(retired: map<u64, Catalog.Retired>, start: u64) {
    forall b | b in retired :: b < start && retired[b].base == b
  }

  predicate KnownRetired(h: Hasher, files: seq<File>, topic: Id, partition: u32, start: u64, maxBytes: u64,
                         retired: map<u64, Catalog.Retired>) {
    forall i | 0 <= i < |files| && files[i].base < start ::
      files[i].base in retired
      && RetiredAccepted(h, files[i].data, topic, partition, retired[files[i].base], maxBytes)
  }

  /** preflightPartitionDirectory, over the files in base order. */
  predicate PartitionAccepted(h: Hasher, files: seq<File>, topic: Id, partition: u32, p: Catalog.Partition,
                              retired: map<u64, Catalog.Retired>) {
    var kept, maxBytes := Retained(files, p.retainedL), p.config.segmentBytes;
    && BelowStart(retired, p.retainedL)
    && KnownRetired(h, files, topic, partition, p.retainedL, maxBytes, retired)
    && kept != [] && Chain(h.f, kept, topic, partition, p.retainedL, maxBytes).Some?
    && AnchorAccepted(h, kept[0].data, topic, partition, p)
  }

  /** What preflight accepts can be opened, at the catalog's anchor, once the retired
      files are gone. */
  lemma {:induction false} AcceptedOpens(h: Hasher, files: seq<File>, topic: Id, partition: u32, p: Catalog.Partition,
                      retired: map<u64, Catalog.Retired>)
    requires PartitionAccepted(h, files, topic, partition, p, retired)
    ensures var r := Open(h.f, Retained(files, p.retainedL), topic, partition, p.retainedL);
            r.Some? && r.value != [] && r.value[0].header.base == p.retainedL && r.value[0].header.id == p.current.id
  {
    hide DecodeSegmentHeader, Scan, Segments.Preflight, RetiredAccepted, Retained;
    ChainAgrees(h.f, Retained(files, p.retainedL), topic, partition, p.retainedL, p.config.segmentBytes);
  }

  lemma {:induction false} RetainedSplit(a: seq<File>, b: seq<File>, start: u64)
    ensures Retained(a + b, start) == Retained(a, start) + Retained(b, start)
    decreases a
  {
    if a == [] {
      assert a + b == b;
    } else {
      assert (a + b)[1..] == a[1..] + b;
      RetainedSplit(a[1..], b, start);
    }
  }

  // ------------------------------------------------------------------- topics

  /** "IEL-TOPIC-PREPARATION-V1" and a line feed */
  const MARKER_TEXT: Bytes := [73, 69, 76, 45, 84, 79, 80, 73, 67, 45, 80, 82, 69, 80, 65, 82, 65, 84, 73, 79, 78, 45,
                               86, 49, 10]

  const MARKER_BYTES: nat := 58

  function HexDigit(n: nat): u8
    requires n < 16
  {
    if n < 10 then 48 + n else 87 + n
  }

  function Hex(b: Bytes): (s: Bytes)
    ensures |s| == 2 * |b|
  {
    if b == [] then [] else [HexDigit(b[0] / 16), HexDigit(b[0] % 16)] + Hex(b[1..])
  }

  /** What the preparation marker of a topic holds. */
  function MarkerOf(topic: Id): (m: Bytes)
    ensures |m| == MARKER_BYTES
  {
    MARKER_TEXT + Hex(IdBytes(topic)) + [10]
  }

  /** The directory of a topic: its preparation marker, and the segment files of each
      partition directory in base order. */
  datatype TopicDir = TopicDir(marker: Option<Bytes>, partitions: map<u32, seq<File>>)

  predicate MarkerAccepted(marker: Option<Bytes>, topic: Id) { marker.Some? ==> marker.value == MarkerOf(topic) }

  /** preflightTopicDirectory */
  predicate TopicAccepted(h: Hasher, id: Id, d: TopicDir, t: Catalog.Topic) {
    && MarkerAccepted(d.marker, id)
    && (forall i | i in d.partitions ::
          i < |t.partitions|
          && PartitionAccepted(h, d.partitions[i], id, i, t.partitions[i], Catalog.RetiredOf(t, i)))
    && (forall i | 0 <= i < |t.partitions| :: i in d.partitions)
  }

  /** A directory of no catalog topic: one being prepared, or storage opened directly
      before there were any topics. */
  predicate UnclaimedAccepted(id: Id, d: TopicDir, owned: bool) {
    MarkerAccepted(d.marker, id) && (owned ==> d.marker.Some?)
  }

  /** preflightTopicStorage */
  predicate StorageAccepted(h: Hasher, cat: Catalog.State, dirs: map<Id, TopicDir>) {
    && (forall id | id in dirs ::
          if id in cat.topics then TopicAccepted(h, id, dirs[id], cat.topics[id])
          else UnclaimedAccepted(id, dirs[id], cat.topics != map[]))
    && (forall id | id in cat.topics :: id in dirs)
  }

  // ------------------------------------------------------------------ methods

  /** preflightSegmentChain's last loop. */
  method ValidateChain(f: Format, files: seq<File>, topic: Id, partition: u32, initial: u64, maxBytes: u64)
    returns (r: Option<nat>)
    ensures r == Chain(f, files, topic, partition, initial, maxBytes)
    ensures r.Some? <==> Open(f, files, topic, partition, initial).Some? && Fit(files, maxBytes)
  {
    hide Segments.Preflight, Recover, Open;
    ChainAgrees(f, files, topic, partition, initial, maxBytes);
    var expected: nat := initial;
    assert files[0..] == files;
    for i := 0 to |files|
      invariant Chain(f, files, topic, partition, initial, maxBytes) ==
                Chain(f, files[i..], topic, partition, expected, maxBytes)
    {
      assert files[i..][0] == files[i] && files[i..][1..] == files[i + 1..];
      if files[i].base != expected { return None; }
      var next := ValidateSegment(f, files[i].data, topic, partition, i == |files| - 1, expected, maxBytes);
      if next.None? { return None; }
      expected := next.value;
    }
    r := Some(expected);
  }

  /** validateRetiredSegmentReadOnly */
  method ValidateRetired(h: Hasher, data: Bytes, topic: Id, partition: u32, e: Catalog.Retired, maxBytes: u64)
    returns (ok: bool)
    ensures ok <==> RetiredAccepted(h, data, topic, partition, e, maxBytes)
  {
    hide DecodeSegmentHeader, Segments.Preflight;
    if |data| < SEGMENT_HEADER_BYTES || |data| != e.bytes { return false; }
    var image := data[..SEGMENT_HEADER_BYTES];
    var header := DecodeSegmentHeader(h.f, image, topic, partition);
    if header.None? { return false; }
    if header.value.base != e.base || header.value.id != e.anchor.id || h.digest(image) != e.anchor.hash {
      return false;
    }
    var next := ValidateSegment(h.f, data, topic, partition, false, e.base, maxBytes);
    ok := next == Some(e.end);
  }

  /** preflightSegmentChain and preflightPartitionDirectory. */
  method PreflightPartition(h: Hasher, files: seq<File>, topic: Id, partition: u32, p: Catalog.Partition,
                            retired: map<u64, Catalog.Retired>)
    returns (ok: bool)
    ensures ok <==> PartitionAccepted(h, files, topic, partition, p, retired)
  {
    hide DecodeSegmentHeader, RetiredAccepted, Chain;
    var bases := retired.Keys;
    while bases != {}
      invariant bases <= retired.Keys
      invariant forall b | b in retired && b !in bases :: b < p.retainedL && retired[b].base == b
    {
      var b :| b in bases;
      if b >= p.retainedL || retired[b].base != b { return false; }
      bases := bases - {b};
    }
    var kept: seq<File> := [];
    for i := 0 to |files|
      invariant kept == Retained(files[..i], p.retainedL)
      invariant KnownRetired(h, files[..i], topic, partition, p.retainedL, p.config.segmentBytes, retired)
    {
      var file := files[i];
      assert files[..i + 1] == files[..i] + [file];
      RetainedSplit(files[..i], [file], p.retainedL);
      assert Retained([file], p.retainedL) == if file.base < p.retainedL then [] else [file];
      if file.base < p.retainedL {
        if file.base !in retired { return false; }
        var known := ValidateRetired(h, file.data, topic, partition, retired[file.base], p.config.segmentBytes);
        if !known { return false; }
      } else {
        kept := kept + [file];
      }
    }
    assert files[..|files|] == files;
    if kept == [] { return false; }
    var end := ValidateChain(h.f, kept, topic, partition, p.retainedL, p.config.segmentBytes);
    if end.None? { return false; }
    ok := AnchorAccepted(h, kept[0].data, topic, partition, p);
  }

  /** preflightTopicDirectory, over the partition directories in any order. */
  method PreflightTopic(h: Hasher, id: Id, d: TopicDir, t: Catalog.Topic) returns (ok: bool)
    ensures ok <==> TopicAccepted(h, id, d, t)
  {
    hide PartitionAccepted, MarkerOf;
    if d.marker.Some? && d.marker.value != MarkerOf(id) { return false; }
    var rest, seen: set<u32> := d.partitions.Keys, {};
    while rest != {}
      invariant rest + seen == d.partitions.Keys && rest !! seen
      invariant forall i | i in seen ::
                  i < |t.partitions|
                  && PartitionAccepted(h, d.partitions[i], id, i, t.partitions[i], Catalog.RetiredOf(t, i))
    {
      var i :| i in rest;
      if i >= |t.partitions| { return false; }
      var accepted := PreflightPartition(h, d.partitions[i], id, i, t.partitions[i], Catalog.RetiredOf(t, i));
      if !accepted { return false; }
      rest, seen := rest - {i}, seen + {i};
    }
    for i := 0 to |t.partitions|
      invariant forall j | 0 <= j < i :: j in seen
    {
      if i !in seen { return false; }
    }
    ok := true;
  }

  /** preflightTopicStorage, over the topic directories in any order. */
  method PreflightStorage(h: Hasher, cat: Catalog.State, dirs: map<Id, TopicDir>) returns (ok: bool)
    ensures ok <==> StorageAccepted(h, cat, dirs)
  {
    hide TopicAccepted, UnclaimedAccepted;
    var rest, seen: set<Id> := dirs.Keys, {};
    ghost var done: set<Id> := {};
    while rest != {}
      invariant rest + done == dirs.Keys && seen <= done
      invariant forall id | id in done && id in cat.topics :: id in seen
      invariant forall id | id in done ::
                  if id in cat.topics then TopicAccepted(h, id, dirs[id], cat.topics[id])
                  else UnclaimedAccepted(id, dirs[id], cat.topics != map[])
      decreases rest
    {
      var id :| id in rest;
      var accepted;
      if id in cat.topics {
        accepted := PreflightTopic(h, id, dirs[id], cat.topics[id]);
        seen := seen + {id};
      } else {
        accepted := PreflightUnclaimed(id, dirs[id], cat.topics != map[]);
      }
      if !accepted { return false; }
      rest, done := rest - {id}, done + {id};
    }
    var listed := cat.topics.Keys;
    while listed != {}
      invariant listed <= cat.topics.Keys
      invariant forall id | id in cat.topics && id !in listed :: id in seen
    {
      var id :| id in listed;
      if id !in seen { return false; }
      listed := listed - {id};
    }
    ok := true;
  }

  /** isRecognizedTopicPreparation, and what is made of a directory without a marker. */
  method PreflightUnclaimed(id: Id, d: TopicDir, owned: bool) returns (ok: bool)
    ensures ok <==> UnclaimedAccepted(id, d, owned)
  {
    if d.marker.None? { return !owned; }
    ok := d.marker.value == MarkerOf(id);
  }
}
