/** Reads and fetches: scanning from an index hint gives exactly what scanning the
    whole log gives. */
module Reads {
  import opened Base
  import opened Wire
  import opened Codec
  import opened Batches
  import opened Segments
  import opened PartitionLog
  import opened Index

  // ------------------------------------------------------------------ records

  function AllRecords(batches: seq<Batch>): seq<Record> {
    if batches == [] then [] else batches[0].records + AllRecords(batches[1..])
  }

  function LogRecords(log: seq<Seg>): seq<Record> {
    if log == [] then [] else AllRecords(log[0].batches) + LogRecords(log[1..])
  }

  /** Record offsets count up by one from `base`. */
  predicate Numbered(records: seq<Record>, base: nat) {
    forall i | 0 <= i < |records| :: records[i].offset == base + i
  }

  lemma {:induction false} EncodedNumbered(f: Format, records: seq<Record>, topic: Id, partition: u32, base: u64,
                                           index: nat)
    requires RecordsBytes(f, records, topic, partition, base, index).Some?
    ensures Numbered(records, base + index)
    decreases records
  {
    hide EncodeRecord;
    if records != [] {
      EncodedNumbered(f, records[1..], topic, partition, base, index + 1);
      forall i | 0 <= i < |records| ensures records[i].offset == base + index + i {
        if i > 0 { assert records[i] == records[1..][i - 1]; }
      }
    }
  }

  lemma BatchNumbered(f: Format, batch: Batch)
    requires EncodeBatch(f, batch).Some?
    ensures Numbered(batch.records, batch.base)
  {
    EncodedNumbered(f, batch.records, batch.topic, batch.partition, batch.base, 0);
  }

  lemma NumberedJoin(a: seq<Record>, b: seq<Record>, base: nat)
    requires Numbered(a, base) && Numbered(b, base + |a|)
    ensures Numbered(a + b, base)
  {
  }

  lemma {:induction false} BatchesNumbered(f: Format, batches: seq<Batch>, topic: Id, partition: u32, base: nat)
    requires Contiguous(f, batches, topic, partition, base)
    ensures Numbered(AllRecords(batches), base) && |AllRecords(batches)| == CountRecords(batches)
    decreases batches
  {
    hide EncodeBatch, Numbered;
    if batches != [] {
      BatchNumbered(f, batches[0]);
      BatchesNumbered(f, batches[1..], topic, partition, base + |batches[0].records|);
      NumberedJoin(batches[0].records, AllRecords(batches[1..]), base);
    } else {
      NumberedNone(base);
    }
  }

  lemma NumberedNone(base: nat)
    ensures Numbered([], base)
  {
  }

  /** The records of a valid log are numbered from its start to its end. */
  lemma {:induction false} LogNumbered(f: Format, log: seq<Seg>, topic: Id, partition: u32)
    requires LogOk(f, log, topic, partition)
    ensures Numbered(LogRecords(log), log[0].header.base)
    ensures log[0].header.base + |LogRecords(log)| == EndOf(Last(log))
    decreases log
  {
    hide Contiguous, Numbered, CountRecords, AllRecords;
    assert SegOk(f, log[0], topic, partition);
    BatchesNumbered(f, log[0].batches, topic, partition, log[0].header.base);
    if |log| == 1 {
      assert log[1..] == [];
      assert AllRecords(log[0].batches) + [] == AllRecords(log[0].batches);
    } else {
      assert Meets(log[0], log[1]);
      LogTail(f, log, topic, partition);
      LogNumbered(f, log[1..], topic, partition);
      NumberedJoin(AllRecords(log[0].batches), LogRecords(log[1..]), log[0].header.base);
    }
  }

  // ------------------------------------------------------------------ feeding

  /** Limits of a fetch; a plain read has no byte limit. */
  datatype Limits = Limits(maxRecords: nat, maxBytes: Option<nat>)

  datatype Status = More | Full | TooSmall

  /** The accumulators of a scan. */
  datatype Progress = Progress(records: seq<Record>, bytes: nat, status: Status)

  /** One record of the scan: skipped below the offset, refused at a limit. */
  function Feed(p: Progress, r: Record, offset: nat, lim: Limits): Progress {
    if r.offset < offset then p
    else if |p.records| >= lim.maxRecords then p.(status := Full)
    else if lim.maxBytes.Some? && RecordSize(r) > lim.maxBytes.value - p.bytes then
      p.(status := if p.records == [] then TooSmall else Full)
    else p.(records := p.records + [r], bytes := p.bytes + RecordSize(r))
  }

  function FeedAll(p: Progress, records: seq<Record>, offset: nat, lim: Limits): Progress
    decreases records
  {
    if !p.status.More? || records == [] then p else FeedAll(Feed(p, records[0], offset, lim), records[1..], offset, lim)
  }

  lemma {:induction false} FeedSplit(p: Progress, a: seq<Record>, b: seq<Record>, offset: nat, lim: Limits)
    ensures FeedAll(p, a + b, offset, lim) == FeedAll(FeedAll(p, a, offset, lim), b, offset, lim)
    decreases a
  {
    hide Feed;
    if a == [] {
      assert a + b == b;
    } else if p.status.More? {
      assert (a + b)[0] == a[0] && (a + b)[1..] == a[1..] + b;
      FeedSplit(Feed(p, a[0], offset, lim), a[1..], b, offset, lim);
    }
  }

  /** Records below the offset change nothing. */
  lemma {:induction false} FeedSkip(p: Progress, records: seq<Record>, base: nat, offset: nat, lim: Limits)
    requires Numbered(records, base) && base + |records| <= offset
    ensures FeedAll(p, records, offset, lim) == p
    decreases records
  {
    if records != [] && p.status.More? {
      assert records[0].offset == base;
      assert Numbered(records[1..], base + 1) by {
        forall i | 0 <= i < |records[1..]|
          ensures records[1..][i].offset == base + 1 + i
        {
          assert records[1..][i] == records[i + 1];
        }
      }
      FeedSkip(p, records[1..], base + 1, offset, lim);
    }
  }

  function Sizes(records: seq<Record>): nat {
    if records == [] then 0 else Sizes(records[..|records| - 1]) + RecordSize(records[|records| - 1])
  }

  predicate Fits(records: seq<Record>, k: nat, lim: Limits) {
    k <= |records| && k <= lim.maxRecords && (lim.maxBytes.Some? ==> Sizes(records[..k]) <= lim.maxBytes.value)
  }

  /** The longest prefix within both limits, and whether anything stopped it. */
  predicate Longest(records: seq<Record>, k: nat, lim: Limits) {
    Fits(records, k, lim) && !Fits(records, k + 1, lim)
  }

  /** What feeding gives: a prefix, measured, as long as the limits allow; a first
      record that is too large is reported instead. */
  ghost predicate Outcome(p: Progress, records: seq<Record>, lim: Limits) {
    var k := |p.records|;
    && k <= |records| && p.records == records[..k] && p.bytes == Sizes(p.records)
    && (p.status.More? <==> Fits(records, |records|, lim))
    && (p.status.More? ==> k == |records|)
    && (p.status.Full? ==> Longest(records, k, lim))
    && (p.status.TooSmall? <==>
        records != [] && lim.maxRecords > 0 && lim.maxBytes.Some? && RecordSize(records[0]) > lim.maxBytes.value)
    && (p.status.TooSmall? ==> k == 0)
  }

  lemma SizesNext(records: seq<Record>, k: nat)
    requires k < |records|
    ensures Sizes(records[..k + 1]) == Sizes(records[..k]) + RecordSize(records[k])
  {
    hide RecordSize;
    assert records[..k + 1][..k] == records[..k];
  }

  lemma {:induction false} SizesMonotone(records: seq<Record>, a: nat, b: nat)
    requires a <= b <= |records|
    ensures Sizes(records[..a]) <= Sizes(records[..b])
    decreases b
  {
    hide RecordSize;
    if a < b {
      SizesMonotone(records, a, b - 1);
      SizesNext(records, b - 1);
    }
  }

  /** Feeding the rest of `records` after its first `k` were taken. */
  lemma {:induction false} FeedMeans(records: seq<Record>, k: nat, base: nat, offset: nat, lim: Limits)
    requires Numbered(records, base) && offset <= base && Fits(records, k, lim)
    ensures Outcome(FeedAll(Progress(records[..k], Sizes(records[..k]), More), records[k..], offset, lim), records, lim)
    decreases |records| - k
  {
    hide RecordSize, Sizes;
    var p := Progress(records[..k], Sizes(records[..k]), More);
    if k == |records| {
      assert records[..k] == records;
      FitsAll(records, lim);
    } else {
      var r := records[k];
      assert records[k..][0] == r && records[k..][1..] == records[k + 1..] && r.offset == base + k;
      SizesNext(records, k);
      var n := Feed(p, r, offset, lim);
      assert records[..k] + [r] == records[..k + 1];
      if n.status.More? {
        FeedMeans(records, k + 1, base, offset, lim);
      } else {
        Stopped(records, k, lim);
        SizesNone(records);
      }
    }
  }

  lemma {:induction false} SizesNone(records: seq<Record>)
    ensures Sizes(records[..0]) == 0
  {
  }

  lemma FitsAll(records: seq<Record>, lim: Limits)
    requires Fits(records, |records|, lim)
    ensures records != [] && lim.maxBytes.Some? ==> RecordSize(records[0]) <= lim.maxBytes.value
  {
    hide RecordSize;
    if records != [] {
      SizesNext(records, 0);
      SizesMonotone(records, 1, |records|);
      assert records[..|records|] == records;
    }
  }

  lemma Stopped(records: seq<Record>, k: nat, lim: Limits)
    requires k < |records| && Fits(records, k, lim)
    requires k >= lim.maxRecords || (lim.maxBytes.Some?
                                     && RecordSize(records[k]) > lim.maxBytes.value - Sizes(records[..k]))
    ensures !Fits(records, k + 1, lim) && !Fits(records, |records|, lim)
    ensures k > 0 && lim.maxBytes.Some? ==> RecordSize(records[0]) <= lim.maxBytes.value
  {
    hide RecordSize;
    SizesNext(records, k);
    SizesMonotone(records, k + 1, |records|);
    SizesNext(records, 0);
    if k > 0 { SizesMonotone(records, 1, k); }
  }

  const START: Progress := Progress([], 0, More)

  /** The records at or above an offset. */
  function Above(records: seq<Record>, base: nat, offset: nat): seq<Record> {
    if offset <= base then records else if offset - base <= |records| then records[offset - base..] else []
  }

  /** A scan of numbered records is the longest allowed prefix of those at or above
      the offset. */
  lemma {:induction false} ScanMeans(records: seq<Record>, base: nat, offset: nat, lim: Limits)
    requires Numbered(records, base) && base <= offset <= base + |records|
    ensures Outcome(FeedAll(START, records, offset, lim), Above(records, base, offset), lim)
  {
    var n := offset - base;
    var above := Above(records, base, offset);
    assert records == records[..n] + records[n..] && above == records[n..];
    FeedSplit(START, records[..n], records[n..], offset, lim);
    FeedSkip(START, records[..n], base, offset, lim);
    assert above[0..] == above && above[..0] == [];
    FeedMeans(above, 0, offset, offset, lim);
  }

  // -------------------------------------------------------------------- bytes

  /** The scan of one segment's bytes from a batch boundary on. */
  function ScanBytes(f: Format, data: Bytes, topic: Id, partition: u32, position: nat, offset: nat, lim: Limits,
                     p: Progress)
    : Option<Progress>
    requires position <= |data|
    decreases |data| - position
  {
    if !p.status.More? || position == |data| then Some(p)
    else
      var rest := data[position..];
      if |rest| < BATCH_HEADER_BYTES then None
      else
        var length := U32(rest[8..12]);
        if length < BATCH_HEADER_BYTES + BATCH_TRAILER_BYTES || length > |rest| then None
        else match DecodeBatch(f, rest[..length], topic, partition)
          case None => None
          case Some(batch) =>
            ScanBytes(f, data, topic, partition, position + length, offset, lim, FeedAll(p, batch.records, offset, lim))
  }

  lemma {:induction false} ScanWrittenBytes(f: Format, data: Bytes, batches: seq<Batch>, topic: Id, partition: u32,
                                            base: nat, position: nat, offset: nat, lim: Limits, p: Progress)
    requires Contiguous(f, batches, topic, partition, base)
    requires position <= |data| && data[position..] == BatchesBytes(f, batches)
    ensures ScanBytes(f, data, topic, partition, position, offset, lim, p) ==
            Some(FeedAll(p, AllRecords(batches), offset, lim))
    decreases batches
  {
    hide EncodeBatch, DecodeBatch, FeedAll;
    if batches == [] {
      FedNone(p, offset, lim);
    } else if !p.status.More? {
      FedStopped(p, AllRecords(batches), offset, lim);
    } else {
      var e := EncodeBatch(f, batches[0]).value;
      var rest := data[position..];
      EncodedShape(f, batches[0]);
      BatchRoundTrip(f, batches[0]);
      DecodedShape(f, e, topic, partition);
      assert rest[..|e|] == e && e[..|e|] == e;
      SameFields(rest, e, |e|);
      assert data[position + |e|..] == rest[|e|..];
      FeedSplit(p, batches[0].records, AllRecords(batches[1..]), offset, lim);
      ScanWrittenBytes(f, data, batches[1..], topic, partition, base + |batches[0].records|, position + |e|, offset,
                       lim, FeedAll(p, batches[0].records, offset, lim));
    }
  }

  lemma {:induction false} FedNone(p: Progress, offset: nat, lim: Limits)
    ensures FeedAll(p, [], offset, lim) == p
  {
  }

  lemma {:induction false} FedStopped(p: Progress, records: seq<Record>, offset: nat, lim: Limits)
    requires !p.status.More?
    ensures FeedAll(p, records, offset, lim) == p
  {
  }

  // -------------------------------------------------------------------- hints

  /** Where an index says to start: its last entry at or below the offset. */
  function HintFrom(entries: seq<Entry>, offset: nat, position: nat): nat
    decreases entries
  {
    if entries == [] || entries[0].base > offset then position else HintFrom(entries[1..], offset, entries[0].position)
  }

  lemma {:induction false} HintNamed(entries: seq<Entry>, infos: seq<BatchInfo>, offset: nat, position: nat)
    requires forall i | 0 <= i < |entries| :: Named(infos, entries[i])
    ensures var h := HintFrom(entries, offset, position);
            h == position || exists j :: 0 <= j < |infos| && infos[j].position == h && infos[j].base <= offset
    decreases entries
  {
    if entries != [] && entries[0].base <= offset {
      assert Named(infos, entries[0]);
      var j :| Names(infos, j, entries[0]);
      assert infos[j].position == entries[0].position && infos[j].base <= offset;
      HintNamed(entries[1..], infos, offset, entries[0].position);
    }
  }

  /** Where the `j`th batch of a segment lies. */
  lemma {:induction false} InfoAt(f: Format, batches: seq<Batch>, s: Scanned, topic: Id, partition: u32, base: nat,
                                  j: nat)
    requires Contiguous(f, batches, topic, partition, base) && j < |batches|
    ensures var n := Folded(f, batches, s);
            && |n.batches| == |s.batches| + |batches| && n.batches[..|s.batches|] == s.batches
            && n.batches[|s.batches| + j].position == s.position + |BatchesBytes(f, batches[..j])|
            && n.batches[|s.batches| + j].base == base + CountRecords(batches[..j])
            && n.batches[|s.batches| + j].records == |batches[j].records|
    decreases batches
  {
    hide EncodeBatch, MaxTimestamp;
    var t := Next(f, s, batches[0]);
    EncodedShape(f, batches[0]);
    if |batches| == 1 {
      assert batches[1..] == [];
    } else {
      InfoAt(f, batches[1..], t, topic, partition, base + |batches[0].records|, if j == 0 then 0 else j - 1);
      var n := Folded(f, batches, s);
      assert n.batches[..|s.batches|] == n.batches[..|t.batches|][..|s.batches|];
      assert n.batches[|s.batches|] == n.batches[..|t.batches|][|s.batches|];
    }
    if j > 0 {
      assert batches[..j][0] == batches[0] && batches[..j][1..] == batches[1..][..j - 1];
    }
  }

  lemma Heads(batches: seq<Batch>, j: nat)
    requires 0 < j <= |batches|
    ensures batches[..j] != [] && batches[..j][0] == batches[0] && batches[..j][1..] == batches[1..][..j - 1]
    ensures batches[1..][j - 1..] == batches[j..]
  {
  }

  lemma {:induction false} ContiguousSplit(f: Format, batches: seq<Batch>, topic: Id, partition: u32, base: nat, j: nat)
    requires Contiguous(f, batches, topic, partition, base) && j <= |batches|
    ensures Contiguous(f, batches[..j], topic, partition, base)
    ensures Contiguous(f, batches[j..], topic, partition, base + CountRecords(batches[..j]))
    decreases batches
  {
    hide EncodeBatch;
    if j == 0 {
      assert batches[..0] == [] && batches[0..] == batches;
    } else {
      ContiguousSplit(f, batches[1..], topic, partition, base + |batches[0].records|, j - 1);
      Heads(batches, j);
    }
  }

  lemma {:induction false} BytesSplit(f: Format, batches: seq<Batch>, j: nat)
    requires j <= |batches|
    ensures BatchesBytes(f, batches) == BatchesBytes(f, batches[..j]) + BatchesBytes(f, batches[j..])
    decreases batches
  {
    hide EncodeBatch;
    if j == 0 {
      assert batches[..0] == [] && batches[0..] == batches;
    } else {
      BytesSplit(f, batches[1..], j - 1);
      Heads(batches, j);
    }
  }

  lemma {:induction false} RecordsSplit(batches: seq<Batch>, j: nat)
    requires j <= |batches|
    ensures AllRecords(batches) == AllRecords(batches[..j]) + AllRecords(batches[j..])
    decreases batches
  {
    if j == 0 {
      assert batches[..0] == [] && batches[0..] == batches;
    } else {
      RecordsSplit(batches[1..], j - 1);
      Heads(batches, j);
    }
  }

  /** Reading a segment from the boundary of its `j`th batch, when everything before
      it is below the offset, is reading all of it. */
  lemma {:induction false} ScanFromBatch(f: Format, seg: Seg, topic: Id, partition: u32, j: nat, offset: nat,
                                         lim: Limits, p: Progress)
    requires SegOk(f, seg, topic, partition) && j <= |seg.batches|
    requires j > 0 ==> seg.header.base + CountRecords(seg.batches[..j]) <= offset
    ensures SEGMENT_HEADER_BYTES + |BatchesBytes(f, seg.batches[..j])| <= |SegBytes(f, seg)|
    ensures ScanBytes(f, SegBytes(f, seg), topic, partition, SEGMENT_HEADER_BYTES + |BatchesBytes(f, seg.batches[..j])|,
                      offset, lim, p) ==
            Some(FeedAll(p, AllRecords(seg.batches), offset, lim))
  {
    hide ScanBytes, FeedAll, Contiguous, EncodeBatch, HeaderImage, BatchesBytes, AllRecords, CountRecords;
    var base, batches := seg.header.base, seg.batches;
    var data := SegBytes(f, seg);
    ContiguousSplit(f, batches, topic, partition, base, j);
    BytesSplit(f, batches, j);
    RecordsSplit(batches, j);
    var front, back := batches[..j], batches[j..];
    var position := 72 + |BatchesBytes(f, front)|;
    assert data[position..] == BatchesBytes(f, back);
    ScanWrittenBytes(f, data, back, topic, partition, base + CountRecords(front), position, offset, lim, p);
    FeedSplit(p, AllRecords(front), AllRecords(back), offset, lim);
    BatchesNumbered(f, front, topic, partition, base);
    if j == 0 {
      assert front == [];
      NoRecords();
      FedNone(p, offset, lim);
    } else {
      FeedSkip(p, AllRecords(front), base, offset, lim);
    }
  }

  lemma NoRecords()
    ensures AllRecords([]) == []
  {
  }

  /** Any valid index, sampled or lagging, leads to the same result as no index. */
  lemma {:induction false} HintedScan(f: Format, seg: Seg, entries: seq<Entry>, topic: Id, partition: u32, offset: nat,
                                      lim: Limits, p: Progress)
    requires SegOk(f, seg, topic, partition) && ValidOffsets(entries, View(f, seg).batches)
    ensures HintFrom(entries, offset, SEGMENT_HEADER_BYTES) <= |SegBytes(f, seg)|
    ensures ScanBytes(f, SegBytes(f, seg), topic, partition, HintFrom(entries, offset, SEGMENT_HEADER_BYTES), offset,
                      lim, p) ==
            Some(FeedAll(p, AllRecords(seg.batches), offset, lim))
  {
    hide ScanBytes, FeedAll, Contiguous, EncodeBatch, SegBytes, BatchesBytes, AllRecords, CountRecords, Folded,
         HintFrom;
    var infos := View(f, seg).batches;
    var h := HintFrom(entries, offset, SEGMENT_HEADER_BYTES);
    HintNamed(entries, infos, offset, SEGMENT_HEADER_BYTES);
    ScanFromBatch(f, seg, topic, partition, 0, offset, lim, p);
    NoBytes(f, seg.batches);
    if h != SEGMENT_HEADER_BYTES {
      var j :| 0 <= j < |infos| && infos[j].position == h && infos[j].base <= offset;
      InfoCount(f, seg, topic, partition);
      InfoAt(f, seg.batches, StartOf(seg.header), topic, partition, seg.header.base, j);
      ScanFromBatch(f, seg, topic, partition, j, offset, lim, p);
    }
  }

  lemma {:induction false} NoBytes(f: Format, batches: seq<Batch>)
    ensures BatchesBytes(f, batches[..0]) == []
  {
  }

  lemma {:induction false} InfoCount(f: Format, seg: Seg, topic: Id, partition: u32)
    requires SegOk(f, seg, topic, partition)
    ensures |View(f, seg).batches| == |seg.batches|
  {
    hide Contiguous;
    if seg.batches != [] {
      InfoAt(f, seg.batches, StartOf(seg.header), topic, partition, seg.header.base, 0);
    }
  }

  // ---------------------------------------------------------------- whole log

  /** A fetch over the segments: those that end at or below the offset are passed
      over, the others are scanned from their index hints. */
  function FetchLog(f: Format, log: seq<Seg>, indexes: seq<seq<Entry>>, topic: Id, partition: u32, offset: nat,
                    lim: Limits, p: Progress)
    : Option<Progress>
    requires |indexes| == |log|
    requires forall i | 0 <= i < |log| :: HintFrom(indexes[i], offset, SEGMENT_HEADER_BYTES) <= |SegBytes(f, log[i])|
    decreases log
  {
    if log == [] || !p.status.More? then Some(p)
    else if offset >= EndOf(log[0]) then FetchLog(f, log[1..], indexes[1..], topic, partition, offset, lim, p)
    else match ScanBytes(f, SegBytes(f, log[0]), topic, partition, HintFrom(indexes[0], offset, SEGMENT_HEADER_BYTES),
                         offset, lim, p)
      case None => None
      case Some(n) => FetchLog(f, log[1..], indexes[1..], topic, partition, offset, lim, n)
  }

  predicate Boundaries(f: Format, log: seq<Seg>, indexes: seq<seq<Entry>>, offset: nat) {
    && |indexes| == |log|
    && forall i | 0 <= i < |log| :: HintFrom(indexes[i], offset, SEGMENT_HEADER_BYTES) <= |SegBytes(f, log[i])|
  }

  ghost predicate Indexed(f: Format, log: seq<Seg>, indexes: seq<seq<Entry>>) {
    |indexes| == |log| && forall i | 0 <= i < |log| :: ValidOffsets(indexes[i], View(f, log[i]).batches)
  }

  lemma {:induction false} FetchIsFeed(f: Format, log: seq<Seg>, indexes: seq<seq<Entry>>, topic: Id, partition: u32,
                                       offset: nat, lim: Limits, p: Progress)
    requires forall i | 0 <= i < |log| :: SegOk(f, log[i], topic, partition)
    requires Indexed(f, log, indexes) && Boundaries(f, log, indexes, offset)
    ensures FetchLog(f, log, indexes, topic, partition, offset, lim, p) ==
            Some(FeedAll(p, LogRecords(log), offset, lim))
    decreases log
  {
    hide ScanBytes, FeedAll, SegOk, SegBytes, AllRecords, View, HintFrom, ValidOffsets;
    if log == [] {
      FedNone(p, offset, lim);
    } else if !p.status.More? {
      FedStopped(p, LogRecords(log), offset, lim);
    } else {
      FeedSplit(p, AllRecords(log[0].batches), LogRecords(log[1..]), offset, lim);
      if offset >= EndOf(log[0]) {
        SegmentBelow(f, log[0], topic, partition, offset, lim, p);
        FetchIsFeed(f, log[1..], indexes[1..], topic, partition, offset, lim, p);
      } else {
        HintedScan(f, log[0], indexes[0], topic, partition, offset, lim, p);
        FetchIsFeed(f, log[1..], indexes[1..], topic, partition, offset, lim,
                    FeedAll(p, AllRecords(log[0].batches), offset, lim));
      }
    }
  }

  lemma {:induction false} SegmentBelow(f: Format, seg: Seg, topic: Id, partition: u32, offset: nat, lim: Limits,
                                        p: Progress)
    requires SegOk(f, seg, topic, partition) && offset >= EndOf(seg)
    ensures FeedAll(p, AllRecords(seg.batches), offset, lim) == p
  {
    BatchesNumbered(f, seg.batches, topic, partition, seg.header.base);
    FeedSkip(p, AllRecords(seg.batches), seg.header.base, offset, lim);
  }

  /** Index-accelerated reads equal the full scan: whatever valid indexes the
      segments have, the result is exactly the longest prefix of the records at or
      above the offset that the limits allow. */
  lemma {:induction false} FetchMeans(f: Format, log: seq<Seg>, indexes: seq<seq<Entry>>, topic: Id, partition: u32,
                                      offset: nat, lim: Limits)
    requires LogOk(f, log, topic, partition) && Indexed(f, log, indexes)
    requires log[0].header.base <= offset <= EndOf(Last(log))
    ensures Boundaries(f, log, indexes, offset)
    ensures FetchLog(f, log, indexes, topic, partition, offset, lim, START).Some?
    ensures Outcome(FetchLog(f, log, indexes, topic, partition, offset, lim, START).value,
                    Above(LogRecords(log), log[0].header.base, offset), lim)
  {
    hide SegOk, Outcome, Numbered, FeedAll, LogRecords, FetchLog, Above, HintFrom, SegBytes, ValidOffsets, View, EndOf;
    forall i | 0 <= i < |log| ensures HintFrom(indexes[i], offset, SEGMENT_HEADER_BYTES) <= |SegBytes(f, log[i])| {
      HintedScan(f, log[i], indexes[i], topic, partition, offset, lim, START);
    }
    LogNumbered(f, log, topic, partition);
    FetchIsFeed(f, log, indexes, topic, partition, offset, lim, START);
    ScanMeans(LogRecords(log), log[0].header.base, offset, lim);
  }

  lemma {:induction false} ResultNext(p: Progress, records: seq<Record>, offset: nat, lim: Limits)
    requires Outcome(p, records, lim) && Numbered(records, offset) && p.records != []
    ensures p.records[|p.records| - 1].offset + 1 == offset + |p.records| && Numbered(p.records, offset)
  {
  }

  // ------------------------------------------------------- indexes of segments

  lemma {:induction false} PrefixGrows(f: Format, batches: seq<Batch>, topic: Id, partition: u32, base: nat, i: nat,
                                       j: nat)
    requires Contiguous(f, batches, topic, partition, base) && i < j <= |batches|
    ensures |BatchesBytes(f, batches[..i])| < |BatchesBytes(f, batches[..j])|
    ensures CountRecords(batches[..i]) < CountRecords(batches[..j])
    decreases batches
  {
    hide EncodeBatch;
    EncodedShape(f, batches[0]);
    assert batches[..j][0] == batches[0] && batches[..j][1..] == batches[1..][..j - 1];
    if i > 0 {
      assert batches[..i][0] == batches[0] && batches[..i][1..] == batches[1..][..i - 1];
      PrefixGrows(f, batches[1..], topic, partition, base + |batches[0].records|, i - 1, j - 1);
    }
  }

  lemma {:induction false} BatchBase(f: Format, batches: seq<Batch>, topic: Id, partition: u32, base: nat, j: nat)
    requires Contiguous(f, batches, topic, partition, base) && j < |batches|
    ensures base + CountRecords(batches[..j]) == batches[j].base
            && ValidOffsetRange(batches[j].base, |batches[j].records|)
    decreases batches
  {
    hide EncodeBatch;
    EncodedShape(f, batches[0]);
    if j > 0 {
      assert batches[..j][0] == batches[0] && batches[..j][1..] == batches[1..][..j - 1];
      BatchBase(f, batches[1..], topic, partition, base + |batches[0].records|, j - 1);
    }
  }

  /** A segment's batches rise, so every index sampled from them is valid for them. */
  lemma {:induction false} ViewRising(f: Format, seg: Seg, topic: Id, partition: u32)
    requires SegOk(f, seg, topic, partition)
    ensures Rising(View(f, seg).batches)
  {
    hide Contiguous, BatchesBytes, CountRecords, Folded;
    var infos, base := View(f, seg).batches, seg.header.base;
    InfoCount(f, seg, topic, partition);
    forall j | 0 <= j < |infos| ensures ValidOffsetRange(infos[j].base, infos[j].records) {
      InfoAt(f, seg.batches, StartOf(seg.header), topic, partition, base, j);
      BatchBase(f, seg.batches, topic, partition, base, j);
    }
    forall i, j | 0 <= i < j < |infos| ensures infos[i].base < infos[j].base && infos[i].position < infos[j].position {
      InfoAt(f, seg.batches, StartOf(seg.header), topic, partition, base, i);
      InfoAt(f, seg.batches, StartOf(seg.header), topic, partition, base, j);
      PrefixGrows(f, seg.batches, topic, partition, base, i, j);
    }
  }
}
