/** Sparse indexes: sampled from a segment's batches, validated against them. */
module Index {
  import opened Base
  import opened Batches
  import opened Segments

  const INDEX_HEADER_BYTES: int := 128
  const MAX_INDEX_FILE_BYTES: int := 64 * 1024 * 1024
  const DEFAULT_INDEX_STRIDE: nat := 4096
  const MAX_OFFSET_ENTRIES: nat := (MAX_INDEX_FILE_BYTES - INDEX_HEADER_BYTES) / 32
  const MAX_TIME_ENTRIES: nat := (MAX_INDEX_FILE_BYTES - INDEX_HEADER_BYTES) / 40

  datatype Entry = Entry(base: u64, position: nat, bytes: u32, records: u32)

  datatype TimeEntry = TimeEntry(prefixMax: i64, entry: Entry)

  /** Batches of a segment: bases and positions rise, ranges are legal. */
  predicate Rising(batches: seq<BatchInfo>) {
    && (forall i, j | 0 <= i < j < |batches| ::
        batches[i].base < batches[j].base && batches[i].position < batches[j].position)
    && (forall i | 0 <= i < |batches| :: ValidOffsetRange(batches[i].base, batches[i].records))
  }

  function EntryOf(b: BatchInfo): Entry { Entry(b.base, b.position, b.bytes, b.records) }

  predicate Names(batches: seq<BatchInfo>, j: int, e: Entry) {
    0 <= j < |batches| && EntryOf(batches[j]) == e
  }

  ghost predicate Named(batches: seq<BatchInfo>, e: Entry) { exists j :: Names(batches, j, e) }

  predicate Ordered(entries: seq<Entry>) {
    forall i, j | 0 <= i < j < |entries| ::
        entries[i].base < entries[j].base && entries[i].position < entries[j].position
  }

  /** Every entry names a batch, in order: any such index, however sparse or stale. */
  ghost predicate ValidOffsets(entries: seq<Entry>, batches: seq<BatchInfo>) {
    && Ordered(entries)
    && (forall i | 0 <= i < |entries| :: Named(batches, entries[i]))
  }

  function RunningMax(batches: seq<BatchInfo>, n: nat): i64
    requires n <= |batches|
  {
    if n == 0 then MIN_INT64
    else
      var m := RunningMax(batches, n - 1);
      if batches[n - 1].maxTime > m then batches[n - 1].maxTime else m
  }

  /** The entry also carries the newest timestamp up to its batch. */
  predicate NamesTime(batches: seq<BatchInfo>, j: int, e: TimeEntry) {
    Names(batches, j, e.entry) && e.prefixMax == RunningMax(batches, j + 1)
  }

  ghost predicate NamedTime(batches: seq<BatchInfo>, e: TimeEntry) { exists j :: NamesTime(batches, j, e) }

  function Plain(entries: seq<TimeEntry>): seq<Entry> {
    seq(|entries|, i requires 0 <= i < |entries| => entries[i].entry)
  }

  ghost predicate ValidTimes(entries: seq<TimeEntry>, batches: seq<BatchInfo>) {
    && Ordered(Plain(entries))
    && (forall i | 0 <= i < |entries| :: NamedTime(batches, entries[i]))
  }

  // --------------------------------------------------------------- validation

  ghost predicate IsMap(batches: seq<BatchInfo>, m: map<u64, BatchInfo>) {
    && (forall k: u64 | k in m :: InBatches(batches, k))
    && (forall j | 0 <= j < |batches| :: batches[j].base in m && m[batches[j].base] == batches[j])
  }

  predicate InBatches(batches: seq<BatchInfo>, base: u64) {
    exists j :: 0 <= j < |batches| && batches[j].base == base
  }

  /** batchMap */
  method BatchMap(batches: seq<BatchInfo>) returns (m: map<u64, BatchInfo>)
    requires Rising(batches)
    ensures IsMap(batches, m)
  {
    hide ValidOffsetRange;
    m := map[];
    for i := 0 to |batches|
      invariant forall k: u64 | k in m :: InBatches(batches, k)
      invariant forall j | 0 <= j < i :: batches[j].base in m && m[batches[j].base] == batches[j]
    {
      m := m[batches[i].base := batches[i]];
    }
  }

  lemma NamedOnce(batches: seq<BatchInfo>, m: map<u64, BatchInfo>, e: Entry)
    requires Rising(batches)
    requires IsMap(batches, m)
    ensures (e.base in m && EntryOf(m[e.base]) == e) <==> Named(batches, e)
    ensures e.base in m ==> ValidOffsetRange(m[e.base].base, m[e.base].records)
  {
    if e.base in m {
      var j :| 0 <= j < |batches| && batches[j].base == e.base;
      assert m[e.base] == batches[j];
      if EntryOf(m[e.base]) == e { assert Names(batches, j, e); }
    }
    if j :| Names(batches, j, e) { assert batches[j].base == e.base; }
  }

  predicate OrderedTo(entries: seq<Entry>, i: nat)
    requires i <= |entries|
  {
    forall a, b | 0 <= a < b < i :: entries[a].base < entries[b].base && entries[a].position < entries[b].position
  }

  lemma OrderedStep(entries: seq<Entry>, i: nat)
    requires i < |entries| && OrderedTo(entries, i)
    requires i > 0 ==> entries[i - 1].base < entries[i].base && entries[i - 1].position < entries[i].position
    ensures OrderedTo(entries, i + 1)
  {
    forall a | 0 <= a < i ensures entries[a].base < entries[i].base && entries[a].position < entries[i].position {
      assert a < i - 1 ==> entries[a].base < entries[i - 1].base && entries[a].position < entries[i - 1].position;
    }
  }

  /** validateOffsetIndex, on decoded entries: accepts exactly the valid indexes. */
  method ValidateOffsets(entries: seq<Entry>, batches: seq<BatchInfo>) returns (ok: bool)
    requires Rising(batches)
    ensures ok <==> ValidOffsets(entries, batches)
  {
    hide ValidOffsetRange;
    var m := BatchMap(batches);
    for i := 0 to |entries|
      invariant OrderedTo(entries, i)
      invariant forall a | 0 <= a < i :: Named(batches, entries[a])
    {
      var e := entries[i];
      NamedOnce(batches, m, e);
      if e.base !in m || EntryOf(m[e.base]) != e || !ValidOffsetRange(e.base, e.records) { return false; }
      if i > 0 && (e.base <= entries[i - 1].base || e.position <= entries[i - 1].position) { return false; }
      OrderedStep(entries, i);
    }
    ok := true;
  }

  /** The time index's batch cursor: folds every batch up to `base` into the max. */
  method AdvanceCursor(batches: seq<BatchInfo>, base: u64, cursor: nat, prefixMax: i64) returns (c: nat, m: i64)
    requires Rising(batches) && cursor <= |batches| && prefixMax == RunningMax(batches, cursor)
    ensures cursor <= c <= |batches| && m == RunningMax(batches, c)
    ensures (forall i | cursor <= i < c :: batches[i].base <= base) && (c < |batches| ==> batches[c].base > base)
  {
    hide ValidOffsetRange;
    c, m := cursor, prefixMax;
    while c < |batches| && batches[c].base <= base
      invariant cursor <= c <= |batches| && m == RunningMax(batches, c)
      invariant forall i | cursor <= i < c :: batches[i].base <= base
    {
      if batches[c].maxTime > m { m := batches[c].maxTime; }
      c := c + 1;
    }
  }

  lemma {:induction false} RunningMaxGrows(batches: seq<BatchInfo>, a: nat, b: nat)
    requires a <= b <= |batches|
    ensures RunningMax(batches, a) <= RunningMax(batches, b)
    decreases b
  {
    if a < b { RunningMaxGrows(batches, a, b - 1); }
  }

  /** The cursor stands right after the batch the last entry named. */
  predicate CursorAt(entries: seq<TimeEntry>, i: nat, batches: seq<BatchInfo>, cursor: nat)
    requires i <= |entries|
  {
    if i == 0 then cursor == 0 else 0 < cursor <= |batches| && NamesTime(batches, cursor - 1, entries[i - 1])
  }

  /** validateTimeIndex, on decoded entries. */
  method ValidateTimes(entries: seq<TimeEntry>, batches: seq<BatchInfo>) returns (ok: bool)
    requires Rising(batches)
    ensures ok <==> ValidTimes(entries, batches)
  {
    hide ValidOffsetRange, RunningMax, Rising, IsMap, NamedTime, Named, OrderedTo, CursorAt;
    var m := BatchMap(batches);
    TimesBegin(entries, batches);
    var prefixMax, cursor := MIN_INT64, 0;
    ghost var plain := Plain(entries);
    for i := 0 to |entries|
      invariant OrderedTo(plain, i) && cursor <= |batches| && prefixMax == RunningMax(batches, cursor)
      invariant CursorAt(entries, i, batches, cursor)
      invariant forall a | 0 <= a < i :: NamedTime(batches, entries[a])
    {
      var e := entries[i].entry;
      NamedOnce(batches, m, e);
      assert plain[i] == e;
      if e.base !in m || EntryOf(m[e.base]) != e || !ValidOffsetRange(e.base, e.records) {
        NotNamed(entries, batches, i);
        return false;
      }
      if i > 0 && (e.base <= entries[i - 1].entry.base || e.position <= entries[i - 1].entry.position) {
        assert plain[i - 1] == entries[i - 1].entry;
        TimesUnordered(entries, batches, i);
        return false;
      }
      OrderedStep(plain, i);
      var c, newest := AdvanceCursor(batches, e.base, cursor, prefixMax);
      CursorNames(entries, i, batches, cursor, c);
      if entries[i].prefixMax != newest { return false; }
      if i > 0 { MaximaRise(entries, i, batches, cursor, c); }
      if i > 0 && entries[i].prefixMax < entries[i - 1].prefixMax { return false; }
      CursorNext(entries, i, batches, c);
      cursor, prefixMax := c, newest;
    }
    TimesEnd(entries, batches);
    ok := true;
  }

  lemma {:induction false} TimesBegin(entries: seq<TimeEntry>, batches: seq<BatchInfo>)
    ensures RunningMax(batches, 0) == MIN_INT64 && OrderedTo(Plain(entries), 0) && CursorAt(entries, 0, batches, 0)
  {
  }

  lemma TimesEnd(entries: seq<TimeEntry>, batches: seq<BatchInfo>)
    requires OrderedTo(Plain(entries), |entries|)
    ensures Ordered(Plain(entries))
  {
  }

  lemma TimesUnordered(entries: seq<TimeEntry>, batches: seq<BatchInfo>, i: nat)
    requires 0 < i < |entries|
    requires entries[i].entry.base <= entries[i - 1].entry.base
             || entries[i].entry.position <= entries[i - 1].entry.position
    ensures !ValidTimes(entries, batches)
  {
    hide NamedTime;
    var plain := Plain(entries);
    assert plain[i - 1] == entries[i - 1].entry && plain[i] == entries[i].entry;
  }

  lemma {:induction false} CursorNext(entries: seq<TimeEntry>, i: nat, batches: seq<BatchInfo>, c: nat)
    requires i < |entries| && 0 < c <= |batches| && Names(batches, c - 1, entries[i].entry)
    requires entries[i].prefixMax == RunningMax(batches, c)
    ensures CursorAt(entries, i + 1, batches, c) && NamedTime(batches, entries[i])
  {
    hide RunningMax;
    assert NamesTime(batches, c - 1, entries[i]);
  }

  /** Running maxima never fall, so this part of the check never fails. */
  lemma {:induction false} MaximaRise(entries: seq<TimeEntry>, i: nat, batches: seq<BatchInfo>, cursor: nat, c: nat)
    requires 0 < i < |entries| && CursorAt(entries, i, batches, cursor) && cursor <= c <= |batches|
    ensures entries[i - 1].prefixMax <= RunningMax(batches, c)
  {
    RunningMaxGrows(batches, cursor, c);
  }

  lemma NotNamed(entries: seq<TimeEntry>, batches: seq<BatchInfo>, i: nat)
    requires i < |entries| && !Named(batches, entries[i].entry)
    ensures !ValidTimes(entries, batches)
  {
    forall j ensures !NamesTime(batches, j, entries[i]) { assert !Names(batches, j, entries[i].entry); }
  }

  /** After advancing, the cursor is past exactly the batch this entry names. */
  lemma {:induction false} CursorNames(entries: seq<TimeEntry>, i: nat, batches: seq<BatchInfo>, cursor: nat, c: nat)
    requires Rising(batches) && i < |entries| && CursorAt(entries, i, batches, cursor) && cursor <= c <= |batches|
    requires Named(batches, entries[i].entry)
    requires i > 0 ==> entries[i - 1].entry.base < entries[i].entry.base
    requires forall k | cursor <= k < c :: batches[k].base <= entries[i].entry.base
    requires c < |batches| ==> batches[c].base > entries[i].entry.base
    ensures c > 0 && Names(batches, c - 1, entries[i].entry)
    ensures NamedTime(batches, entries[i]) <==> entries[i].prefixMax == RunningMax(batches, c)
  {
    hide ValidOffsetRange, RunningMax;
    var j :| Names(batches, j, entries[i].entry);
    assert cursor <= j;
    assert j < c;
    assert batches[c - 1].base <= entries[i].entry.base;
    assert j == c - 1;
    if k :| NamesTime(batches, k, entries[i]) { assert k == j; }
    if entries[i].prefixMax == RunningMax(batches, c) { assert NamesTime(batches, j, entries[i]); }
  }

  // ----------------------------------------------------------------- sampling

  /** The entry names a batch before the `n`th. */
  ghost predicate NamedBefore(batches: seq<BatchInfo>, e: Entry, n: nat) {
    exists j :: Names(batches, j, e) && j < n
  }

  ghost predicate NamedTimeBefore(batches: seq<BatchInfo>, e: TimeEntry, n: nat) {
    exists j :: NamesTime(batches, j, e) && j < n
  }

  ghost predicate OffsetsTo(entries: seq<Entry>, batches: seq<BatchInfo>, n: nat) {
    Ordered(entries) && forall a | 0 <= a < |entries| :: NamedBefore(batches, entries[a], n)
  }

  ghost predicate TimesTo(entries: seq<TimeEntry>, batches: seq<BatchInfo>, n: nat) {
    Ordered(Plain(entries)) && forall a | 0 <= a < |entries| :: NamedTimeBefore(batches, entries[a], n)
  }

  lemma OffsetsStep(entries: seq<Entry>, batches: seq<BatchInfo>, n: nat)
    requires Rising(batches) && n < |batches| && OffsetsTo(entries, batches, n)
    ensures OffsetsTo(entries, batches, n + 1) && OffsetsTo(entries + [EntryOf(batches[n])], batches, n + 1)
  {
    hide ValidOffsetRange;
    var more := entries + [EntryOf(batches[n])];
    forall a | 0 <= a < |entries|
      ensures NamedBefore(batches, entries[a], n + 1)
      ensures entries[a].base < batches[n].base && entries[a].position < batches[n].position
    {
      var j :| Names(batches, j, entries[a]) && j < n;
      assert Names(batches, j, entries[a]) && j < n + 1;
    }
    assert Names(batches, n, more[|entries|]);
    assert NamedBefore(batches, more[|entries|], n + 1);
  }

  lemma {:induction false} TimesStep(entries: seq<TimeEntry>, batches: seq<BatchInfo>, n: nat, e: TimeEntry)
    requires Rising(batches) && n < |batches| && TimesTo(entries, batches, n)
    requires e == TimeEntry(RunningMax(batches, n + 1), EntryOf(batches[n]))
    ensures TimesTo(entries, batches, n + 1) && TimesTo(entries + [e], batches, n + 1)
  {
    hide ValidOffsetRange, RunningMax;
    var more := entries + [e];
    var plain := Plain(entries);
    forall a | 0 <= a < |entries|
      ensures NamedTimeBefore(batches, entries[a], n + 1)
      ensures plain[a].base < batches[n].base && plain[a].position < batches[n].position
    {
      var j :| NamesTime(batches, j, entries[a]) && j < n;
      assert NamesTime(batches, j, entries[a]) && j < n + 1;
    }
    assert Plain(more) == plain + [e.entry];
    assert NamesTime(batches, n, more[|entries|]);
    assert NamedTimeBefore(batches, more[|entries|], n + 1);
  }

  /** Some entry stands at most a stride before this position. */
  ghost predicate Covered(entries: seq<Entry>, position: nat, stride: nat) {
    exists a :: 0 <= a < |entries| && entries[a].position <= position < entries[a].position + stride
  }

  lemma CoveredMore(entries: seq<Entry>, e: Entry, position: nat, stride: nat)
    requires Covered(entries, position, stride)
    ensures Covered(entries + [e], position, stride)
  {
    var a :| 0 <= a < |entries| && entries[a].position <= position < entries[a].position + stride;
    assert (entries + [e])[a] == entries[a];
  }

  /** sampleBatchIndexes: the first batch and then one per stride. Both indexes are
      valid for the batches, and unless the file limit cut it short every batch
      lies within a stride of an entry. */
  method Sample(batches: seq<BatchInfo>, requested: nat) returns (offsets: seq<Entry>, times: seq<TimeEntry>)
    requires Rising(batches)
    ensures ValidOffsets(offsets, batches) && ValidTimes(times, batches)
    ensures |offsets| <= MAX_OFFSET_ENTRIES && |times| <= MAX_TIME_ENTRIES
    ensures var stride := if requested == 0 then DEFAULT_INDEX_STRIDE else requested;
            |offsets| < MAX_OFFSET_ENTRIES ==> forall i | 0 <= i < |batches| ::
                Covered(offsets, batches[i].position, stride)
  {
    hide ValidOffsetRange, Rising, OffsetsTo, TimesTo, Covered, Names;
    var stride := if requested == 0 then DEFAULT_INDEX_STRIDE else requested;
    offsets, times := [], [];
    var lastPosition, prefixMax := 0, MIN_INT64;
    SampleBegin(batches);
    for i := 0 to |batches|
      invariant OffsetsTo(offsets, batches, i) && TimesTo(times, batches, i) && prefixMax == RunningMax(batches, i)
      invariant |offsets| <= MAX_OFFSET_ENTRIES && |times| <= MAX_TIME_ENTRIES
      invariant 0 < i && |offsets| < MAX_OFFSET_ENTRIES ==>
                |offsets| > 0 && offsets[|offsets| - 1].position == lastPosition
      invariant 0 < i ==> lastPosition <= batches[i - 1].position
      invariant |offsets| < MAX_OFFSET_ENTRIES ==> forall k | 0 <= k < i ::
                Covered(offsets, batches[k].position, stride)
    {
      var batch := batches[i];
      if batch.maxTime > prefixMax { prefixMax := batch.maxTime; }
      OffsetsStep(offsets, batches, i);
      var time := TimeEntry(prefixMax, EntryOf(batch));
      TimesStep(times, batches, i, time);
      if i > 0 { PositionsRise(batches, i - 1, i); }
      if i == 0 || batch.position - lastPosition >= stride {
        if |offsets| < MAX_OFFSET_ENTRIES {
          var more := offsets + [EntryOf(batch)];
          CoveredLast(more, stride);
          forall k | 0 <= k < i ensures Covered(more, batches[k].position, stride) {
            CoveredMore(offsets, EntryOf(batch), batches[k].position, stride);
          }
          offsets := more;
        }
        if |times| < MAX_TIME_ENTRIES { times := times + [time]; }
        lastPosition := batch.position;
      } else if |offsets| < MAX_OFFSET_ENTRIES {
        CoveredBy(offsets, batch.position, stride);
      }
    }
    SampleEnd(offsets, times, batches);
  }

  lemma {:induction false} SampleBegin(batches: seq<BatchInfo>)
    ensures OffsetsTo([], batches, 0) && TimesTo([], batches, 0) && RunningMax(batches, 0) == MIN_INT64
  {
  }

  lemma PositionsRise(batches: seq<BatchInfo>, i: nat, j: nat)
    requires Rising(batches) && i < j < |batches|
    ensures batches[i].position < batches[j].position
  {
  }

  lemma CoveredLast(entries: seq<Entry>, stride: nat)
    requires entries != [] && stride > 0
    ensures Covered(entries, entries[|entries| - 1].position, stride)
  {
  }

  lemma CoveredBy(entries: seq<Entry>, position: nat, stride: nat)
    requires entries != []
    requires entries[|entries| - 1].position <= position < entries[|entries| - 1].position + stride
    ensures Covered(entries, position, stride)
  {
  }

  lemma {:induction false} SampleEnd(offsets: seq<Entry>, times: seq<TimeEntry>, batches: seq<BatchInfo>)
    requires OffsetsTo(offsets, batches, |batches|) && TimesTo(times, batches, |batches|)
    ensures ValidOffsets(offsets, batches) && ValidTimes(times, batches)
  {
    hide RunningMax;
    forall a | 0 <= a < |offsets| ensures Named(batches, offsets[a]) {
      assert NamedBefore(batches, offsets[a], |batches|);
    }
    forall a | 0 <= a < |times| ensures NamedTime(batches, times[a]) {
      assert NamedTimeBefore(batches, times[a], |batches|);
    }
  }
}
