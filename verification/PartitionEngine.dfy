/** The partition as an object: appends change the active segment, its file and
    the log end in place, and every fault leaves a directory that reopens. */
module PartitionEngine {
  import opened Base
  import opened Wire
  import opened Codec
  import opened Batches
  import opened Segments
  import opened PartitionLog

  datatype Options = Options(segmentBytes: u64, batchBytes: u32, batchRecords: u32, recordBytes: u32)

  /** What the file system does to one append. A failed write or sync may leave
      any prefix of the batch behind. */
  datatype Fault = NoFault | RollFails(published: bool) | WriteFails(kept: nat) | SyncFails(kept: nat)

  datatype Result = Ok(base: nat) | Mismatch | TooLarge | Unavailable | Unknown

  function Flatten(log: seq<Seg>): seq<Batch> {
    if log == [] then [] else Flatten(log[..|log| - 1]) + log[|log| - 1].batches
  }

  lemma {:induction false} FlattenSplit(a: seq<Seg>, b: seq<Seg>)
    ensures Flatten(a + b) == Flatten(a) + Flatten(b)
    decreases b
  {
    if b == [] {
      assert a + b == a;
    } else {
      var n := |b| - 1;
      assert (a + b)[..|a + b| - 1] == a + b[..n];
      FlattenSplit(a, b[..n]);
    }
  }

  lemma {:induction false} FlattenGrown(log: seq<Seg>, batch: Batch)
    requires log != []
    ensures Flatten(Grown(log, batch)) == Flatten(log) + [batch]
  {
    var g := Grown(log, batch);
    assert g[..|g| - 1] == log[..|log| - 1];
  }

  lemma GrownOk(f: Format, log: seq<Seg>, batch: Batch, topic: Id, partition: u32)
    requires LogOk(f, log, topic, partition) && DebrisOk(f, log, Torn(batch, 0), topic, partition)
    ensures LogOk(f, Grown(log, batch), topic, partition)
    ensures EndOf(Last(Grown(log, batch))) == EndOf(Last(log)) + |batch.records|
  {
    hide Contiguous, EncodeBatch;
    var g := Grown(log, batch);
    LastOk(f, log, topic, partition);
    ContiguousAppend(f, Last(log).batches, batch, topic, partition, Last(log).header.base);
    CountAppend(Last(log).batches, batch);
    forall i | 0 < i < |g| ensures Meets(g[i - 1], g[i]) { assert Meets(log[i - 1], log[i]); }
    forall i | 0 <= i < |g| ensures SegOk(f, g[i], topic, partition) { assert SegOk(f, log[i], topic, partition); }
  }

  lemma RolledOk(f: Format, log: seq<Seg>, h: SegmentHeader, topic: Id, partition: u32)
    requires LogOk(f, log, topic, partition) && DebrisOk(f, log, Rolled(h), topic, partition)
    ensures LogOk(f, log + [Seg(h, [])], topic, partition)
  {
    hide SegOk, Meets;
    var g := log + [Seg(h, [])];
    forall i | 0 <= i < |g| ensures SegOk(f, g[i], topic, partition) {
      if i < |log| { assert SegOk(f, log[i], topic, partition); }
    }
    forall i | 0 < i < |g| ensures Meets(g[i - 1], g[i]) {
      if i < |log| { assert Meets(log[i - 1], log[i]); }
    }
  }

  lemma {:induction false} RolledFiles(f: Format, log: seq<Seg>, h: SegmentHeader)
    ensures FilesOf(f, log + [Seg(h, [])]) == FilesOf(f, log) + [File(h.base, HeaderImage(f, h))]
    ensures Flatten(log + [Seg(h, [])]) == Flatten(log)
  {
    hide HeaderImage, SegBytes;
    var g := log + [Seg(h, [])];
    HeaderOnly(f, Seg(h, []));
    assert g[..|g| - 1] == log && Flatten(log) + [] == Flatten(log);
  }

  /** A torn batch that is whole is a batch that was written. */
  lemma WholeFile(f: Format, log: seq<Seg>, batch: Batch)
    requires log != [] && EncodeBatch(f, batch).Some?
    ensures Directory(f, log, Torn(batch, |EncodeBatch(f, batch).value|)) == FilesOf(f, Grown(log, batch))
  {
    hide EncodeBatch, HeaderImage;
    var e := EncodeBatch(f, batch).value;
    assert e[..|e|] == e;
    BytesAppend(f, Last(log).batches, batch);
    var g := Grown(log, batch);
    assert SegBytes(f, Last(g)) == SegBytes(f, Last(log)) + e;
    assert FilesOf(f, g) == FilesOf(f, log[..|log| - 1]) + [File(Last(log).header.base, SegBytes(f, Last(g)))];
  }

  lemma CleanLast(f: Format, log: seq<Seg>, batch: Batch, kept: nat, files: seq<File>)
    requires log != [] && files == FilesOf(f, log)
    ensures |files| == |log| && files[|log| - 1].data == SegBytes(f, Last(log))
    ensures Directory(f, log, Torn(batch, kept)) ==
            files[..|log| - 1] + [File(files[|log| - 1].base, files[|log| - 1].data + Part(f, batch, kept))]
  {
    hide SegBytes, Part;
    assert FilesOf(f, log[..|log| - 1]) == files[..|log| - 1];
  }

  lemma ViewGrown(f: Format, s: Seg, batch: Batch, topic: Id, partition: u32)
    requires SegOk(f, s, topic, partition) && EncodeBatch(f, batch).Some?
    ensures var v, n := View(f, s), View(f, Seg(s.header, s.batches + [batch]));
            var e := EncodeBatch(f, batch).value;
            && |batch.records| <= MAX_BATCH_RECORDS && |e| <= MAX_BATCH_BYTES
            && n == Segment(v.header, v.end + |batch.records|, v.size + |e|, v.records + |batch.records|,
                            MaxTimestamp(batch.records, v.maxTime),
                            v.batches + [BatchInfo(batch.base, v.size, |e|, |batch.records|,
                                                   MaxTimestamp(batch.records, MIN_INT64))])
  {
    hide EncodeBatch, Contiguous;
    FoldedAppend(f, s.batches, batch, StartOf(s.header), topic, partition, s.header.base);
    EncodedShape(f, batch);
  }

  lemma ViewFacts(f: Format, s: Seg, topic: Id, partition: u32)
    requires SegOk(f, s, topic, partition)
    ensures View(f, s).end == EndOf(s) && View(f, s).records == CountRecords(s.batches)
    ensures View(f, s).size == |SegBytes(f, s)|
    ensures View(f, s).records == 0 <==> s.batches == []
  {
    hide Scan, EncodeBatch, HeaderImage, Folded;
    var data := SegBytes(f, s);
    assert data[72..] == BatchesBytes(f, s.batches) + [];
    ScanWritten(f, data, topic, partition, true, StartOf(s.header), s.batches, []);
    if s.batches != [] { EncodedShape(f, s.batches[0]); }
  }

  /** The header field at 24..32 of an encoded batch is its newest timestamp. */
  lemma StoredTime(f: Format, batch: Batch)
    requires EncodeBatch(f, batch).Some?
    ensures |EncodeBatch(f, batch).value| >= 32
    ensures AsI64(U64(EncodeBatch(f, batch).value[24..32])) == MaxTimestamp(batch.records, MIN_INT64)
  {
    hide EncodeBatch, DecodeBatch, MaxTimestamp;
    BatchRoundTrip(f, batch);
    DecodedShape(f, EncodeBatch(f, batch).value, batch.topic, batch.partition);
  }

  // -------------------------------------------------------------------- state

  datatype Config = Config(f: Format, topic: Id, partition: u32, options: Options, origin: nat)

  /** The fields of a partition and its directory in base order; then, for the
      proof, what was written where, what an interrupted append left behind, and
      the batches retention removed. */
  datatype State = State(segments: seq<Segment>, logEnd: nat, unavailable: bool, files: seq<File>,
                         log: seq<Seg>, debris: Debris, retired: seq<Batch>)

  /** Every batch ever acknowledged. */
  function Acked(s: State): seq<Batch> { s.retired + Flatten(s.log) }

  ghost predicate ChainOk(c: Config, s: State) {
    && LogOk(c.f, s.log, c.topic, c.partition)
    && s.segments == Views(c.f, s.log)
    && s.logEnd == EndOf(Last(s.log))
  }

  ghost predicate DiskOk(c: Config, s: State)
    requires s.log != []
  {
    && DebrisOk(c.f, s.log, s.debris, c.topic, c.partition)
    && s.files == Directory(c.f, s.log, s.debris)
    && (!s.unavailable ==> s.debris == Clean)
  }

  /** Acknowledged batches run on from the origin without a gap or a repeat. */
  ghost predicate HistoryOk(c: Config, s: State) {
    Contiguous(c.f, Acked(s), c.topic, c.partition, c.origin) && c.origin + CountRecords(Acked(s)) == s.logEnd
  }

  /** The configured limit, or one largest batch in a segment of its own if that is
      more. */
  function Ceiling(o: Options): nat {
    if o.segmentBytes >= SEGMENT_HEADER_BYTES + o.batchBytes then o.segmentBytes
        else SEGMENT_HEADER_BYTES + o.batchBytes
  }

  /** No segment outgrows it, not even with a torn batch completed. */
  ghost predicate Bounded(c: Config, s: State) {
    && (forall i | 0 <= i < |s.segments| :: s.segments[i].size <= Ceiling(c.options))
    && (s.debris.Torn? && s.segments != [] && EncodeBatch(c.f, s.debris.batch).Some? ==>
          s.segments[|s.segments| - 1].size + |EncodeBatch(c.f, s.debris.batch).value| <= Ceiling(c.options))
  }

  ghost predicate Inv(c: Config, s: State) {
    ChainOk(c, s) && DiskOk(c, s) && HistoryOk(c, s) && Bounded(c, s)
  }

  function NewHeader(c: Config, base: nat, id: Id): SegmentHeader
    requires base <= MAX_OFFSET
  {
    SegmentHeader(c.topic, c.partition, base, id)
  }

  function Empty(h: SegmentHeader): Segment {
    Segment(h, h.base, SEGMENT_HEADER_BYTES, 0, MIN_INT64, [])
  }

  lemma EmptyView(f: Format, h: SegmentHeader)
    ensures View(f, Seg(h, [])) == Empty(h)
  {
  }

  // -------------------------------------------------------------------- steps

  function Active(s: State): Segment
    requires s.segments != []
  {
    s.segments[|s.segments| - 1]
  }

  predicate Limits(c: Config, batch: Batch, encoded: Bytes) {
    && 0 < |batch.records| <= c.options.batchRecords && |encoded| <= c.options.batchBytes
    && forall i | 0 <= i < |batch.records| :: RecordSize(batch.records[i]) <= c.options.recordBytes
  }

  predicate Overflows(c: Config, s: State, encoded: Bytes)
    requires s.segments != []
  {
    |encoded| + Active(s).size > c.options.segmentBytes
  }

  /** A published, empty active segment. */
  function AfterRoll(c: Config, s: State, id: Id): State
    requires s.logEnd <= MAX_OFFSET
  {
    var h := NewHeader(c, s.logEnd, id);
    s.(segments := s.segments + [Empty(h)], files := s.files + [File(s.logEnd, HeaderImage(c.f, h))],
       log := s.log + [Seg(h, [])])
  }

  function AfterFailedRoll(c: Config, s: State, id: Id, published: bool): State
    requires s.logEnd <= MAX_OFFSET
  {
    var h := NewHeader(c, s.logEnd, id);
    if published then s.(unavailable := true, files := s.files + [File(s.logEnd, HeaderImage(c.f, h))],
                         debris := Rolled(h))
    else s.(unavailable := true)
  }

  /** The active segment's file with part of `encoded` after its clean end. */
  function WithTail(s: State, encoded: Bytes, kept: nat): seq<File>
    requires s.files != []
  {
    var n := |s.files| - 1;
    s.files[..n] + [File(s.files[n].base, s.files[n].data + if kept <= |encoded| then encoded[..kept] else encoded)]
  }

  function AfterTorn(s: State, batch: Batch, encoded: Bytes, kept: nat): State
    requires s.files != []
  {
    s.(unavailable := true, files := WithTail(s, encoded, kept), debris := Torn(batch, Min(kept, |encoded|)))
  }

  function AfterWrite(s: State, batch: Batch, encoded: Bytes): State
    requires s.files != [] && s.segments != [] && s.log != []
    requires |batch.records| <= MAX_BATCH_RECORDS && 32 <= |encoded| <= MAX_BATCH_BYTES
  {
    var a := Active(s);
    var info := BatchInfo(batch.base, a.size, |encoded|, |batch.records|, AsI64(U64(encoded[24..32])));
    var n := Segment(a.header, a.end + |batch.records|, a.size + |encoded|, a.records + |batch.records|,
                     MaxTimestamp(batch.records, a.maxTime), a.batches + [info]);
    s.(segments := s.segments[..|s.segments| - 1] + [n], logEnd := n.end, files := WithTail(s, encoded, |encoded|),
    log := Grown(s.log, batch))
  }

  /** Retention drops the first `n` segments and their files. */
  function AfterRetire(s: State, n: nat): State
    requires n <= |s.segments| && n <= |s.files| && n <= |s.log|
  {
    s.(segments := s.segments[n..], files := s.files[n..], log := s.log[n..],
       retired := s.retired + Flatten(s.log[..n]))
  }

  // ------------------------------------------------------------- preservation

  lemma Shape(c: Config, s: State)
    requires Inv(c, s)
    ensures s.log != [] && |s.segments| == |s.log| && s.files != [] && s.logEnd <= MAX_OFFSET
    ensures |s.log| <= |s.files| && (s.debris.Clean? ==> |s.files| == |s.log|)
    ensures Active(s) == View(c.f, Last(s.log)) && SegOk(c.f, Last(s.log), c.topic, c.partition)
    ensures Active(s).records == 0 <==> Last(s.log).batches == []
    ensures Active(s).end == s.logEnd
  {
    hide Contiguous, View, HeaderImage, Flatten;
    LastOk(c.f, s.log, c.topic, c.partition);
    var last := Last(s.log);
    ContiguousEnd(c.f, last.batches, c.topic, c.partition, last.header.base);
    ViewFacts(c.f, last, c.topic, c.partition);
  }

  lemma RollKeeps(c: Config, s: State, id: Id)
    requires Inv(c, s) && !s.unavailable && id != 0 && s.segments != [] && Active(s).records != 0
             && s.logEnd <= MAX_OFFSET
    ensures Inv(c, AfterRoll(c, s, id)) && Acked(AfterRoll(c, s, id)) == Acked(s)
  {
    hide Contiguous, View, HeaderImage, Flatten, CountRecords, Views, FilesOf, LogOk;
    Shape(c, s);
    LastOk(c.f, s.log, c.topic, c.partition);
    var h := NewHeader(c, s.logEnd, id);
    RollHeaderOk(c, s, id);
    RolledOk(c.f, s.log, h, c.topic, c.partition);
    RolledFiles(c.f, s.log, h);
    EmptyView(c.f, h);
    ViewsAppend(c.f, s.log, Seg(h, []));
    EndOfEmpty(h);
  }

  lemma EndOfEmpty(h: SegmentHeader)
    ensures EndOf(Seg(h, [])) == h.base
  {
  }

  lemma RollHeaderOk(c: Config, s: State, id: Id)
    requires Inv(c, s) && id != 0 && s.logEnd <= MAX_OFFSET && Last(s.log).batches != []
    ensures DebrisOk(c.f, s.log, Rolled(NewHeader(c, s.logEnd, id)), c.topic, c.partition)
  {
    LastOk(c.f, s.log, c.topic, c.partition);
  }

  lemma FailedRollKeeps(c: Config, s: State, id: Id, published: bool)
    requires Inv(c, s) && !s.unavailable && id != 0 && s.segments != [] && Active(s).records != 0
             && s.logEnd <= MAX_OFFSET
    ensures Inv(c, AfterFailedRoll(c, s, id, published)) && Acked(AfterFailedRoll(c, s, id, published)) == Acked(s)
  {
    hide Contiguous, View, HeaderImage, Flatten, CountRecords, Views, FilesOf;
    Shape(c, s);
    RollHeaderOk(c, s, id);
  }

  predicate Follows(c: Config, s: State, batch: Batch, encoded: Bytes) {
    && EncodeBatch(c.f, batch) == Some(encoded)
    && batch.topic == c.topic && batch.partition == c.partition && batch.base == s.logEnd
  }

  lemma TailIs(c: Config, s: State, batch: Batch, encoded: Bytes, kept: nat)
    requires Inv(c, s) && !s.unavailable && Follows(c, s, batch, encoded) && s.files != []
    ensures s.log != [] && WithTail(s, encoded, kept) == Directory(c.f, s.log, Torn(batch, Min(kept, |encoded|)))
  {
    hide EncodeBatch, View, HeaderImage, Flatten, SegBytes;
    CleanLast(c.f, s.log, batch, Min(kept, |encoded|), s.files);
    assert encoded[..|encoded|] == encoded;
  }

  lemma TornKeeps(c: Config, s: State, batch: Batch, encoded: Bytes, kept: nat)
    requires Inv(c, s) && !s.unavailable && Follows(c, s, batch, encoded) && s.files != [] && s.segments != []
    requires |encoded| <= c.options.batchBytes && (!Overflows(c, s, encoded) || Active(s).records == 0)
    ensures Inv(c, AfterTorn(s, batch, encoded, kept)) && Acked(AfterTorn(s, batch, encoded, kept)) == Acked(s)
  {
    hide EncodeBatch, View, HeaderImage, Flatten, SegBytes, CountRecords, Contiguous, Directory, WithTail, LogOk;
    TailIs(c, s, batch, encoded, kept);
    RoomFor(c, s, encoded);
  }

  lemma WriteKeeps(c: Config, s: State, batch: Batch, encoded: Bytes)
    requires Inv(c, s) && !s.unavailable && Follows(c, s, batch, encoded) && |encoded| <= c.options.batchBytes
    requires s.files != [] && s.segments != [] && s.log != []
    requires |batch.records| <= MAX_BATCH_RECORDS && 32 <= |encoded| <= MAX_BATCH_BYTES
    requires !Overflows(c, s, encoded) || Active(s).records == 0
    ensures var n := AfterWrite(s, batch, encoded);
            Inv(c, n) && Acked(n) == Acked(s) + [batch] && n.logEnd == s.logEnd + |batch.records|
  {
    hide EncodeBatch, View, HeaderImage, Flatten, SegBytes, CountRecords, Contiguous, WithTail, LogOk, Views,
         FilesOf, MaxTimestamp, SegOk;
    Shape(c, s);
    var n := AfterWrite(s, batch, encoded);
    var last := Last(s.log);
    StoredTime(c.f, batch);
    ViewGrown(c.f, last, batch, c.topic, c.partition);
    GrownOk(c.f, s.log, batch, c.topic, c.partition);
    TailIs(c, s, batch, encoded, |encoded|);
    WholeFile(c.f, s.log, batch);
    FlattenGrown(s.log, batch);
    assert s.retired + (Flatten(s.log) + [batch]) == Acked(s) + [batch];
    WrittenViews(c, s, batch, encoded);
    WrittenHistory(c, s, batch, encoded);
    WrittenBounded(c, s, batch, encoded);
  }

  lemma WrittenViews(c: Config, s: State, batch: Batch, encoded: Bytes)
    requires s.log != [] && s.segments == Views(c.f, s.log)
    ensures Views(c.f, Grown(s.log, batch)) ==
            s.segments[..|s.segments| - 1] + [View(c.f, Seg(Last(s.log).header, Last(s.log).batches + [batch]))]
  {
    hide View;
  }

  lemma WrittenHistory(c: Config, s: State, batch: Batch, encoded: Bytes)
    requires HistoryOk(c, s) && Follows(c, s, batch, encoded)
    ensures Contiguous(c.f, Acked(s) + [batch], c.topic, c.partition, c.origin)
    ensures CountRecords(Acked(s) + [batch]) == CountRecords(Acked(s)) + |batch.records|
  {
    hide EncodeBatch, Contiguous, CountRecords;
    ContiguousAppend(c.f, Acked(s), batch, c.topic, c.partition, c.origin);
    CountAppend(Acked(s), batch);
  }

  lemma RoomFor(c: Config, s: State, encoded: Bytes)
    requires Inv(c, s) && s.segments != []
    requires |encoded| <= c.options.batchBytes && (!Overflows(c, s, encoded) || Active(s).records == 0)
    ensures Active(s).size + |encoded| <= Ceiling(c.options)
  {
    hide View, HeaderImage, Flatten, SegBytes, CountRecords, Contiguous, Directory, LogOk, FilesOf;
    Shape(c, s);
    if Active(s).records == 0 { EmptyView(c.f, Last(s.log).header); }
  }

  lemma WrittenBounded(c: Config, s: State, batch: Batch, encoded: Bytes)
    requires Inv(c, s) && !s.unavailable && s.files != [] && s.segments != [] && s.log != []
    requires |batch.records| <= MAX_BATCH_RECORDS && 32 <= |encoded| <= MAX_BATCH_BYTES
    requires |encoded| <= c.options.batchBytes && (!Overflows(c, s, encoded) || Active(s).records == 0)
    ensures Bounded(c, AfterWrite(s, batch, encoded))
  {
    hide View, HeaderImage, Flatten, SegBytes, CountRecords, Contiguous, Directory, WithTail, LogOk, FilesOf,
         MaxTimestamp;
    RoomFor(c, s, encoded);
  }

  lemma RetireKeeps(c: Config, s: State, n: nat)
    requires Inv(c, s) && !s.unavailable && n < |s.segments| == |s.log| == |s.files|
    ensures Inv(c, AfterRetire(s, n)) && Acked(AfterRetire(s, n)) == Acked(s)
  {
    hide View, HeaderImage, Flatten, SegBytes, CountRecords, Contiguous, SegOk, Meets;
    var r := AfterRetire(s, n);
    assert s.log == s.log[..n] + s.log[n..];
    FlattenSplit(s.log[..n], s.log[n..]);
    assert s.retired + Flatten(s.log[..n]) + Flatten(s.log[n..]) == s.retired
           + (Flatten(s.log[..n]) + Flatten(s.log[n..]));
    forall i | 0 < i < |r.log| ensures Meets(r.log[i - 1], r.log[i]) { assert Meets(s.log[n + i - 1], s.log[n + i]); }
    assert r.segments == Views(c.f, r.log) && r.files == FilesOf(c.f, r.log);
  }

  // ------------------------------------------------------------------- append

  /** The write and sync half of an append, into the active segment. */
  function WriteStep(s: State, batch: Batch, encoded: Bytes, fault: Fault): (State, Result)
    requires s.files != [] && s.segments != [] && s.log != []
    requires |batch.records| <= MAX_BATCH_RECORDS && 32 <= |encoded| <= MAX_BATCH_BYTES
  {
    if fault.WriteFails? || fault.SyncFails? then (AfterTorn(s, batch, encoded, fault.kept), Unknown)
    else (AfterWrite(s, batch, encoded), Ok(batch.base))
  }

  /** appendEncodedLocked */
  function AppendStep(c: Config, s: State, batch: Batch, encoded: Bytes, id: Id, fault: Fault): (State, Result)
    requires s.files != [] && s.segments != [] && s.log != [] && s.logEnd <= MAX_OFFSET
    requires |batch.records| <= MAX_BATCH_RECORDS && 32 <= |encoded| <= MAX_BATCH_BYTES
  {
    if s.unavailable then (s, Unavailable)
    else if batch.topic != c.topic || batch.partition != c.partition || batch.base != s.logEnd then (s, Mismatch)
    else if !Limits(c, batch, encoded) then (s, TooLarge)
    else if Overflows(c, s, encoded) then
      if Active(s).records == 0 then (s, TooLarge)
      else if fault.RollFails? then (AfterFailedRoll(c, s, id, fault.published), Unavailable)
      else WriteStep(AfterRoll(c, s, id), batch, encoded, fault)
    else WriteStep(s, batch, encoded, fault)
  }

  lemma WriteStepKeeps(c: Config, s: State, batch: Batch, encoded: Bytes, fault: Fault)
    requires Inv(c, s) && !s.unavailable && Follows(c, s, batch, encoded) && |encoded| <= c.options.batchBytes
    requires s.files != [] && s.segments != [] && s.log != []
    requires |batch.records| <= MAX_BATCH_RECORDS && 32 <= |encoded| <= MAX_BATCH_BYTES
    requires !Overflows(c, s, encoded) || Active(s).records == 0
    ensures var (n, r) := WriteStep(s, batch, encoded, fault);
            && Inv(c, n)
            && (if r.Ok? then Acked(n) == Acked(s) + [batch] && r.base == s.logEnd
                && n.logEnd == s.logEnd + |batch.records|
                else Acked(n) == Acked(s) && n.logEnd == s.logEnd)
  {
    hide Inv, Acked, AfterWrite, AfterTorn;
    if fault.WriteFails? || fault.SyncFails? {
      TornKeeps(c, s, batch, encoded, fault.kept);
      TornEnd(s, batch, encoded, fault.kept);
    } else {
      WriteKeeps(c, s, batch, encoded);
    }
  }

  lemma TornEnd(s: State, batch: Batch, encoded: Bytes, kept: nat)
    requires s.files != []
    ensures AfterTorn(s, batch, encoded, kept).logEnd == s.logEnd
  {
  }

  /** Every append, whatever fails in it, keeps the chain; it is acknowledged with
      the old end as its base, or it changes nothing acknowledged. */
  lemma AppendKeeps(c: Config, s: State, batch: Batch, encoded: Bytes, id: Id, fault: Fault)
    requires Inv(c, s) && EncodeBatch(c.f, batch) == Some(encoded) && id != 0
    requires s.files != [] && s.segments != [] && s.log != [] && s.logEnd <= MAX_OFFSET
    requires |batch.records| <= MAX_BATCH_RECORDS && 32 <= |encoded| <= MAX_BATCH_BYTES
    ensures var (n, r) := AppendStep(c, s, batch, encoded, id, fault);
            && Inv(c, n)
            && (if r.Ok? then Acked(n) == Acked(s) + [batch] && r.base == s.logEnd
                && n.logEnd == s.logEnd + |batch.records|
                else Acked(n) == Acked(s) && n.logEnd == s.logEnd)
  {
    hide Inv, Acked, WriteStep, EncodeBatch, RecordSize;
    if !s.unavailable && batch.topic == c.topic && batch.partition == c.partition && batch.base == s.logEnd
       && Limits(c, batch, encoded) {
      if Overflows(c, s, encoded) {
        if Active(s).records != 0 {
          if fault.RollFails? {
            FailedRollKeeps(c, s, id, fault.published);
          } else {
            RollKeeps(c, s, id);
            WriteStepKeeps(c, AfterRoll(c, s, id), batch, encoded, fault);
          }
        }
      } else {
        WriteStepKeeps(c, s, batch, encoded, fault);
      }
    }
  }

  // ------------------------------------------------------------------- reopen

  /** The files as recovery leaves them, each cut to its segment's size. */
  function Cut(files: seq<File>, segments: seq<Segment>): seq<File> {
    seq(|files|, i requires 0 <= i < |files| =>
      if i < |segments| && segments[i].size <= |files[i].data|
          then File(files[i].base, files[i].data[..segments[i].size])
      else files[i])
  }

  /** What the surviving bytes make of the log. */
  function Survivors(f: Format, log: seq<Seg>, d: Debris): seq<Seg>
    requires log != []
  {
    match d
    case Clean => log
    case Rolled(h) => log + [Seg(h, [])]
    case Torn(batch, kept) =>
      if EncodeBatch(f, batch).Some? && kept == |EncodeBatch(f, batch).value| then Grown(log, batch) else log
  }

  /** Reopening the directory after a crash, with the retained base known. */
  function Reopened(c: Config, s: State): State
    requires s.log != []
  {
    match Open(c.f, s.files, c.topic, c.partition, s.log[0].header.base)
    case None => s
    case Some(segments) =>
      if segments == [] then s
      else
        State(segments, segments[|segments| - 1].end, false, Cut(s.files, segments),
              Survivors(c.f, s.log, s.debris), Clean, s.retired)
  }

  lemma CutWhole(f: Format, log: seq<Seg>, topic: Id, partition: u32)
    requires LogOk(f, log, topic, partition)
    ensures Cut(FilesOf(f, log), Views(f, log)) == FilesOf(f, log)
  {
    hide View, SegBytes, SegOk;
    var files, cut := FilesOf(f, log), Cut(FilesOf(f, log), Views(f, log));
    forall i | 0 <= i < |log| ensures cut[i] == files[i] {
      ViewFacts(f, log[i], topic, partition);
      var data := SegBytes(f, log[i]);
      assert data[..|data|] == data;
    }
  }

  lemma CutTorn(f: Format, log: seq<Seg>, batch: Batch, kept: nat, topic: Id, partition: u32)
    requires LogOk(f, log, topic, partition)
    ensures Cut(Directory(f, log, Torn(batch, kept)), Views(f, log)) == FilesOf(f, log)
  {
    hide View, SegBytes, SegOk, Part;
    var files, cut := FilesOf(f, log), Cut(Directory(f, log, Torn(batch, kept)), Views(f, log));
    var part := Part(f, batch, kept);
    forall i | 0 <= i < |log| ensures cut[i] == files[i] {
      ViewFacts(f, log[i], topic, partition);
      var data := SegBytes(f, log[i]);
      assert data[..|data|] == data && (data + part)[..|data|] == data;
    }
  }

  lemma ReopenedClean(c: Config, s: State)
    requires Inv(c, s) && s.debris.Clean?
    ensures Reopened(c, s) == s.(unavailable := false)
  {
    hide View, Open, Contiguous, Flatten, FilesOf, Views;
    Shape(c, s);
    ReopenAfterCrash(c.f, s.log, s.debris, c.topic, c.partition);
    CutWhole(c.f, s.log, c.topic, c.partition);
  }

  lemma ReopenedRolled(c: Config, s: State)
    requires Inv(c, s) && s.debris.Rolled?
    ensures Inv(c, Reopened(c, s)) && Acked(Reopened(c, s)) == Acked(s) && Reopened(c, s).logEnd == s.logEnd
  {
    hide View, Open, Contiguous, Flatten, FilesOf, Views, LogOk, HeaderImage, CountRecords;
    Shape(c, s);
    var h := s.debris.header;
    ReopenAfterCrash(c.f, s.log, s.debris, c.topic, c.partition);
    RolledOk(c.f, s.log, h, c.topic, c.partition);
    RolledFiles(c.f, s.log, h);
    CutWhole(c.f, s.log + [Seg(h, [])], c.topic, c.partition);
    ViewsAppend(c.f, s.log, Seg(h, []));
    EmptyView(c.f, h);
    EndOfEmpty(h);
  }

  lemma ReopenedTorn(c: Config, s: State)
    requires Inv(c, s) && s.debris.Torn?
    ensures Inv(c, Reopened(c, s)) && Acked(s) <= Acked(Reopened(c, s)) && s.logEnd <= Reopened(c, s).logEnd
  {
    hide View, Open, Contiguous, Flatten, FilesOf, Views, LogOk, HeaderImage, CountRecords, EncodeBatch, Part;
    Shape(c, s);
    var batch, kept := s.debris.batch, s.debris.kept;
    var e := EncodeBatch(c.f, batch).value;
    ReopenAfterCrash(c.f, s.log, s.debris, c.topic, c.partition);
    if kept == |e| {
      ReopenedWhole(c, s);
    } else if kept == 0 || kept >= BATCH_HEADER_BYTES {
      CutTorn(c.f, s.log, batch, kept, c.topic, c.partition);
    }
  }

  lemma ReopenedWhole(c: Config, s: State)
    requires Inv(c, s) && s.debris.Torn? && EncodeBatch(c.f, s.debris.batch).Some?
    requires s.debris.kept == |EncodeBatch(c.f, s.debris.batch).value|
    ensures Inv(c, Reopened(c, s)) && Acked(Reopened(c, s)) == Acked(s) + [s.debris.batch]
            && s.logEnd <= Reopened(c, s).logEnd
  {
    hide View, Open, Contiguous, Flatten, FilesOf, Views, LogOk, HeaderImage, CountRecords, EncodeBatch, Part,
         MaxTimestamp, SegOk;
    Shape(c, s);
    var batch := s.debris.batch;
    var log := Grown(s.log, batch);
    ReopenAfterCrash(c.f, s.log, s.debris, c.topic, c.partition);
    GrownOk(c.f, s.log, batch, c.topic, c.partition);
    WholeFile(c.f, s.log, batch);
    CutWhole(c.f, log, c.topic, c.partition);
    WrittenViews(c, s, batch, []);
    ViewGrown(c.f, Last(s.log), batch, c.topic, c.partition);
    FlattenGrown(s.log, batch);
    assert s.retired + (Flatten(s.log) + [batch]) == Acked(s) + [batch];
    WrittenHistory(c, s, batch, EncodeBatch(c.f, batch).value);
  }

  lemma ReopenedKeeps(c: Config, s: State)
    requires Inv(c, s) && s.log != []
    ensures Inv(c, Reopened(c, s)) && Acked(s) <= Acked(Reopened(c, s)) && s.logEnd <= Reopened(c, s).logEnd
  {
    hide Reopened, Acked, LogOk, Contiguous, Views, Directory;
    match s.debris
    case Clean => ReopenedClean(c, s); SameAcked(s);
    case Rolled(_) => ReopenedRolled(c, s);
    case Torn(_, _) => ReopenedTorn(c, s);
  }

  lemma SameAcked(s: State)
    ensures Acked(s.(unavailable := false)) == Acked(s)
  {
  }

  // --------------------------------------------------------------- every run

  datatype Op = Append(batch: Batch, id: Id, fault: Fault) | Roll(id: Id, fault: Fault) | Retire(n: nat) | Reopen

  /** An operation, when its caller would attempt it. */
  function Perform(c: Config, s: State, op: Op): State
    requires s.files != [] && s.segments != [] && s.log != [] && s.logEnd <= MAX_OFFSET && |s.log| <= |s.files|
    requires |s.segments| == |s.log|
  {
    match op
    case Append(batch, id, fault) =>
      (match EncodeBatch(c.f, batch)
       case None => s
       case Some(e) => EncodedShape(c.f, batch); if id == 0 then s else AppendStep(c, s, batch, e, id, fault).0)
    case Roll(id, fault) =>
      if s.unavailable || id == 0 || Active(s).records == 0 then s
      else if fault.RollFails? then AfterFailedRoll(c, s, id, fault.published) else AfterRoll(c, s, id)
    case Retire(n) => if s.unavailable || n >= |s.segments| then s else AfterRetire(s, n)
    case Reopen => Reopened(c, s)
  }

  lemma PerformKeeps(c: Config, s: State, op: Op)
    requires Inv(c, s) && s.files != [] && s.segments != [] && s.log != [] && s.logEnd <= MAX_OFFSET
    requires |s.log| <= |s.files| && |s.segments| == |s.log|
    ensures Inv(c, Perform(c, s, op)) && Acked(s) <= Acked(Perform(c, s, op)) && s.logEnd <= Perform(c, s, op).logEnd
  {
    hide Inv, Acked, AppendStep, EncodeBatch, AfterRoll, AfterFailedRoll, AfterRetire, Reopened;
    match op
    case Append(batch, id, fault) =>
      if EncodeBatch(c.f, batch).Some? && id != 0 {
        EncodedShape(c.f, batch);
        AppendKeeps(c, s, batch, EncodeBatch(c.f, batch).value, id, fault);
      }
    case Roll(id, fault) =>
      if !s.unavailable && id != 0 && Active(s).records != 0 {
        RollKeeps(c, s, id);
        FailedRollKeeps(c, s, id, fault.RollFails? && fault.published);
        SameEnd(c, s, id, fault.RollFails? && fault.published);
      }
    case Retire(n) =>
      if !s.unavailable && n < |s.segments| {
        CleanShape(c, s);
        RetireKeeps(c, s, n);
        assert AfterRetire(s, n).logEnd == s.logEnd by { RetireEnd(s, n); }
      }
    case Reopen => ReopenedKeeps(c, s);
  }

  lemma RetireEnd(s: State, n: nat)
    requires n <= |s.segments| && n <= |s.files| && n <= |s.log|
    ensures AfterRetire(s, n).logEnd == s.logEnd
  {
  }

  lemma SameEnd(c: Config, s: State, id: Id, published: bool)
    requires s.logEnd <= MAX_OFFSET
    ensures AfterRoll(c, s, id).logEnd == s.logEnd == AfterFailedRoll(c, s, id, published).logEnd
  {
  }

  lemma CleanShape(c: Config, s: State)
    requires Inv(c, s) && !s.unavailable
    ensures |s.segments| == |s.log| == |s.files|
  {
    hide SegBytes, View, Contiguous, Flatten;
  }

  /** `t` is reached from `s` by the operations. */
  ghost predicate Reaches(c: Config, s: State, ops: seq<Op>, t: State)
    decreases ops
  {
    if ops == [] then t == s
    else
      && s.files != [] && s.segments != [] && s.log != [] && s.logEnd <= MAX_OFFSET && |s.log| <= |s.files|
      && |s.segments| == |s.log|
      && Reaches(c, Perform(c, s, ops[0]), ops[1..], t)
  }

  /** Over every interleaving of successful and failed appends, rolls, retention
      and restarts: the chain invariant holds, the log end never decreases, and the
      acknowledged batches only grow, each starting where the last one ended. */
  lemma {:induction false} RunKeeps(c: Config, s: State, ops: seq<Op>, t: State)
    requires Inv(c, s) && Reaches(c, s, ops, t)
    ensures Inv(c, t) && Acked(s) <= Acked(t) && s.logEnd <= t.logEnd
    decreases ops
  {
    hide Inv, Acked, Perform;
    if ops != [] {
      PerformKeeps(c, s, ops[0]);
      RunKeeps(c, Perform(c, s, ops[0]), ops[1..], t);
    }
  }

  /** A run can always go on: no reachable state blocks an operation. */
  lemma {:induction false} RunExists(c: Config, s: State, ops: seq<Op>) returns (t: State)
    requires Inv(c, s)
    ensures Reaches(c, s, ops, t)
    decreases ops
  {
    hide Inv, Acked, Perform, View;
    if ops == [] {
      t := s;
    } else {
      Shape(c, s);
      PerformKeeps(c, s, ops[0]);
      t := RunExists(c, Perform(c, s, ops[0]), ops[1..]);
    }
  }

  /** Two batches of the history never share an offset. */
  lemma {:induction false} NoRepeat(f: Format, batches: seq<Batch>, topic: Id, partition: u32, base: nat, i: nat,
                                    j: nat)
    requires Contiguous(f, batches, topic, partition, base) && i < j < |batches|
    ensures batches[i].base + |batches[i].records| <= batches[j].base && base <= batches[i].base
    decreases batches
  {
    hide EncodeBatch;
    if i == 0 {
      LaterBase(f, batches[1..], topic, partition, base + |batches[0].records|, j - 1);
    } else {
      NoRepeat(f, batches[1..], topic, partition, base + |batches[0].records|, i - 1, j - 1);
    }
  }

  lemma {:induction false} LaterBase(f: Format, batches: seq<Batch>, topic: Id, partition: u32, base: nat, j: nat)
    requires Contiguous(f, batches, topic, partition, base) && j < |batches|
    ensures base <= batches[j].base
    decreases batches
  {
    hide EncodeBatch;
    if j > 0 { LaterBase(f, batches[1..], topic, partition, base + |batches[0].records|, j - 1); }
  }

  /** Acknowledged offsets never repeat, in any run. */
  lemma {:induction false} AckedNeverRepeat(c: Config, s: State, ops: seq<Op>, t: State, i: nat, j: nat)
    requires Inv(c, s) && Reaches(c, s, ops, t) && i < j < |Acked(t)|
    ensures Acked(t)[i].base + |Acked(t)[i].records| <= Acked(t)[j].base
  {
    hide Reaches, Contiguous, Flatten, Views, Directory, LogOk;
    RunKeeps(c, s, ops, t);
    NoRepeat(c.f, Acked(t), c.topic, c.partition, c.origin, i, j);
  }

  /** Crash anywhere in any run: reopening the directory gives back every retained
      acknowledged batch, with at most an empty segment or the one unacknowledged
      batch besides, unless the torn tail is 1 to 47 bytes long. */
  lemma {:induction false} CrashAnywhere(c: Config, s: State, ops: seq<Op>, t: State)
    requires Inv(c, s) && Reaches(c, s, ops, t)
    ensures t.log != []
    ensures var found := Open(c.f, t.files, c.topic, c.partition, t.log[0].header.base);
            match t.debris
            case Clean => found == Some(t.segments)
            case Rolled(h) => found == Some(t.segments + [Empty(h)])
            case Torn(batch, kept) =>
              && EncodeBatch(c.f, batch).Some?
              && (kept == |EncodeBatch(c.f, batch).value| ==> found == Some(Views(c.f, Grown(t.log, batch))))
              && (kept != |EncodeBatch(c.f, batch).value| && (kept == 0 || kept >= BATCH_HEADER_BYTES) ==>
                    found == Some(t.segments))
              && (0 < kept < BATCH_HEADER_BYTES ==> found == None)
  {
    hide Reaches, Contiguous, Flatten, Views, Directory, LogOk, EncodeBatch, Open, View;
    RunKeeps(c, s, ops, t);
    Shape(c, t);
    ReopenAfterCrash(c.f, t.log, t.debris, c.topic, c.partition);
    if t.debris.Rolled? {
      ViewsAppend(c.f, t.log, Seg(t.debris.header, []));
      EmptyView(c.f, t.debris.header);
    }
    if t.debris.Torn? { EncodedShape(c.f, t.debris.batch); }
  }

  /** A batch that rolls lands in a segment of exactly header plus batch, which is
      not checked against the limit again. */
  lemma RolledSize(c: Config, s: State, batch: Batch, encoded: Bytes, id: Id)
    requires Inv(c, s) && Follows(c, s, batch, encoded) && !s.unavailable && Limits(c, batch, encoded)
    requires s.files != [] && s.segments != [] && s.log != [] && s.logEnd <= MAX_OFFSET
    requires |batch.records| <= MAX_BATCH_RECORDS && 32 <= |encoded| <= MAX_BATCH_BYTES
    requires Overflows(c, s, encoded) && Active(s).records != 0
    ensures var (n, r) := AppendStep(c, s, batch, encoded, id, NoFault);
            && r == Ok(s.logEnd) && |n.segments| == |s.segments| + 1
            && Active(n).size == SEGMENT_HEADER_BYTES + |encoded|
  {
    hide Inv, EncodeBatch, Limits, MaxTimestamp, HeaderImage;
  }

  /** A batch of one record without key, value or headers but for `payload` zero
      bytes. */
  function PlainBatch(offset: u64, payload: nat): Batch {
    Batch(3, 0, offset, [Record(3, 0, offset, 0, None, Some(seq(payload, _ => 0)), [])])
  }

  lemma PlainEncodes(f: Format, offset: u64, payload: nat)
    requires offset < MAX_OFFSET && payload <= 1000
    ensures EncodeBatch(f, PlainBatch(offset, payload)).Some?
    ensures |EncodeBatch(f, PlainBatch(offset, payload)).value| == 88 + payload
    ensures RecordSize(PlainBatch(offset, payload).records[0]) == 36 + payload
  {
    hide EncodeRecord, Checksummed, HeaderFields;
    var batch := PlainBatch(offset, payload);
    RecordSized(f, batch.records[0], offset);
    assert batch.records[1..] == [] && RecordsBytes(f, [], 3, 0, offset, 1) == Some([]);
    assert RecordsBytes(f, batch.records, 3, 0, offset, 0).Some?;
    BatchSized(f, batch);
  }

  /** A new partition whose segments have room for the smallest record alone. */
  function Cramped(f: Format): (Config, State) {
    var h := SegmentHeader(3, 0, 0, 7);
    (Config(f, 3, 0, Options(160, 200, 10, 200), 0),
     State([Empty(h)], 0, false, [File(0, HeaderImage(f, h))], [Seg(h, [])], Clean, []))
  }

  /** The first record fills the first segment. */
  lemma CrampedAppends(f: Format, n: State)
    requires var (c, s) := Cramped(f);
             s.logEnd <= MAX_OFFSET && n == Perform(c, s, Append(PlainBatch(0, 0), 8, NoFault))
    ensures var (c, s) := Cramped(f);
            && Inv(c, n) && !n.unavailable && Acked(n) == [PlainBatch(0, 0)] && n.logEnd == 1
            && n.segments != [] && Active(n).records == 1 && Active(n).size == 160
  {
    hide EncodeBatch, HeaderImage, MaxTimestamp, Inv, Acked;
    var (c, s) := Cramped(f);
    PlainEncodes(f, 0, 0);
    var e := EncodeBatch(f, PlainBatch(0, 0)).value;
    EncodedShape(f, PlainBatch(0, 0));
    FreshInv(c, SegmentHeader(3, 0, 0, 7));
    AppendKeeps(c, s, PlainBatch(0, 0), e, 8, NoFault);
  }

  /** The limit can be exceeded: a second, larger record is acknowledged in a segment
      of its own that is longer than the limit. */
  lemma OversizedExample(f: Format)
    ensures var (c, s) := Cramped(f);
            exists n: State ::
              && Reaches(c, s, [Append(PlainBatch(0, 0), 8, NoFault), Append(PlainBatch(1, 100), 9, NoFault)], n)
              && Acked(n) == [PlainBatch(0, 0), PlainBatch(1, 100)]
              && n.segments != [] && Active(n).size > c.options.segmentBytes
  {
    hide EncodeBatch, HeaderImage, MaxTimestamp, Inv, Acked, AppendStep;
    var (c, s) := Cramped(f);
    var one, two := Append(PlainBatch(0, 0), 8, NoFault), Append(PlainBatch(1, 100), 9, NoFault);
    var m := Perform(c, s, one);
    CrampedAppends(f, m);
    Shape(c, m);
    PlainEncodes(f, 1, 100);
    EncodedShape(f, two.batch);
    var e := EncodeBatch(f, two.batch).value;
    RolledSize(c, m, two.batch, e, 9);
    AppendKeeps(c, m, two.batch, e, 9, NoFault);
    var n := Perform(c, m, two);
    assert [one, two][1..] == [two] && [two][1..] == [];
    assert Reaches(c, n, [], n) && Reaches(c, m, [two], n);
    assert Reaches(c, s, [one, two], n);
  }

  // -------------------------------------------------------------- batch tiling

  /** Batch positions and offsets run on without a gap from the header to the
      segment's size and from its base to its end. */
  predicate Tiled(b: seq<BatchInfo>, position: nat, base: nat, size: nat, end: nat)
    decreases b
  {
    if b == [] then position == size && base == end
    else
      && b[0].position == position && b[0].base == base && b[0].records > 0 && b[0].bytes > 0
      && Tiled(b[1..], position + b[0].bytes, base + b[0].records, size, end)
  }

  lemma {:induction false} TiledAppend(b: seq<BatchInfo>, last: BatchInfo, position: nat, base: nat, size: nat,
                                       end: nat)
    requires Tiled(b, position, base, size, end)
    requires last.position == size && last.base == end && last.records > 0 && last.bytes > 0
    ensures Tiled(b + [last], position, base, size + last.bytes, end + last.records)
    decreases b
  {
    if b == [] {
      assert b + [last] == [last] && [last][1..] == [];
    } else {
      assert (b + [last])[1..] == b[1..] + [last];
      TiledAppend(b[1..], last, position + b[0].bytes, base + b[0].records, size, end);
    }
  }

  lemma {:induction false} FoldedTiles(f: Format, batches: seq<Batch>, s: Scanned, topic: Id, partition: u32,
                                       position: nat, base: nat)
    requires Contiguous(f, batches, topic, partition, s.current)
             && Tiled(s.batches, position, base, s.position, s.current)
    ensures var n := Folded(f, batches, s); Tiled(n.batches, position, base, n.position, n.current)
    decreases batches
  {
    hide EncodeBatch, MaxTimestamp;
    if batches != [] {
      EncodedShape(f, batches[0]);
      var n := Next(f, s, batches[0]);
      TiledAppend(s.batches, n.batches[|s.batches|], position, base, s.position, s.current);
      FoldedTiles(f, batches[1..], n, topic, partition, position, base);
    }
  }

  /** In every reachable state each segment's batches tile its bytes and offsets. */
  lemma {:induction false} SegmentsTiled(c: Config, s: State, ops: seq<Op>, t: State, i: nat)
    requires Inv(c, s) && Reaches(c, s, ops, t) && i < |t.segments|
    ensures var g := t.segments[i]; Tiled(g.batches, SEGMENT_HEADER_BYTES, g.header.base, g.size, g.end)
    ensures i + 1 < |t.segments| ==> t.segments[i].end == t.segments[i + 1].header.base && t.segments[i].records > 0
    ensures i + 1 == |t.segments| ==> t.segments[i].end == t.logEnd
  {
    hide Reaches, Contiguous, Flatten, Directory, EncodeBatch;
    RunKeeps(c, s, ops, t);
    var g := t.log[i];
    assert SegOk(c.f, g, c.topic, c.partition);
    FoldedTiles(c.f, g.batches, StartOf(g.header), c.topic, c.partition, SEGMENT_HEADER_BYTES, g.header.base);
    ViewFacts(c.f, g, c.topic, c.partition);
    if i + 1 < |t.log| { assert Meets(t.log[i], t.log[i + 1]); }
  }

  // ------------------------------------------------------------------- object

  method Newest(records: seq<Record>, acc: i64) returns (newest: i64)
    ensures newest == MaxTimestamp(records, acc)
  {
    newest := acc;
    assert records[0..] == records;
    for i := 0 to |records|
      invariant MaxTimestamp(records, acc) == MaxTimestamp(records[i..], newest)
    {
      assert records[i..][1..] == records[i + 1..];
      if records[i].timestamp > newest { newest := records[i].timestamp; }
    }
  }

  class Partition {
    ghost const c: Config
    const f: Format
    const topic: Id
    const partition: u32
    const options: Options

    var segments: seq<Segment>
    var logEnd: nat
    var unavailable: bool
    var files: seq<File>

    ghost var log: seq<Seg>
    ghost var debris: Debris
    ghost var retired: seq<Batch>

    ghost function View(): State
      reads this
    {
      State(segments, logEnd, unavailable, files, log, debris, retired)
    }

    ghost predicate Valid()
      reads this
    {
      && Inv(c, View())
      && c.f == f && c.topic == topic && c.partition == partition && c.options == options
      && |segments| == |log| && segments != [] && files != [] && |log| <= |files| && logEnd <= MAX_OFFSET
    }

    /** createSegment in an empty directory. */
    constructor (f: Format, topic: Id, partition: u32, options: Options, base: u64, id: Id)
      requires topic != 0 && id != 0 && partition <= MAX_INT32 && base <= MAX_OFFSET
      ensures Valid() && c == Config(f, topic, partition, options, base)
      ensures !unavailable && logEnd == base && Acked(View()) == []
    {
      var h := SegmentHeader(topic, partition, base, id);
      c := Config(f, topic, partition, options, base);
      this.f, this.topic, this.partition, this.options := f, topic, partition, options;
      segments, logEnd, unavailable := [Empty(h)], base, false;
      files := [File(base, HeaderImage(f, h))];
      log, debris, retired := [Seg(h, [])], Clean, [];
      new;
      FreshInv(c, h);
    }

    method FitsLimits(batch: Batch, encoded: Bytes) returns (ok: bool)
      requires c.options == options
      ensures ok <==> Limits(c, batch, encoded)
    {
      hide RecordSize;
      if |batch.records| == 0 || |batch.records| > options.batchRecords
          || |encoded| > options.batchBytes { return false; }
      for i := 0 to |batch.records|
        invariant forall j | 0 <= j < i :: RecordSize(batch.records[j]) <= options.recordBytes
      {
        if RecordSize(batch.records[i]) > options.recordBytes { return false; }
      }
      ok := true;
    }

    /** createSegment at the log end: published and used, or the partition stops. */
    method Roll(id: Id, fault: Fault) returns (ok: bool)
      requires c.f == f && c.topic == topic && c.partition == partition && logEnd <= MAX_OFFSET
      modifies this
      ensures ok <==> !fault.RollFails?
      ensures View() == if fault.RollFails? then AfterFailedRoll(c, old(View()), id, fault.published)
              else AfterRoll(c, old(View()), id)
    {
      hide HeaderImage, Empty;
      var h := SegmentHeader(topic, partition, logEnd, id);
      if fault.RollFails? {
        unavailable := true;
        if fault.published {
          files := files + [File(logEnd, HeaderImage(f, h))];
          debris := Rolled(h);
        }
        return false;
      }
      segments := segments + [Empty(h)];
      files := files + [File(logEnd, HeaderImage(f, h))];
      log := log + [Seg(h, [])];
      ok := true;
    }

    /** Writes and syncs the batch, and only then publishes the new end. */
    method WriteActive(batch: Batch, encoded: Bytes, fault: Fault) returns (r: Result)
      requires files != [] && segments != [] && log != []
      requires |batch.records| <= MAX_BATCH_RECORDS && 32 <= |encoded| <= MAX_BATCH_BYTES
      modifies this
      ensures (View(), r) == WriteStep(old(View()), batch, encoded, fault)
    {
      hide MaxTimestamp, Grown;
      var active := segments[|segments| - 1];
      var n := |files| - 1;
      var kept := if fault.WriteFails? || fault.SyncFails? then fault.kept else |encoded|;
      files := files[..n] + [File(files[n].base, files[n].data + if kept <= |encoded| then encoded[..kept]
                                  else encoded)];
      if fault.WriteFails? || fault.SyncFails? {
        unavailable := true;
        debris := Torn(batch, Min(kept, |encoded|));
        return Unknown;
      }
      var info := BatchInfo(batch.base, active.size, |encoded|, |batch.records|, AsI64(U64(encoded[24..32])));
      var newest := Newest(batch.records, active.maxTime);
      active := Segment(active.header, active.end + |batch.records|, active.size + |encoded|,
                        active.records + |batch.records|, newest, active.batches + [info]);
      segments := segments[..|segments| - 1] + [active];
      log := Grown(log, batch);
      logEnd := active.end;
      r := Ok(batch.base);
    }

    /** appendEncodedLocked: validate, roll when the batch does not fit, write. */
    method AppendEncoded(batch: Batch, encoded: Bytes, id: Id, fault: Fault) returns (r: Result)
      requires Valid() && EncodeBatch(f, batch) == Some(encoded) && id != 0
      modifies this
      ensures Valid() && |batch.records| <= MAX_BATCH_RECORDS && 32 <= |encoded| <= MAX_BATCH_BYTES
      ensures (View(), r) == AppendStep(c, old(View()), batch, encoded, id, fault)
      ensures if r.Ok? then Acked(View()) == old(Acked(View())) + [batch] && r.base == old(logEnd)
              else Acked(View()) == old(Acked(View())) && logEnd == old(logEnd)
    {
      hide Inv, EncodeBatch, Acked, Limits, WriteStep;
      EncodedShape(f, batch);
      AppendKeeps(c, View(), batch, encoded, id, fault);
      AppendShape(c, View(), batch, encoded, id, fault);
      if unavailable { return Unavailable; }
      if batch.topic != topic || batch.partition != partition || batch.base != logEnd { return Mismatch; }
      var fits := FitsLimits(batch, encoded);
      if !fits { return TooLarge; }
      var active := segments[|segments| - 1];
      if |encoded| + active.size > options.segmentBytes {
        if active.records == 0 { return TooLarge; }
        var rolled := Roll(id, fault);
        if !rolled { return Unavailable; }
      }
      r := WriteActive(batch, encoded, fault);
    }

    /** Retention drops a prefix of sealed segments. */
    method Retire(n: nat)
      requires Valid() && !unavailable && n < |segments|
      modifies this
      ensures Valid() && View() == AfterRetire(old(View()), n)
      ensures Acked(View()) == old(Acked(View())) && logEnd == old(logEnd)
    {
      hide Inv, Flatten, Acked;
      CleanShape(c, View());
      RetireKeeps(c, View(), n);
      retired := retired + Flatten(log[..n]);
      segments, files, log := segments[n..], files[n..], log[n..];
    }
  }

  lemma FreshInv(c: Config, h: SegmentHeader)
    requires ValidSegmentHeader(h) && h.topic == c.topic && h.partition == c.partition && h.base == c.origin
    ensures var s := State([Empty(h)], h.base, false, [File(h.base, HeaderImage(c.f, h))], [Seg(h, [])], Clean, []);
            Inv(c, s) && Acked(s) == []
  {
    hide HeaderImage;
    HeaderOnly(c.f, Seg(h, []));
    EmptyView(c.f, h);
    var log := [Seg(h, [])];
    assert log[..0] == [] && Views(c.f, log) == [Empty(h)] && Flatten(log) == [];
  }

  lemma AppendShape(c: Config, s: State, batch: Batch, encoded: Bytes, id: Id, fault: Fault)
    requires Inv(c, s) && EncodeBatch(c.f, batch) == Some(encoded) && id != 0
    requires s.files != [] && s.segments != [] && s.log != [] && s.logEnd <= MAX_OFFSET
    requires |batch.records| <= MAX_BATCH_RECORDS && 32 <= |encoded| <= MAX_BATCH_BYTES
    ensures var n := AppendStep(c, s, batch, encoded, id, fault).0;
            |n.segments| == |n.log| && n.segments != [] && n.files != [] && |n.log| <= |n.files|
                && n.logEnd <= MAX_OFFSET
  {
    hide Inv, AppendStep, View, EncodeBatch;
    AppendKeeps(c, s, batch, encoded, id, fault);
    Shape(c, AppendStep(c, s, batch, encoded, id, fault).0);
  }
}
