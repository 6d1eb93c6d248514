/** A partition's segment chain: appends that roll, fail or tear, retention, and
    what reopening the directory finds after a crash. */
module PartitionLog {
  import opened Base
  import opened Codec
  import opened Batches
  import opened Segments

  // ------------------------------------------------------------ abstract chain

  /** One segment by what was written to it. */
  datatype Seg = Seg(header: SegmentHeader, batches: seq<Batch>)

  function EndOf(s: Seg): nat { s.header.base + CountRecords(s.batches) }

  predicate SegOk(f: Format, s: Seg, topic: Id, partition: u32) {
    && ValidSegmentHeader(s.header) && s.header.topic == topic && s.header.partition == partition
    && Contiguous(f, s.batches, topic, partition, s.header.base)
  }

  predicate Meets(a: Seg, b: Seg) { a.batches != [] && b.header.base == EndOf(a) }

  /** Adjacent segments meet and only the last may be empty. */
  predicate LogOk(f: Format, log: seq<Seg>, topic: Id, partition: u32) {
    && log != []
    && (forall i | 0 <= i < |log| :: SegOk(f, log[i], topic, partition))
    && (forall i | 0 < i < |log| :: Meets(log[i - 1], log[i]))
  }

  function Last(log: seq<Seg>): Seg
    requires log != []
  {
    log[|log| - 1]
  }

  function SegBytes(f: Format, s: Seg): Bytes { HeaderImage(f, s.header) + BatchesBytes(f, s.batches) }

  function View(f: Format, s: Seg): Segment { SegmentOf(f, s.header, s.batches) }

  function Views(f: Format, log: seq<Seg>): seq<Segment> {
    seq(|log|, i requires 0 <= i < |log| => View(f, log[i]))
  }

  lemma {:induction false} CountAppend(batches: seq<Batch>, next: Batch)
    ensures CountRecords(batches + [next]) == CountRecords(batches) + |next.records|
  {
    if batches == [] {
      assert batches + [next] == [next];
    } else {
      assert (batches + [next])[1..] == batches[1..] + [next];
      CountAppend(batches[1..], next);
    }
  }

  lemma {:induction false} ContiguousAppend(f: Format, batches: seq<Batch>, next: Batch, topic: Id, partition: u32,
                                            base: nat)
    requires Contiguous(f, batches, topic, partition, base) && EncodeBatch(f, next).Some?
    requires next.topic == topic && next.partition == partition && next.base == base + CountRecords(batches)
    ensures Contiguous(f, batches + [next], topic, partition, base)
    decreases batches
  {
    hide EncodeBatch;
    if batches == [] {
      assert batches + [next] == [next] && [next][1..] == [];
    } else {
      assert (batches + [next])[1..] == batches[1..] + [next];
      ContiguousAppend(f, batches[1..], next, topic, partition, base + |batches[0].records|);
    }
  }

  lemma {:induction false} BytesAppend(f: Format, batches: seq<Batch>, next: Batch)
    requires EncodeBatch(f, next).Some?
    ensures BatchesBytes(f, batches + [next]) == BatchesBytes(f, batches) + EncodeBatch(f, next).value
    decreases batches
  {
    hide EncodeBatch;
    if batches == [] {
      assert batches + [next] == [next] && [next][1..] == [];
    } else {
      assert (batches + [next])[1..] == batches[1..] + [next];
      BytesAppend(f, batches[1..], next);
    }
  }

  /** The end of a valid segment is still a legal base offset. */
  lemma {:induction false} ContiguousEnd(f: Format, batches: seq<Batch>, topic: Id, partition: u32, base: nat)
    requires Contiguous(f, batches, topic, partition, base) && base <= MAX_OFFSET
    ensures base + CountRecords(batches) <= MAX_OFFSET
    decreases batches
  {
    hide EncodeBatch;
    if batches != [] {
      EncodedShape(f, batches[0]);
      ContiguousEnd(f, batches[1..], topic, partition, base + |batches[0].records|);
    }
  }

  // -------------------------------------------------------------------- files

  datatype File = File(base: nat, data: Bytes)

  function FilesOf(f: Format, log: seq<Seg>): seq<File> {
    seq(|log|, i requires 0 <= i < |log| => File(log[i].header.base, SegBytes(f, log[i])))
  }

  /** What an interrupted append may leave behind: a published segment nobody
      uses yet, or a prefix of one batch in the active segment. */
  datatype Debris = Clean | Rolled(header: SegmentHeader) | Torn(batch: Batch, kept: nat)

  predicate DebrisOk(f: Format, log: seq<Seg>, d: Debris, topic: Id, partition: u32)
    requires log != []
  {
    match d
    case Clean => true
    case Rolled(h) => ValidSegmentHeader(h) && SegOk(f, Seg(h, []), topic, partition) && Meets(Last(log), Seg(h, []))
    case Torn(batch, kept) =>
      && batch.topic == topic && batch.partition == partition && batch.base == EndOf(Last(log))
      && EncodeBatch(f, batch).Some? && kept <= |EncodeBatch(f, batch).value|
  }

  function Directory(f: Format, log: seq<Seg>, d: Debris): seq<File>
    requires log != []
  {
    match d
    case Clean => FilesOf(f, log)
    case Rolled(h) => FilesOf(f, log) + [File(h.base, HeaderImage(f, h))]
    case Torn(batch, kept) =>
      FilesOf(f, log[..|log| - 1]) + [File(Last(log).header.base, SegBytes(f, Last(log)) + Part(f, batch, kept))]
  }

  /** openPartition over the files in base order; only the last may be torn. */
  function Open(f: Format, files: seq<File>, topic: Id, partition: u32, expected: nat): Option<seq<Segment>>
    decreases files
  {
    if files == [] then Some([])
    else if files[0].base != expected then None
    else match Recover(f, files[0].data, topic, partition, |files| == 1, expected)
      case None => None
      case Some(s) =>
        match Open(f, files[1..], topic, partition, s.end)
        case None => None
        case Some(rest) => Some([s] + rest)
  }

  lemma RecoverWhole(f: Format, s: Seg, topic: Id, partition: u32, final: bool)
    requires SegOk(f, s, topic, partition) && (final || s.batches != [])
    ensures Recover(f, SegBytes(f, s), topic, partition, final, s.header.base) == Some(View(f, s))
    ensures View(f, s).end == EndOf(s) && View(f, s).records == CountRecords(s.batches)
  {
    hide Scan, DecodeSegmentHeader, HeaderImage, Folded, EncodeBatch;
    var data := SegBytes(f, s);
    SegmentHeaderRoundTrip(f, s.header);
    var header := HeaderImage(f, s.header);
    assert data[..72] == header && data[72..] == BatchesBytes(f, s.batches) + [];
    ScanWritten(f, data, topic, partition, final, StartOf(s.header), s.batches, []);
    var n := Folded(f, s.batches, StartOf(s.header));
    assert n.position == |data|;
    ScanEnd(f, data, topic, partition, final, n);
    if s.batches != [] { EncodedShape(f, s.batches[0]); }
  }

  lemma {:induction false} ScanEnd(f: Format, data: Bytes, topic: Id, partition: u32, final: bool, s: Scanned)
    requires s.position == |data|
    ensures Scan(f, data, topic, partition, final, s) == Some(s)
  {
  }

  lemma {:induction false} OpenWhole(f: Format, log: seq<Seg>, rest: seq<File>, topic: Id, partition: u32)
    requires LogOk(f, log, topic, partition) && (rest != [] ==> Last(log).batches != [])
    ensures Open(f, FilesOf(f, log) + rest, topic, partition, log[0].header.base) ==
            match Open(f, rest, topic, partition, EndOf(Last(log)))
            case None => None
            case Some(more) => Some(Views(f, log) + more)
    decreases log
  {
    hide Recover, View, SegOk, SegBytes;
    var files := FilesOf(f, log) + rest;
    assert |log| > 1 ==> Meets(log[0], log[1]);
    RecoverWhole(f, log[0], topic, partition, |files| == 1);
    if |log| == 1 {
      assert files[1..] == rest;
      assert forall more: seq<Segment> :: [View(f, log[0])] + more == Views(f, log) + more;
    } else {
      LogTail(f, log, topic, partition);
      OpenWhole(f, log[1..], rest, topic, partition);
      assert files[1..] == FilesOf(f, log[1..]) + rest;
      var more := Open(f, rest, topic, partition, EndOf(Last(log)));
      assert more.Some? ==> [View(f, log[0])] + (Views(f, log[1..]) + more.value) == Views(f, log) + more.value;
    }
  }

  lemma LogTail(f: Format, log: seq<Seg>, topic: Id, partition: u32)
    requires LogOk(f, log, topic, partition) && |log| > 1
    ensures LogOk(f, log[1..], topic, partition)
  {
    hide SegOk, Meets;
    forall i | 0 < i < |log[1..]| ensures Meets(log[1..][i - 1], log[1..][i]) {
      assert Meets(log[i], log[i + 1]);
    }
  }

  lemma LogFront(f: Format, log: seq<Seg>, n: nat, topic: Id, partition: u32)
    requires LogOk(f, log, topic, partition) && 0 < n <= |log|
    ensures LogOk(f, log[..n], topic, partition)
  {
    hide SegOk, Meets;
  }

  function Grown(log: seq<Seg>, batch: Batch): seq<Seg>
    requires log != []
  {
    log[..|log| - 1] + [Seg(Last(log).header, Last(log).batches + [batch])]
  }

  lemma {:induction false} OpenLast(f: Format, file: File, topic: Id, partition: u32, expected: nat)
    requires file.base == expected
    ensures Open(f, [file], topic, partition, expected) ==
            match Recover(f, file.data, topic, partition, true, expected) case None => None case Some(s) => Some([s])
  {
    hide Recover;
    var files := [file];
    assert files[1..] == [];
    assert forall s: Segment :: [s] + [] == [s];
  }

  /** The chain before the last segment, then whatever the last one is. */
  lemma {:induction false} OpenFrontLast(f: Format, log: seq<Seg>, file: File, topic: Id, partition: u32)
    requires LogOk(f, log, topic, partition) && file.base == Last(log).header.base
    ensures Open(f, FilesOf(f, log[..|log| - 1]) + [file], topic, partition, log[0].header.base) ==
            match Recover(f, file.data, topic, partition, true, file.base)
            case None => None
            case Some(s) => Some(Views(f, log[..|log| - 1]) + [s])
  {
    hide Recover, SegOk, View, SegBytes;
    var n := |log| - 1;
    var front := log[..n];
    OpenLast(f, file, topic, partition, file.base);
    if n == 0 {
      assert FilesOf(f, front) + [file] == [file];
      assert forall s: Segment :: Views(f, front) + [s] == [s];
    } else {
      LogFront(f, log, n, topic, partition);
      assert Meets(log[n - 1], log[n]);
      OpenWhole(f, front, [file], topic, partition);
    }
  }

  /** Torn-write recovery of a whole partition: whatever an append or a roll left
      behind, reopening finds every acknowledged batch in place, and besides
      them nothing, an empty segment, or the one unacknowledged batch in full;
      it refuses exactly the tails of 1 to 47 bytes. */
  lemma {:induction false} ReopenAfterCrash(f: Format, log: seq<Seg>, d: Debris, topic: Id, partition: u32)
    requires LogOk(f, log, topic, partition) && DebrisOk(f, log, d, topic, partition)
    ensures Open(f, Directory(f, log, d), topic, partition, log[0].header.base) ==
            match d
            case Clean => Some(Views(f, log))
            case Rolled(h) => Some(Views(f, log + [Seg(h, [])]))
            case Torn(batch, kept) =>
              if kept == |EncodeBatch(f, batch).value| then Some(Views(f, Grown(log, batch)))
              else if kept == 0 || kept >= BATCH_HEADER_BYTES then Some(Views(f, log))
              else None
  {
    match d
    case Clean => ReopenClean(f, log, topic, partition);
    case Rolled(h) => ReopenRolled(f, log, h, topic, partition);
    case Torn(batch, kept) => ReopenTorn(f, log, batch, kept, topic, partition);
  }

  lemma {:induction false} ReopenClean(f: Format, log: seq<Seg>, topic: Id, partition: u32)
    requires LogOk(f, log, topic, partition)
    ensures Open(f, FilesOf(f, log), topic, partition, log[0].header.base) == Some(Views(f, log))
  {
    hide Recover, SegOk, View, SegBytes, Meets;
    OpenWhole(f, log, [], topic, partition);
    assert FilesOf(f, log) + [] == FilesOf(f, log) && Views(f, log) + [] == Views(f, log);
  }

  lemma {:induction false} ReopenRolled(f: Format, log: seq<Seg>, h: SegmentHeader, topic: Id, partition: u32)
    requires LogOk(f, log, topic, partition) && DebrisOk(f, log, Rolled(h), topic, partition)
    ensures Open(f, Directory(f, log, Rolled(h)), topic, partition, log[0].header.base) ==
            Some(Views(f, log + [Seg(h, [])]))
  {
    hide Recover, SegOk, View, SegBytes, HeaderImage;
    var s := Seg(h, []);
    RecoverWhole(f, s, topic, partition, true);
    HeaderOnly(f, s);
    var file := File(h.base, HeaderImage(f, h));
    OpenLast(f, file, topic, partition, h.base);
    OpenWhole(f, log, [file], topic, partition);
    assert Views(f, log + [s]) == Views(f, log) + [View(f, s)];
  }

  lemma HeaderOnly(f: Format, s: Seg)
    requires s.batches == []
    ensures SegBytes(f, s) == HeaderImage(f, s.header)
  {
  }

  lemma {:induction false} ReopenTorn(f: Format, log: seq<Seg>, batch: Batch, kept: nat, topic: Id, partition: u32)
    requires log != [] && LogOk(f, log, topic, partition) && DebrisOk(f, log, Torn(batch, kept), topic, partition)
    ensures Open(f, Directory(f, log, Torn(batch, kept)), topic, partition, log[0].header.base) ==
            if kept == |EncodeBatch(f, batch).value| then Some(Views(f, Grown(log, batch)))
            else if kept == 0 || kept >= BATCH_HEADER_BYTES then Some(Views(f, log))
            else None
  {
    hide Recover, EncodeBatch, SegmentOf, LogOk, Open, FilesOf, Part, Views, SegBytes, CountRecords, Contiguous,
         FileBytes, ValidSegmentHeader;
    var last := Last(log);
    var file := File(last.header.base, SegBytes(f, last) + Part(f, batch, kept));
    LastOk(f, log, topic, partition);
    RecoverTorn(f, last.header, last.batches, batch, kept);
    OpenFrontLast(f, log, file, topic, partition);
    TornImage(f, last, batch, kept);
    var front := log[..|log| - 1];
    assert log == front + [last];
    ViewsAppend(f, front, last);
    ViewsAppend(f, front, Seg(last.header, last.batches + [batch]));
  }

  lemma TornImage(f: Format, s: Seg, batch: Batch, kept: nat)
    ensures SegBytes(f, s) + Part(f, batch, kept) == FileBytes(f, s.header, s.batches, batch, kept)
  {
  }

  lemma ViewsAppend(f: Format, log: seq<Seg>, s: Seg)
    ensures Views(f, log + [s]) == Views(f, log) + [View(f, s)]
  {
    hide View;
  }

  lemma {:induction false} LastOk(f: Format, log: seq<Seg>, topic: Id, partition: u32)
    requires LogOk(f, log, topic, partition)
    ensures var s := Last(log);
            && ValidSegmentHeader(s.header) && s.header.topic == topic && s.header.partition == partition
            && Contiguous(f, s.batches, topic, partition, s.header.base)
  {
    assert SegOk(f, log[|log| - 1], topic, partition);
  }
}
