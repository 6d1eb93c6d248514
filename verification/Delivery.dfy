/** From the log to a poll: what a fetch returns, from the tail or from the
    segments, is a run of durable records that the delivery protocol may hand out. */
module Delivery {
  import opened Base
  import opened Codec
  import opened PartitionLog
  import opened Reads
  import opened Fetcher
  import opened Tail
  import Batches
  import ConsumerStore
  import Consumers

  /** The tail in front of a log holds the log's records. */
  ghost predicate Fronts(tail: TailedLog, log: seq<Seg>, topic: Id, partition: u32)
    requires log != []
    reads tail, tail.ring, tail.ring.slots
  {
    && tail.Valid() && tail.topic == topic && tail.partition == partition
    && tail.start == log[0].header.base && tail.logEnd == EndOf(Last(log))
    && tail.history[tail.start - tail.origin..] == LogRecords(log)
  }

  /** A legal answer to a fetch: a prefix of the records at or above the offset,
      within the limits and not empty while there are any, and the offset after it. */
  ghost predicate Legal(r: Fetched, above: seq<Record>, offset: nat, lim: Limits)
    requires r.Fetched?
  {
    && |r.records| <= |above| && r.records == above[..|r.records|]
    && Fits(above, |r.records|, lim) && (r.records == [] <==> above == []) && r.next == offset + |r.records|
  }

  /** Fetch: one cached batch if the tail can answer, otherwise the segments. */
  method FetchRecords(f: Format, files: seq<Readable>, ghost log: seq<Seg>, tail: TailedLog, topic: Id, partition: u32,
                      offset: u64, maxRecords: u32, maxBytes: u64, contended: bool)
    returns (r: Fetched)
    requires LogOk(f, log, topic, partition) && Shows(f, files, log) && Indexed(f, log, Indexes(files))
    requires Fronts(tail, log, topic, partition)
    ensures r.InvalidLimits? <==> maxRecords > Batches.MAX_BATCH_RECORDS || maxBytes > Batches.MAX_BATCH_BYTES
    ensures r.OutOfRange? <==> !r.InvalidLimits? && !(log[0].header.base <= offset <= EndOf(Last(log)))
    ensures !r.InvalidLimits? && !r.OutOfRange? ==>
              var lim := Normalize(maxRecords, maxBytes).value;
              var above := Above(LogRecords(log), log[0].header.base, offset);
              && (r.LimitTooSmall? <==> above != [] && RecordSize(above[0]) > lim.maxBytes.value)
              && (r.Fetched? ==>
                  Legal(r, above, offset, lim) && Numbered(r.records, offset) && r.next <= EndOf(Last(log)))
  {
    hide SegOk, LogRecords, Above, SegBytes, View, EndOf, RecordSize, Numbered, TailedLog.Valid, Shows, FeedAll,
         Outcome;
    var lim := Normalize(maxRecords, maxBytes);
    if lim.None? { return InvalidLimits; }
    ShowsEnds(f, files, log);
    if offset < files[0].base || offset > files[|files| - 1].end { return OutOfRange; }
    var hit := TailFetch(f, log, tail, topic, partition, offset, lim.value, contended);
    r := if hit.Some? then hit.value else LimitTooSmall;
    if hit.None? {
      r := Fetch(f, files, log, topic, partition, offset, maxRecords, maxBytes);
      if r.Fetched? { LongestIsLegal(f, log, topic, partition, offset, lim.value, r); }
    }
  }

  lemma ShowsEnds(f: Format, files: seq<Readable>, log: seq<Seg>)
    requires log != [] && Shows(f, files, log)
    ensures |files| == |log| && files[0].base == log[0].header.base && files[|files| - 1].end == EndOf(Last(log))
  {
  }

  lemma {:induction false} LongestIsLegal(f: Format, log: seq<Seg>, topic: Id, partition: u32, offset: nat, lim: Limits,
                                          r: Fetched)
    requires LogOk(f, log, topic, partition) && log[0].header.base <= offset <= EndOf(Last(log)) && r.Fetched?
    requires lim.maxRecords > 0 && lim.maxBytes.Some?
    requires var above := Above(LogRecords(log), log[0].header.base, offset);
             && |r.records| <= |above| && r.records == above[..|r.records|] && r.next == offset + |r.records|
             && Longest(above, |r.records|, lim) && !(above != [] && RecordSize(above[0]) > lim.maxBytes.value)
    ensures Legal(r, Above(LogRecords(log), log[0].header.base, offset), offset, lim)
    ensures Numbered(r.records, offset) && r.next <= EndOf(Last(log))
  {
    hide SegOk, LogRecords, RecordSize, EndOf;
    var above := Above(LogRecords(log), log[0].header.base, offset);
    LogNumbered(f, log, topic, partition);
    if above != [] {
      SizesNext(above, 0);
      SizesNone(above);
    }
  }

  /** The tail's answer: one cached batch, which may end before the limits do. */
  method TailFetch(f: Format, ghost log: seq<Seg>, tail: TailedLog, topic: Id, partition: u32, offset: u64, lim: Limits,
                   contended: bool)
    returns (r: Option<Fetched>)
    requires LogOk(f, log, topic, partition) && Fronts(tail, log, topic, partition)
    requires log[0].header.base <= offset <= EndOf(Last(log)) && lim.maxRecords > 0 && lim.maxBytes.Some?
    ensures r.Some? ==>
              var above := Above(LogRecords(log), log[0].header.base, offset);
              && (r.value.LimitTooSmall? || r.value.Fetched?)
              && (r.value.LimitTooSmall? <==> above != [] && RecordSize(above[0]) > lim.maxBytes.value)
              && (r.value.Fetched? ==>
                    Legal(r.value, above, offset, lim) && Numbered(r.value.records, offset)
                    && r.value.next <= EndOf(Last(log)))
  {
    hide SegOk, LogRecords, Above, EndOf, RecordSize, TailedLog.Valid, FeedAll, Outcome, Legal, Numbered, Answers;
    var p := tail.Fetch(offset, lim, contended);
    if p.None? { return None; }
    HitIsLegal(f, log, topic, partition, offset, lim, p.value);
    if p.value.status.TooSmall? { return Some(LimitTooSmall); }
    r := Some(Fetched(p.value.records, p.value.records[|p.value.records| - 1].offset + 1));
  }

  lemma {:induction false} HitIsLegal(f: Format, log: seq<Seg>, topic: Id, partition: u32, offset: nat, lim: Limits,
                                      p: Progress)
    requires LogOk(f, log, topic, partition) && log[0].header.base <= offset <= EndOf(Last(log))
    requires lim.maxRecords > 0 && lim.maxBytes.Some?
    requires var scan := FeedAll(START, LogRecords(log), offset, lim);
             && p.records <= scan.records && (p.status.TooSmall? <==> scan.status.TooSmall?)
             && (p.records == [] <==> p.status.TooSmall?)
    ensures var above := Above(LogRecords(log), log[0].header.base, offset);
            && (p.status.TooSmall? <==> above != [] && RecordSize(above[0]) > lim.maxBytes.value)
            && (!p.status.TooSmall? ==>
                  && p.records != [] && p.records[|p.records| - 1].offset + 1 == offset
                     + |p.records| <= EndOf(Last(log))
                  && Legal(Fetched(p.records, offset + |p.records|), above, offset, lim) && Numbered(p.records, offset))
  {
    hide SegOk, LogRecords, RecordSize, EndOf, FeedAll;
    var scan, above := FeedAll(START, LogRecords(log), offset, lim), Above(LogRecords(log), log[0].header.base, offset);
    LogNumbered(f, log, topic, partition);
    ScanMeans(LogRecords(log), log[0].header.base, offset, lim);
    SizesMonotone(above, |p.records|, |scan.records|);
  }

  // -------------------------------------------------------------------- polling

  /** The deliveries a list of records stands for. */
  function DeliveriesOf(c: Consumers.Cursor, records: seq<Record>): set<Consumers.Delivery> {
    set r | r in records :: Consumers.Delivery(c.group, c.key, r.offset)
  }

  /** Numbered durable records from the cursor on are a legal fetch of a poll, and
      handing them out is handing out exactly those offsets. */
  lemma FetchIsPoll(w: Consumers.World, at: nat, records: seq<Record>, next: u64)
    requires at < |w.cursors| && w.cursors[at].stage.Begun? && w.cursors[at].key in w.parts
    requires var c := w.cursors[at];
             && Numbered(records, c.next) && next == c.next + |records|
             && w.parts[c.key].start <= c.next && next <= w.parts[c.key].end
    ensures var c := w.cursors[at];
            && Consumers.DoPoll(w, Consumers.PollFetch(at, next)) ==
               Consumers.Put(w, at, c.(stage := Consumers.Fetched(next)))
            && Consumers.Returned(c, next) == DeliveriesOf(c, records)
  {
    var c := w.cursors[at];
    forall o: u64 | c.next <= o < next ensures Consumers.Delivery(c.group, c.key, o) in DeliveriesOf(c, records) {
      assert records[o - c.next] in records && records[o - c.next].offset == o;
    }
  }

  /** The middle section of Poll: reads the partition without the store's lock and
      keeps what it found, or gives up with the error. */
  method PollRecords(store: ConsumerStore.GroupStore, at: nat, f: Format, files: seq<Readable>, ghost log: seq<Seg>,
                     tail: TailedLog, maxRecords: u32, maxBytes: u64, contended: bool)
    returns (r: Fetched)
    requires at < |store.cursors| && store.cursors[at].stage.Begun? && store.cursors[at].key in store.parts
    requires var key := store.cursors[at].key;
             && LogOk(f, log, key.topic, key.partition) && Fronts(tail, log, key.topic, key.partition)
             && store.parts[key].start == log[0].header.base && store.parts[key].end == EndOf(Last(log))
    requires Shows(f, files, log) && Indexed(f, log, Indexes(files))
    modifies store
    ensures r.Fetched? ==>
              && r.next <= MAX_U64
              && store.View() == Consumers.DoPoll(old(store.View()), Consumers.PollFetch(at, r.next))
              && store.cursors == old(store.cursors)[at := old(store.cursors)[at].(stage := Consumers.Fetched(r.next))]
              && Consumers.Returned(old(store.cursors)[at], r.next) == DeliveriesOf(old(store.cursors)[at], r.records)
    ensures !r.Fetched? ==> store.View() == Consumers.DoPoll(old(store.View()), Consumers.PollAbort(at))
  {
    hide LogOk, Fronts, Shows, EndOf, Above, RecordSize, Fits, LogRecords, Numbered, DeliveriesOf;
    var c := store.cursors[at];
    r := FetchRecords(f, files, log, tail, c.key.topic, c.key.partition, c.next, maxRecords, maxBytes, contended);
    if r.Fetched? {
      FetchIsPoll(store.View(), at, r.records, r.next);
      store.PollRead(at, r.next);
    } else {
      store.PollFail(at);
    }
  }
}
