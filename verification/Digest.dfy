/** The projection-prefix digest: a running hash extended by every append, and the
    re-read of the log it must agree with. */
module Digest {
  import opened Base
  import opened Wire
  import opened Codec
  import opened Batches
  import opened Segments
  import opened PartitionLog
  import opened PartitionEngine
  import opened Reads

  /** "IEL-PROJECTION-PREFIX-V1" and a zero byte. */
  const PRELUDE: Bytes := [0x49, 0x45, 0x4C, 0x2D, 0x50, 0x52, 0x4F, 0x4A, 0x45, 0x43, 0x54, 0x49, 0x4F, 0x4E, 0x2D,
                           0x50, 0x52, 0x45, 0x46, 0x49, 0x58, 0x2D, 0x56, 0x31, 0x00]

  /** What a digest has absorbed before any batch: the identity of the log. */
  function Prelude(store: Id, topic: Id, partition: u32): Bytes {
    PRELUDE + IdBytes(store) + IdBytes(topic) + Le32(partition)
  }

  function Sealed(sha: Bytes -> Hash, absorbed: Bytes, next: u64): Hash { sha(absorbed + Le64(next)) }

  /** The bytes of the batches from `base` up to `next`, if that is a boundary. */
  function PrefixBytes(f: Format, batches: seq<Batch>, base: nat, next: nat): Option<Bytes>
    decreases batches
  {
    if next == base then Some([])
    else if batches == [] || next < base + |batches[0].records| then None
    else match EncodeBatch(f, batches[0])
      case None => None
      case Some(e) =>
        match PrefixBytes(f, batches[1..], base + |batches[0].records|, next)
        case None => None
        case Some(rest) => Some(e + rest)
  }

  // ------------------------------------------------------------------ re-read

  /** The offset covered and the bytes absorbed so far. */
  datatype Running = Running(covered: nat, absorbed: Bytes)

  /** One batch of the re-read. */
  function Absorb(r: Running, base: nat, end: nat, bytes: Bytes, next: nat): Option<Running> {
    if end > next then if base < next then None else Some(r)
    else if end <= r.covered then Some(r)
    else if base != r.covered then None
    else Some(Running(end, r.absorbed + bytes))
  }

  function AbsorbInfos(r: Running, data: Bytes, infos: seq<BatchInfo>, next: nat): Option<Running>
    decreases infos
  {
    if infos == [] then Some(r)
    else
      var i := infos[0];
      if i.position + i.bytes > |data| then None
      else match Absorb(r, i.base, i.base + i.records, data[i.position..i.position + i.bytes], next)
        case None => None
        case Some(n) => AbsorbInfos(n, data, infos[1..], next)
  }

  function AbsorbSegments(r: Running, segments: seq<Segment>, files: seq<File>, next: nat): Option<Running>
    requires |segments| == |files|
    decreases segments
  {
    if segments == [] then Some(r)
    else match AbsorbInfos(r, files[0].data, segments[0].batches, next)
      case None => None
      case Some(n) => AbsorbSegments(n, segments[1..], files[1..], next)
  }

  /** The same on the batches themselves. */
  function AbsorbBatches(f: Format, r: Running, batches: seq<Batch>, next: nat): Option<Running>
    decreases batches
  {
    if batches == [] then Some(r)
    else match Absorb(r, batches[0].base, batches[0].base + |batches[0].records|, Part(f, batches[0], MAX_BATCH_BYTES),
                      next)
      case None => None
      case Some(n) => AbsorbBatches(f, n, batches[1..], next)
  }

  lemma {:induction false} AbsorbSplit(f: Format, r: Running, a: seq<Batch>, b: seq<Batch>, next: nat)
    ensures AbsorbBatches(f, r, a + b, next) ==
            match AbsorbBatches(f, r, a, next) case None => None case Some(n) => AbsorbBatches(f, n, b, next)
    decreases a
  {
    hide Absorb, Part;
    if a == [] {
      assert a + b == b;
    } else {
      assert (a + b)[0] == a[0] && (a + b)[1..] == a[1..] + b;
      var n := Absorb(r, a[0].base, a[0].base + |a[0].records|, Part(f, a[0], MAX_BATCH_BYTES), next);
      if n.Some? { AbsorbSplit(f, n.value, a[1..], b, next); }
    }
  }

  /** The file shows each batch where its entry says. */
  predicate Shows(f: Format, data: Bytes, batches: seq<Batch>, infos: seq<BatchInfo>) {
    && |infos| == |batches|
    && forall j | 0 <= j < |infos| ::
         && infos[j].base == batches[j].base && infos[j].records == |batches[j].records|
         && infos[j].position + infos[j].bytes <= |data|
         && data[infos[j].position..infos[j].position + infos[j].bytes] == Part(f, batches[j], MAX_BATCH_BYTES)
  }

  lemma {:induction false} InfosAreBatches(f: Format, r: Running, data: Bytes, batches: seq<Batch>,
                                           infos: seq<BatchInfo>, next: nat)
    requires Shows(f, data, batches, infos)
    ensures AbsorbInfos(r, data, infos, next) == AbsorbBatches(f, r, batches, next)
    decreases batches
  {
    hide Absorb, Part;
    if batches != [] {
      assert Shows(f, data, batches[1..], infos[1..]) by {
        forall j | 0 <= j < |infos[1..]|
          ensures && infos[1..][j].base == batches[1..][j].base && infos[1..][j].records == |batches[1..][j].records|
                  && infos[1..][j].position + infos[1..][j].bytes <= |data|
                  && data[infos[1..][j].position..infos[1..][j].position + infos[1..][j].bytes] ==
                     Part(f, batches[1..][j], MAX_BATCH_BYTES)
        {
          assert infos[1..][j] == infos[j + 1] && batches[1..][j] == batches[j + 1];
        }
      }
      var n := Absorb(r, batches[0].base, batches[0].base + |batches[0].records|, Part(f, batches[0], MAX_BATCH_BYTES),
                      next);
      if n.Some? { InfosAreBatches(f, n.value, data, batches[1..], infos[1..], next); }
    }
  }

  /** A written segment shows its batches. */
  lemma {:induction false} SegmentShows(f: Format, seg: Seg, topic: Id, partition: u32)
    requires SegOk(f, seg, topic, partition)
    ensures Shows(f, SegBytes(f, seg), seg.batches, View(f, seg).batches)
  {
    hide Contiguous, EncodeBatch, BatchesBytes, CountRecords, Folded, HeaderImage;
    var infos, batches, base := View(f, seg).batches, seg.batches, seg.header.base;
    var data := SegBytes(f, seg);
    InfoCount(f, seg, topic, partition);
    forall j | 0 <= j < |infos|
      ensures && infos[j].base == batches[j].base && infos[j].records == |batches[j].records|
              && infos[j].position + infos[j].bytes <= |data|
              && data[infos[j].position..infos[j].position + infos[j].bytes] == Part(f, batches[j], MAX_BATCH_BYTES)
    {
      InfoAt(f, batches, StartOf(seg.header), topic, partition, base, j);
      InfoBytes(f, batches, StartOf(seg.header), topic, partition, base, j);
      BatchBase(f, batches, topic, partition, base, j);
      ContiguousSplit(f, batches, topic, partition, base, j);
      BytesSplit(f, batches, j);
      var back := batches[j..];
      var e := EncodeBatch(f, batches[j]).value;
      assert BatchesBytes(f, back)[..|e|] == e && |e| <= |BatchesBytes(f, back)| by { FirstBytes(f, back); }
      var p := 72 + |BatchesBytes(f, batches[..j])|;
      assert data == HeaderImage(f, seg.header) + (BatchesBytes(f, batches[..j]) + BatchesBytes(f, back));
      assert data[p..] == BatchesBytes(f, back);
      assert data[p..p + |e|] == data[p..][..|e|];
    }
  }

  lemma {:induction false} FirstBytes(f: Format, batches: seq<Batch>)
    requires batches != [] && EncodeBatch(f, batches[0]).Some?
    ensures var e := EncodeBatch(f, batches[0]).value;
            |e| <= |BatchesBytes(f, batches)| && BatchesBytes(f, batches)[..|e|] == e
  {
    hide EncodeBatch;
  }

  lemma {:induction false} InfoBytes(f: Format, batches: seq<Batch>, s: Scanned, topic: Id, partition: u32, base: nat,
                                     j: nat)
    requires Contiguous(f, batches, topic, partition, base) && j < |batches|
    ensures var n := Folded(f, batches, s);
            && |n.batches| == |s.batches| + |batches| && EncodeBatch(f, batches[j]).Some?
            && n.batches[|s.batches| + j].bytes == |EncodeBatch(f, batches[j]).value|
            && Part(f, batches[j], MAX_BATCH_BYTES) == EncodeBatch(f, batches[j]).value
    decreases batches
  {
    hide EncodeBatch, MaxTimestamp;
    EncodedShape(f, batches[0]);
    var t := Next(f, s, batches[0]);
    if j == 0 {
      WholePart(f, batches[0]);
      InfoAt(f, batches, s, topic, partition, base, 0);
      if |batches| > 1 {
        InfoAt(f, batches[1..], t, topic, partition, base + |batches[0].records|, 0);
        var n := Folded(f, batches, s);
        assert n.batches[|s.batches|] == n.batches[..|t.batches|][|s.batches|];
      } else {
        assert batches[1..] == [];
      }
    } else {
      InfoBytes(f, batches[1..], t, topic, partition, base + |batches[0].records|, j - 1);
    }
  }

  lemma WholePart(f: Format, batch: Batch)
    requires EncodeBatch(f, batch).Some?
    ensures Part(f, batch, MAX_BATCH_BYTES) == EncodeBatch(f, batch).value
  {
    hide EncodeBatch;
    EncodedShape(f, batch);
    var e := EncodeBatch(f, batch).value;
    assert e[..|e|] == e;
  }

  function LogBatches(log: seq<Seg>): seq<Batch> {
    if log == [] then [] else log[0].batches + LogBatches(log[1..])
  }

  lemma ViewsFiles(f: Format, log: seq<Seg>)
    ensures |Views(f, log)| == |log| == |FilesOf(f, log)|
    ensures log != [] ==>
              && Views(f, log)[0] == View(f, log[0]) && FilesOf(f, log)[0].data == SegBytes(f, log[0])
              && Views(f, log)[1..] == Views(f, log[1..]) && FilesOf(f, log)[1..] == FilesOf(f, log[1..])
  {
    hide View, SegBytes;
  }

  lemma {:induction false} AbsorbNone(f: Format, r: Running, next: nat)
    ensures AbsorbBatches(f, r, [], next) == Some(r)
  {
  }

  lemma {:induction false} SegmentsAreBatches(f: Format, r: Running, log: seq<Seg>, topic: Id, partition: u32,
                                              next: nat)
    requires forall i | 0 <= i < |log| :: SegOk(f, log[i], topic, partition)
    ensures AbsorbSegments(r, Views(f, log), FilesOf(f, log), next) == AbsorbBatches(f, r, LogBatches(log), next)
    decreases log
  {
    hide Absorb, AbsorbInfos, SegBytes, View, SegOk, Shows, AbsorbBatches, Views, FilesOf;
    ViewsFiles(f, log);
    if log == [] {
      AbsorbNone(f, r, next);
    } else {
      SegmentShows(f, log[0], topic, partition);
      InfosAreBatches(f, r, SegBytes(f, log[0]), log[0].batches, View(f, log[0]).batches, next);
      AbsorbSplit(f, r, log[0].batches, LogBatches(log[1..]), next);
      var n := AbsorbBatches(f, r, log[0].batches, next);
      if n.Some? { SegmentsAreBatches(f, n.value, log[1..], topic, partition, next); }
    }
  }

  // ----------------------------------------------------------------- agreement

  lemma {:induction false} AbsorbPast(f: Format, r: Running, batches: seq<Batch>, topic: Id, partition: u32, base: nat,
                                      next: nat)
    requires Contiguous(f, batches, topic, partition, base) && next <= base
    ensures AbsorbBatches(f, r, batches, next) == Some(r)
    decreases batches
  {
    hide EncodeBatch, Part;
    if batches != [] {
      EncodedShape(f, batches[0]);
      AbsorbPast(f, r, batches[1..], topic, partition, base + |batches[0].records|, next);
    }
  }

  /** The re-read reaches `next` exactly when it is a batch boundary, and then it has
      absorbed exactly the batches below it. */
  lemma {:induction false} RereadMeans(f: Format, r: Running, batches: seq<Batch>, topic: Id, partition: u32, next: nat)
    requires Contiguous(f, batches, topic, partition, r.covered)
    ensures var n, p := AbsorbBatches(f, r, batches, next), PrefixBytes(f, batches, r.covered, next);
            && (n.Some? && n.value.covered == next <==> p.Some?)
            && (p.Some? ==> n.value.absorbed == r.absorbed + p.value)
    decreases batches
  {
    hide EncodeBatch, Part;
    if batches == [] {
      assert r.absorbed + [] == r.absorbed;
    } else {
      var b := batches[0];
      EncodedShape(f, b);
      WholePart(f, b);
      var e := EncodeBatch(f, b).value;
      var end := r.covered + |b.records|;
      if next == r.covered {
        AbsorbPast(f, r, batches, topic, partition, r.covered, next);
        assert r.absorbed + [] == r.absorbed;
      } else if next < end {
        if next < r.covered { AbsorbPast(f, r, batches, topic, partition, r.covered, next); }
      } else {
        var n := Running(end, r.absorbed + e);
        RereadMeans(f, n, batches[1..], topic, partition, next);
        var p := PrefixBytes(f, batches[1..], end, next);
        assert p.Some? ==> r.absorbed + e + p.value == r.absorbed + (e + p.value);
      }
    }
  }

  lemma {:induction false} WholePrefix(f: Format, batches: seq<Batch>, topic: Id, partition: u32, base: nat)
    requires Contiguous(f, batches, topic, partition, base)
    ensures PrefixBytes(f, batches, base, base + CountRecords(batches)) == Some(BatchesBytes(f, batches))
    decreases batches
  {
    hide EncodeBatch;
    if batches != [] {
      EncodedShape(f, batches[0]);
      WholePrefix(f, batches[1..], topic, partition, base + |batches[0].records|);
    }
  }

  /** Appending a batch extends the whole prefix by its bytes. */
  lemma {:induction false} PrefixAppend(f: Format, batches: seq<Batch>, batch: Batch, topic: Id, partition: u32,
                                        base: nat)
    requires Contiguous(f, batches, topic, partition, base) && EncodeBatch(f, batch).Some?
    requires batch.topic == topic && batch.partition == partition && batch.base == base + CountRecords(batches)
    ensures PrefixBytes(f, batches, base, base + CountRecords(batches)) == Some(BatchesBytes(f, batches))
    ensures PrefixBytes(f, batches + [batch], base, base + CountRecords(batches) + |batch.records|) ==
            Some(BatchesBytes(f, batches) + EncodeBatch(f, batch).value)
  {
    hide EncodeBatch, BatchesBytes, Contiguous, CountRecords, PrefixBytes;
    ContiguousAppend(f, batches, batch, topic, partition, base);
    CountAppend(batches, batch);
    BytesAppend(f, batches, batch);
    WholePrefix(f, batches, topic, partition, base);
    WholePrefix(f, batches + [batch], topic, partition, base);
  }

  // ------------------------------------------------------------------- object

  datatype Cache = Cache(store: Id, running: Running)

  /** projectionPrefixDigest and extendPrefixDigestLocked over one partition. */
  class Digester {
    const f: Format
    const sha: Bytes -> Hash
    const topic: Id
    const partition: u32
    const system: bool
    var cache: Option<Cache>

    constructor (f: Format, sha: Bytes -> Hash, topic: Id, partition: u32, system: bool)
      ensures cache == None && this.f == f && this.sha == sha && this.topic == topic && this.partition == partition
    {
      this.f, this.sha, this.topic, this.partition, this.system := f, sha, topic, partition, system;
      cache := None;
    }

    /** The cache has absorbed the identity and then exactly the batches of the log
        below the offset it covers. */
    ghost predicate Valid(log: seq<Seg>)
      reads this
    {
      && LogOk(f, log, topic, partition)
      && (cache.Some? ==>
            var r := cache.value.running;
            var p := PrefixBytes(f, LogBatches(log), log[0].header.base, r.covered);
            && r.covered == EndOf(Last(log)) && p.Some?
            && r.absorbed == Prelude(cache.value.store, topic, partition) + p.value)
    }

    /** An append continues the cached prefix, or drops the cache. */
    method Extend(base: nat, encoded: Bytes, logEnd: nat)
      modifies this
      ensures old(cache).None? ==> cache == None
      ensures old(cache).Some? ==>
                cache == if old(cache).value.running.covered != base then None
                         else Some(Cache(old(cache).value.store,
                                         Running(logEnd, old(cache).value.running.absorbed + encoded)))
    {
      if cache.None? { return; }
      if cache.value.running.covered != base {
        cache := None;
        return;
      }
      cache := Some(Cache(cache.value.store, Running(logEnd, cache.value.running.absorbed + encoded)));
    }

    /** A durable append, after any roll: the cache now covers the grown log. */
    method OnAppend(ghost log: seq<Seg>, batch: Batch, encoded: Bytes)
      requires Valid(log) && EncodeBatch(f, batch) == Some(encoded)
               && DebrisOk(f, log, Torn(batch, 0), topic, partition)
      modifies this
      ensures Valid(Grown(log, batch))
      ensures old(cache).Some? ==> cache.Some? && cache.value.store == old(cache).value.store
    {
      hide PrefixBytes, Prelude, EncodeBatch, LogBatches, SegOk, Grown;
      ghost var was := cache;
      GrownOk(f, log, batch, topic, partition);
      GrownFirst(log, batch);
      if was.Some? { ExtendKeeps(f, log, batch, topic, partition, was.value.store, was.value.running); }
      Extend(batch.base, encoded, batch.base + |batch.records|);
    }

    /** A roll adds no batch and changes no digest. */
    lemma RollKeeps(log: seq<Seg>, h: SegmentHeader)
      requires Valid(log) && DebrisOk(f, log, Rolled(h), topic, partition)
      ensures Valid(log + [Seg(h, [])])
    {
      hide PrefixBytes, Prelude, LogBatches, SegOk;
      RolledOk(f, log, h, topic, partition);
      BatchesRolled(log, h);
      EndOfEmpty(h);
    }

    /** Retention drops the cache. */
    method Drop()
      modifies this
      ensures cache == None
    {
      cache := None;
    }

    /** The digest of the prefix that ends at `next`: from the cache when it covers
        exactly that, otherwise from a re-read, and the same either way. */
    method Compute(segments: seq<Segment>, files: seq<File>, ghost log: seq<Seg>, store: Id, next: u64, logEnd: nat)
      returns (r: Option<Hash>)
      requires Valid(log) && segments == Views(f, log) && files == FilesOf(f, log) && logEnd == EndOf(Last(log))
      modifies this
      ensures Valid(log)
      ensures var p := PrefixBytes(f, LogBatches(log), log[0].header.base, next);
              r == if next > logEnd || p.None? then None
                   else Some(Sealed(sha, Prelude(store, topic, partition) + p.value, next))
    {
      hide PrefixBytes, AbsorbSegments, Prelude, LogBatches, Views, FilesOf, SegOk;
      if next > logEnd { return None; }
      if cache.Some? && cache.value.store == store && cache.value.running.covered == next {
        return Some(Sealed(sha, cache.value.running.absorbed, next));
      }
      FirstBase(f, log);
      var start := Running(segments[0].header.base, Prelude(store, topic, partition));
      var done := AbsorbAll(start, segments, files, next);
      Reread(f, log, topic, partition, Prelude(store, topic, partition), next);
      if done.None? || done.value.covered != next { return None; }
      if system && done.value.covered == logEnd { cache := Some(Cache(store, done.value)); }
      r := Some(Sealed(sha, done.value.absorbed, next));
    }
  }

  lemma GrownFirst(log: seq<Seg>, batch: Batch)
    requires log != []
    ensures Grown(log, batch) != [] && Grown(log, batch)[0].header == log[0].header
  {
  }

  lemma FirstBase(f: Format, log: seq<Seg>)
    requires log != []
    ensures |Views(f, log)| == |log| == |FilesOf(f, log)| && Views(f, log)[0].header.base == log[0].header.base
  {
  }

  lemma {:induction false} Reread(f: Format, log: seq<Seg>, topic: Id, partition: u32, prelude: Bytes, next: nat)
    requires LogOk(f, log, topic, partition)
    ensures var n := AbsorbSegments(Running(log[0].header.base, prelude), Views(f, log), FilesOf(f, log), next);
            var p := PrefixBytes(f, LogBatches(log), log[0].header.base, next);
            && (n.Some? && n.value.covered == next <==> p.Some?)
            && (p.Some? ==> n.value.absorbed == prelude + p.value)
  {
    hide SegOk, Views, FilesOf, PrefixBytes, AbsorbSegments, AbsorbBatches, Contiguous;
    var r := Running(log[0].header.base, prelude);
    SegmentsAreBatches(f, r, log, topic, partition, next);
    LogContiguous(f, log, topic, partition);
    RereadMeans(f, r, LogBatches(log), topic, partition, next);
  }

  lemma {:induction false} ContiguousJoin(f: Format, a: seq<Batch>, b: seq<Batch>, topic: Id, partition: u32, base: nat)
    requires Contiguous(f, a, topic, partition, base) && Contiguous(f, b, topic, partition, base + CountRecords(a))
    ensures Contiguous(f, a + b, topic, partition, base) && CountRecords(a + b) == CountRecords(a) + CountRecords(b)
    decreases a
  {
    hide EncodeBatch;
    if a == [] {
      assert a + b == b;
    } else {
      assert (a + b)[0] == a[0] && (a + b)[1..] == a[1..] + b;
      ContiguousJoin(f, a[1..], b, topic, partition, base + |a[0].records|);
    }
  }

  lemma {:induction false} LogContiguous(f: Format, log: seq<Seg>, topic: Id, partition: u32)
    requires LogOk(f, log, topic, partition)
    ensures Contiguous(f, LogBatches(log), topic, partition, log[0].header.base)
    ensures log[0].header.base + CountRecords(LogBatches(log)) == EndOf(Last(log))
    decreases log
  {
    hide Contiguous, CountRecords;
    assert SegOk(f, log[0], topic, partition);
    if |log| == 1 {
      assert log[1..] == [] && log[0].batches + [] == log[0].batches;
    } else {
      assert Meets(log[0], log[1]);
      LogTail(f, log, topic, partition);
      LogContiguous(f, log[1..], topic, partition);
      ContiguousJoin(f, log[0].batches, LogBatches(log[1..]), topic, partition, log[0].header.base);
    }
  }

  method AbsorbFile(start: Running, data: Bytes, infos: seq<BatchInfo>, next: nat) returns (r: Option<Running>)
    ensures r == AbsorbInfos(start, data, infos, next)
  {
    var n := start;
    assert infos[0..] == infos;
    for i := 0 to |infos|
      invariant AbsorbInfos(start, data, infos, next) == AbsorbInfos(n, data, infos[i..], next)
    {
      var b := infos[i];
      assert infos[i..][0] == b && infos[i..][1..] == infos[i + 1..];
      if b.position + b.bytes > |data| { return None; }
      var end := b.base + b.records;
      if end > next {
        if b.base < next { return None; }
      } else if end > n.covered {
        if b.base != n.covered { return None; }
        n := Running(end, n.absorbed + data[b.position..b.position + b.bytes]);
      }
    }
    r := Some(n);
  }

  method AbsorbAll(start: Running, segments: seq<Segment>, files: seq<File>, next: nat) returns (r: Option<Running>)
    requires |segments| == |files|
    ensures r == AbsorbSegments(start, segments, files, next)
  {
    hide AbsorbInfos;
    var n := start;
    assert segments[0..] == segments && files[0..] == files;
    for i := 0 to |segments|
      invariant AbsorbSegments(start, segments, files, next) == AbsorbSegments(n, segments[i..], files[i..], next)
    {
      assert segments[i..][0] == segments[i] && segments[i..][1..] == segments[i + 1..] && files[i..][0] == files[i]
             && files[i..][1..] == files[i + 1..];
      var done := AbsorbFile(n, files[i].data, segments[i].batches, next);
      if done.None? { return None; }
      n := done.value;
    }
    r := Some(n);
  }

  // ------------------------------------------------------ appends keep the cache

  lemma {:induction false} BatchesGrown(log: seq<Seg>, batch: Batch)
    requires log != []
    ensures LogBatches(Grown(log, batch)) == LogBatches(log) + [batch]
    decreases log
  {
    var g := Grown(log, batch);
    if |log| == 1 {
      assert log[1..] == [] && g[1..] == [];
    } else {
      assert g[0] == log[0] && g[1..] == Grown(log[1..], batch);
      BatchesGrown(log[1..], batch);
    }
  }

  lemma {:induction false} BatchesRolled(log: seq<Seg>, h: SegmentHeader)
    ensures LogBatches(log + [Seg(h, [])]) == LogBatches(log)
    decreases log
  {
    if log == [] {
      assert log + [Seg(h, [])] == [Seg(h, [])] && [Seg(h, [])][1..] == [];
    } else {
      assert (log + [Seg(h, [])])[0] == log[0] && (log + [Seg(h, [])])[1..] == log[1..] + [Seg(h, [])];
      BatchesRolled(log[1..], h);
    }
  }

  /** The cached digest stays that of the whole log through an append, with or
      without a roll before it. */
  lemma {:induction false} ExtendKeeps(f: Format, log: seq<Seg>, batch: Batch, topic: Id, partition: u32, store: Id,
                                       r: Running)
    requires LogOk(f, log, topic, partition) && EncodeBatch(f, batch).Some?
    requires batch.topic == topic && batch.partition == partition && batch.base == EndOf(Last(log)) == r.covered
    requires PrefixBytes(f, LogBatches(log), log[0].header.base, r.covered).Some?
    requires r.absorbed == Prelude(store, topic, partition)
             + PrefixBytes(f, LogBatches(log), log[0].header.base, r.covered).value
    ensures var p := PrefixBytes(f, LogBatches(Grown(log, batch)), log[0].header.base, r.covered + |batch.records|);
            p.Some? && r.absorbed + EncodeBatch(f, batch).value == Prelude(store, topic, partition) + p.value
  {
    hide PrefixBytes, Prelude, EncodeBatch, LogBatches, SegOk, Contiguous, CountRecords, BatchesBytes;
    LogContiguous(f, log, topic, partition);
    BatchesGrown(log, batch);
    PrefixAppend(f, LogBatches(log), batch, topic, partition, log[0].header.base);
    var b, e := BatchesBytes(f, LogBatches(log)), EncodeBatch(f, batch).value;
    assert Prelude(store, topic, partition) + b + e == Prelude(store, topic, partition) + (b + e);
  }
}
