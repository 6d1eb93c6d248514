/** When preflight accepts a partition that the append engine wrote: whatever
    retention removed and whatever a failed append left, exactly when no retained
    segment is missing and no tail is 1 to 47 bytes long. */
module PreflightSafety {
  import opened Base
  import opened Codec
  import opened Batches
  import opened Segments
  import opened PartitionLog
  import opened SegmentPieces
  import opened Preflight
  import Catalog
  import C = Compaction

  // -------------------------------------------------------------------- files

  function FileOf(f: Format, s: Seg): File { File(s.header.base, SegBytes(f, s)) }

  /** The files of segments `i` to `m` that were not removed. */
  function Kept(f: Format, all: seq<Seg>, gone: set<nat>, i: nat, m: nat): seq<File>
    requires i <= m <= |all|
    decreases m - i
  {
    if i == m then []
    else (if i in gone then [] else [FileOf(f, all[i])]) + Kept(f, all, gone, i + 1, m)
  }

  /** The last segment, and what an interrupted append left. */
  function Ending(f: Format, all: seq<Seg>, d: Debris): seq<File>
    requires all != []
  {
    Directory(f, all[|all| - 1..], d)
  }

  /** A partition directory: every segment ever written but the removed ones. */
  function OnDisk(f: Format, all: seq<Seg>, gone: set<nat>, d: Debris): seq<File>
    requires all != []
  {
    Kept(f, all, gone, 0, |all| - 1) + Ending(f, all, d)
  }

  lemma {:induction false} KeptSplit(f: Format, all: seq<Seg>, gone: set<nat>, i: nat, k: nat, m: nat)
    requires i <= k <= m <= |all|
    ensures Kept(f, all, gone, i, m) == Kept(f, all, gone, i, k) + Kept(f, all, gone, k, m)
    decreases k - i
  {
    hide SegBytes;
    if i < k { KeptSplit(f, all, gone, i + 1, k, m); }
  }

  lemma {:induction false} KeptAt(f: Format, all: seq<Seg>, gone: set<nat>, i: nat, m: nat, x: nat)
    requires i <= m <= |all| && x < |Kept(f, all, gone, i, m)|
    ensures exists j :: i <= j < m && Kept(f, all, gone, i, m)[x] == FileOf(f, all[j])
    decreases m - i
  {
    hide SegBytes;
    var head := if i in gone then 0 else 1;
    if x < head {
      assert Kept(f, all, gone, i, m)[x] == FileOf(f, all[i]);
    } else {
      KeptAt(f, all, gone, i + 1, m, x - head);
    }
  }

  lemma {:induction false} KeptWhole(f: Format, all: seq<Seg>, gone: set<nat>, i: nat, m: nat)
    requires i <= m <= |all| && forall j | i <= j < m :: j !in gone
    ensures Kept(f, all, gone, i, m) == FilesOf(f, all[i..m])
    decreases m - i
  {
    hide SegBytes;
    if i < m { KeptWhole(f, all, gone, i + 1, m); }
  }

  lemma DirectorySplit(f: Format, log: seq<Seg>, d: Debris)
    requires log != []
    ensures Directory(f, log, d) == FilesOf(f, log[..|log| - 1]) + Directory(f, log[|log| - 1..], d)
  {
    hide SegBytes, HeaderImage, Part;
    var n := |log| - 1;
    assert FilesOf(f, log) == FilesOf(f, log[..n]) + FilesOf(f, log[n..]);
    assert FilesOf(f, log[n..][..0]) == [];
  }

  /** With nothing missing from segment `k` on, the directory is that of the log from
      there. */
  lemma WholeFrom(f: Format, all: seq<Seg>, gone: set<nat>, d: Debris, k: nat)
    requires k < |all| && forall j | k <= j < |all| - 1 :: j !in gone
    ensures Kept(f, all, gone, k, |all| - 1) + Ending(f, all, d) == Directory(f, all[k..], d)
  {
    hide SegBytes, HeaderImage, Part, Directory, FilesOf;
    var n := |all| - 1;
    KeptWhole(f, all, gone, k, n);
    DirectorySplit(f, all[k..], d);
    assert all[k..][..n - k] == all[k..n] && all[k..][n - k..] == all[n..];
  }

  // -------------------------------------------------------------------- bases

  lemma {:induction false} BasesRise(f: Format, all: seq<Seg>, topic: Id, partition: u32, i: nat, j: nat)
    requires LogOk(f, all, topic, partition) && i < j < |all|
    ensures all[i].header.base < all[j].header.base && all[i].batches != []
    decreases j
  {
    hide Contiguous, EncodeBatch, CountRecords;
    assert Meets(all[j - 1], all[j]);
    assert SegOk(f, all[j - 1], topic, partition);
    SomeRecords(f, all[j - 1], topic, partition);
    if i < j - 1 { BasesRise(f, all, topic, partition, i, j - 1); }
  }

  lemma SomeRecords(f: Format, s: Seg, topic: Id, partition: u32)
    requires SegOk(f, s, topic, partition) && s.batches != []
    ensures CountRecords(s.batches) > 0
  {
    EncodedShape(f, s.batches[0]);
  }

  lemma {:induction false} RetainedNone(files: seq<File>, start: u64)
    requires forall x | 0 <= x < |files| :: files[x].base < start
    ensures Retained(files, start) == []
  {
    if files != [] { RetainedNone(files[1..], start); }
  }

  lemma {:induction false} RetainedAll(files: seq<File>, start: u64)
    requires forall x | 0 <= x < |files| :: files[x].base >= start
    ensures Retained(files, start) == files
  {
    if files != [] { RetainedAll(files[1..], start); }
  }

  lemma EndingBases(f: Format, all: seq<Seg>, d: Debris, topic: Id, partition: u32, x: nat)
    requires all != [] && DebrisOk(f, all, d, topic, partition) && x < |Ending(f, all, d)|
    ensures Ending(f, all, d)[x].base >= all[|all| - 1].header.base
    ensures Ending(f, all, d)[0].base == all[|all| - 1].header.base
  {
    hide SegBytes, HeaderImage, Part;
  }

  /** The files at or above the base of segment `k`. */
  lemma {:induction false} RetainedIs(f: Format, all: seq<Seg>, gone: set<nat>, d: Debris, topic: Id, partition: u32,
                                      k: nat)
    requires LogOk(f, all, topic, partition) && DebrisOk(f, all, d, topic, partition) && k < |all|
    ensures Retained(OnDisk(f, all, gone, d), all[k].header.base) ==
            Kept(f, all, gone, k, |all| - 1) + Ending(f, all, d)
  {
    hide SegBytes, LogOk, Kept, Ending, DebrisOk, Retained;
    var n, start := |all| - 1, all[k].header.base;
    var below, above, last := Kept(f, all, gone, 0, k), Kept(f, all, gone, k, n), Ending(f, all, d);
    KeptSplit(f, all, gone, 0, k, n);
    assert below + above + last == below + (above + last);
    forall x | 0 <= x < |below| ensures below[x].base < start {
      KeptAt(f, all, gone, 0, k, x);
      var j :| 0 <= j < k && below[x] == FileOf(f, all[j]);
      BasesRise(f, all, topic, partition, j, k);
    }
    forall x | 0 <= x < |above + last| ensures (above + last)[x].base >= start {
      if x < |above| {
        KeptAt(f, all, gone, k, n, x);
        var j :| k <= j < n && above[x] == FileOf(f, all[j]);
        if k < j { BasesRise(f, all, topic, partition, k, j); }
      } else {
        EndingBases(f, all, d, topic, partition, x - |above|);
        if k < n { BasesRise(f, all, topic, partition, k, n); }
      }
    }
    RetainedNone(below, start);
    RetainedAll(above + last, start);
    RetainedSplit(below, above + last, start);
  }

  // --------------------------------------------------------- a missing segment

  /** A chain with a missing segment is not opened: the next file does not continue
      the one before. */
  lemma {:induction false} HoleRefused(f: Format, all: seq<Seg>, gone: set<nat>, d: Debris, topic: Id, partition: u32,
                                       k: nat, hole: nat)
    requires LogOk(f, all, topic, partition) && DebrisOk(f, all, d, topic, partition)
    requires k <= hole < |all| - 1 && hole in gone
    ensures Open(f, Kept(f, all, gone, k, |all| - 1) + Ending(f, all, d), topic, partition, all[k].header.base) == None
    decreases hole - k
  {
    hide SegBytes, LogOk, Ending, DebrisOk, Recover, View, Open, Kept, FileOf, SegOk, EndOf, CountRecords;
    var n := |all| - 1;
    KeptFirst(f, all, gone, k, n);
    var files, rest := Kept(f, all, gone, k, n) + Ending(f, all, d), Kept(f, all, gone, k + 1, n) + Ending(f, all, d);
    FirstBase(f, all, gone, d, topic, partition, k + 1);
    BasesRise(f, all, topic, partition, k, k + 1);
    if k in gone {
      assert files == rest;
      OpenMismatch(f, files, topic, partition, all[k].header.base);
    } else {
      assert files == [FileOf(f, all[k])] + rest;
      SegAt(f, all, topic, partition, k);
      RecoverWhole(f, all[k], topic, partition, false);
      HoleRefused(f, all, gone, d, topic, partition, k + 1, hole);
      FileIs(f, all[k]);
      OpenRefused(f, FileOf(f, all[k]), rest, topic, partition, View(f, all[k]));
    }
  }

  lemma FileIs(f: Format, s: Seg)
    ensures FileOf(f, s).base == s.header.base && FileOf(f, s).data == SegBytes(f, s)
  {
  }

  lemma {:induction false} KeptFirst(f: Format, all: seq<Seg>, gone: set<nat>, k: nat, m: nat)
    requires k < m <= |all|
    ensures Kept(f, all, gone, k, m) ==
            (if k in gone then [] else [FileOf(f, all[k])]) + Kept(f, all, gone, k + 1, m)
  {
  }

  lemma {:induction false} OpenMismatch(f: Format, files: seq<File>, topic: Id, partition: u32, expected: nat)
    requires files != [] && files[0].base != expected
    ensures Open(f, files, topic, partition, expected) == None
  {
  }

  lemma {:induction false} OpenRefused(f: Format, file: File, rest: seq<File>, topic: Id, partition: u32, s: Segment)
    requires rest != [] && Recover(f, file.data, topic, partition, false, file.base) == Some(s)
    requires Open(f, rest, topic, partition, s.end) == None
    ensures Open(f, [file] + rest, topic, partition, file.base) == None
  {
    hide Recover;
    assert ([file] + rest)[1..] == rest;
  }

  lemma SegAt(f: Format, all: seq<Seg>, topic: Id, partition: u32, k: nat)
    requires LogOk(f, all, topic, partition) && k < |all|
    ensures SegOk(f, all[k], topic, partition)
    ensures k + 1 < |all| ==> all[k].batches != [] && all[k + 1].header.base == EndOf(all[k])
  {
    hide SegOk;
    if k + 1 < |all| { assert Meets(all[k], all[k + 1]); }
  }

  lemma FirstBase(f: Format, all: seq<Seg>, gone: set<nat>, d: Debris, topic: Id, partition: u32, k: nat)
    requires LogOk(f, all, topic, partition) && DebrisOk(f, all, d, topic, partition) && k < |all|
    ensures var files := Kept(f, all, gone, k, |all| - 1) + Ending(f, all, d);
            files != [] && files[0].base >= all[k].header.base
  {
    hide SegBytes, LogOk, Kept, DebrisOk, Ending;
    var n := |all| - 1;
    var files := Kept(f, all, gone, k, n) + Ending(f, all, d);
    EndingSome(f, all, d);
    if Kept(f, all, gone, k, n) == [] {
      EndingBases(f, all, d, topic, partition, 0);
      if k < n { BasesRise(f, all, topic, partition, k, n); }
    } else {
      KeptAt(f, all, gone, k, n, 0);
      var j :| k <= j < n && files[0] == FileOf(f, all[j]);
      if k < j { BasesRise(f, all, topic, partition, k, j); }
    }
  }

  lemma EndingSome(f: Format, all: seq<Seg>, d: Debris)
    requires all != []
    ensures Ending(f, all, d) != []
  {
  }

  // --------------------------------------------------------------------- sizes

  /** No segment is longer than the limit, not even with a torn batch completed. */
  predicate Sized(f: Format, all: seq<Seg>, d: Debris, maxBytes: nat)
    requires all != []
  {
    && maxBytes >= SEGMENT_HEADER_BYTES
    && (forall i | 0 <= i < |all| :: |SegBytes(f, all[i])| <= maxBytes)
    && (d.Torn? && EncodeBatch(f, d.batch).Some? ==>
          |SegBytes(f, Last(all))| + |EncodeBatch(f, d.batch).value| <= maxBytes)
  }

  lemma SizedFits(f: Format, all: seq<Seg>, d: Debris, k: nat, maxBytes: u64)
    requires k < |all| && Sized(f, all, d, maxBytes)
    ensures Fit(Directory(f, all[k..], d), maxBytes)
  {
    hide SegBytes, EncodeBatch, HeaderImage;
    assert Last(all[k..]) == Last(all);
    var files := Directory(f, all[k..], d);
    forall i | 0 <= i < |files| ensures |files[i].data| <= maxBytes {
      if k + i < |all| { assert |SegBytes(f, all[k + i])| <= maxBytes; }
    }
  }

  // ----------------------------------------------------------------- inventory

  /** Offsets and sizes that a catalog event can hold. */
  predicate Countable(f: Format, s: Seg) { EndOf(s) <= MAX_OFFSET && |SegBytes(f, s)| <= MAX_U64 }

  predicate AllCountable(f: Format, log: seq<Seg>) { forall i | 0 <= i < |log| :: Countable(f, log[i]) }

  /** How the catalog lists a retired segment. */
  function EntryOf(h: Hasher, s: Seg): Catalog.Retired
    requires Countable(h.f, s)
  {
    Catalog.Retired(s.header.base, EndOf(s), |SegBytes(h.f, s)|, AnchorOf(h, s.header))
  }

  function EntriesOf(h: Hasher, log: seq<Seg>): seq<Catalog.Retired>
    requires AllCountable(h.f, log)
  {
    seq(|log|, i requires 0 <= i < |log| => EntryOf(h, log[i]))
  }

  function Inventory(h: Hasher, log: seq<Seg>): map<u64, Catalog.Retired>
    requires AllCountable(h.f, log)
  {
    Catalog.Merge(map[], EntriesOf(h, log))
  }

  lemma {:induction false} MergeSplit(m: map<u64, Catalog.Retired>, a: seq<Catalog.Retired>, b: seq<Catalog.Retired>)
    ensures Catalog.Merge(m, a + b) == Catalog.Merge(Catalog.Merge(m, a), b)
    decreases a
  {
    if a == [] {
      assert a + b == b;
    } else {
      assert (a + b)[1..] == a[1..] + b;
      MergeSplit(m[a[0].base := a[0]], a[1..], b);
    }
  }

  lemma InventoryNext(h: Hasher, log: seq<Seg>, k: nat)
    requires AllCountable(h.f, log) && k < |log|
    ensures AllCountable(h.f, log[..k]) && AllCountable(h.f, log[..k + 1])
    ensures Inventory(h, log[..k + 1]) == Inventory(h, log[..k])[log[k].header.base := EntryOf(h, log[k])]
  {
    hide EntryOf, Countable;
    var e := EntryOf(h, log[k]);
    assert EntriesOf(h, log[..k + 1]) == EntriesOf(h, log[..k]) + [e];
    MergeSplit(map[], EntriesOf(h, log[..k]), [e]);
    assert [e][1..] == [] && e.base == log[k].header.base by { EntryBase(h, log[k]); }
  }

  lemma EntryBase(h: Hasher, s: Seg)
    requires Countable(h.f, s)
    ensures EntryOf(h, s).base == s.header.base
  {
  }

  /** The inventory of the first `k` segments lists each of them and nothing else. */
  lemma {:induction false} InventoryAt(h: Hasher, log: seq<Seg>, topic: Id, partition: u32, k: nat)
    requires LogOk(h.f, log, topic, partition) && AllCountable(h.f, log) && k <= |log|
    ensures AllCountable(h.f, log[..k])
    ensures forall j | 0 <= j < k ::
              log[j].header.base in Inventory(h, log[..k])
              && Inventory(h, log[..k])[log[j].header.base] == EntryOf(h, log[j])
    ensures forall b | b in Inventory(h, log[..k]) :: exists j :: 0 <= j < k && b == log[j].header.base
  {
    hide LogOk, EntryOf, Countable, Inventory;
    if k == 0 {
      InventoryNone(h, log[..0]);
    } else {
      InventoryAt(h, log, topic, partition, k - 1);
      InventoryNext(h, log, k - 1);
      forall j | 0 <= j < k
        ensures log[j].header.base in Inventory(h, log[..k])
        ensures Inventory(h, log[..k])[log[j].header.base] == EntryOf(h, log[j])
      {
        if j < k - 1 { BasesRise(h.f, log, topic, partition, j, k - 1); }
      }
      forall b | b in Inventory(h, log[..k]) ensures exists j :: 0 <= j < k && b == log[j].header.base {
        if b != log[k - 1].header.base { assert b in Inventory(h, log[..k - 1]); }
      }
    }
  }

  lemma InventoryNone(h: Hasher, log: seq<Seg>)
    requires log == []
    ensures AllCountable(h.f, log) && Inventory(h, log) == map[]
  {
  }

  // ----------------------------------------------------------------- partition

  /** The catalog's retained start is segment `k`, and its inventory the ones before. */
  ghost predicate Bound(h: Hasher, all: seq<Seg>, p: Catalog.Partition, retired: map<u64, Catalog.Retired>, k: nat) {
    && k < |all| && all[k].header.base == p.retainedL && AnchorOf(h, all[k].header) == p.current
    && AllCountable(h.f, all[..k]) && retired == Inventory(h, all[..k])
  }

  lemma HeaderAccepted(h: Hasher, s: Seg, topic: Id, partition: u32, tail: Bytes)
    requires SegOk(h.f, s, topic, partition)
    ensures var data := SegBytes(h.f, s) + tail;
            && |data| >= SEGMENT_HEADER_BYTES && data[..SEGMENT_HEADER_BYTES] == HeaderImage(h.f, s.header)
            && DecodeSegmentHeader(h.f, data[..SEGMENT_HEADER_BYTES], topic, partition) == Some(s.header)
  {
    hide DecodeSegmentHeader, HeaderImage, Contiguous;
    SegmentHeaderRoundTrip(h.f, s.header);
    var data := SegBytes(h.f, s) + tail;
    assert data[..SEGMENT_HEADER_BYTES] == HeaderImage(h.f, s.header);
  }

  /** A retired segment whose file is still there passes. */
  lemma EntryAccepted(h: Hasher, s: Seg, topic: Id, partition: u32, maxBytes: u64)
    requires SegOk(h.f, s, topic, partition) && s.batches != [] && Countable(h.f, s) && |SegBytes(h.f, s)| <= maxBytes
    ensures RetiredAccepted(h, SegBytes(h.f, s), topic, partition, EntryOf(h, s), maxBytes)
  {
    hide DecodeSegmentHeader, HeaderImage, SegOk, SegBytes, Segments.Preflight, Recover, View, EndOf;
    var data := SegBytes(h.f, s);
    assert data + [] == data;
    HeaderAccepted(h, s, topic, partition, []);
    RecoverWhole(h.f, s, topic, partition, false);
    PreflightAgrees(h.f, data, topic, partition, false, s.header.base, maxBytes);
  }

  lemma RetiredKnown(h: Hasher, all: seq<Seg>, gone: set<nat>, d: Debris, topic: Id, partition: u32,
                     p: Catalog.Partition, retired: map<u64, Catalog.Retired>, k: nat)
    requires LogOk(h.f, all, topic, partition) && DebrisOk(h.f, all, d, topic, partition)
    requires AllCountable(h.f, all) && Sized(h.f, all, d, p.config.segmentBytes) && Bound(h, all, p, retired, k)
    ensures BelowStart(retired, p.retainedL)
    ensures KnownRetired(h, OnDisk(h.f, all, gone, d), topic, partition, p.retainedL, p.config.segmentBytes, retired)
  {
    hide LogOk, DebrisOk, Countable, EntryOf, Inventory, SegBytes, RetiredAccepted, Kept, Ending;
    var n, files := |all| - 1, OnDisk(h.f, all, gone, d);
    InventoryAt(h, all, topic, partition, k);
    forall b | b in retired ensures b < p.retainedL && retired[b].base == b {
      var j :| 0 <= j < k && b == all[j].header.base;
      BasesRise(h.f, all, topic, partition, j, k);
      EntryBase(h, all[j]);
    }
    forall i | 0 <= i < |files| && files[i].base < p.retainedL
      ensures files[i].base in retired
      ensures RetiredAccepted(h, files[i].data, topic, partition, retired[files[i].base], p.config.segmentBytes)
    {
      var j := OldFile(h.f, all, gone, d, topic, partition, k, i);
      SegAt(h.f, all, topic, partition, j);
      EntryAccepted(h, all[j], topic, partition, p.config.segmentBytes);
    }
  }

  /** A file below segment `k` is that of an earlier segment. */
  lemma OldFile(f: Format, all: seq<Seg>, gone: set<nat>, d: Debris, topic: Id, partition: u32, k: nat, i: nat)
    returns (j: nat)
    requires LogOk(f, all, topic, partition) && DebrisOk(f, all, d, topic, partition) && k < |all|
    requires i < |OnDisk(f, all, gone, d)| && OnDisk(f, all, gone, d)[i].base < all[k].header.base
    ensures j < k && OnDisk(f, all, gone, d)[i] == FileOf(f, all[j])
  {
    hide LogOk, DebrisOk, SegBytes, Kept, Ending;
    var n, kept := |all| - 1, Kept(f, all, gone, 0, |all| - 1);
    if i < |kept| {
      KeptAt(f, all, gone, 0, n, i);
      j :| 0 <= j < n && kept[i] == FileOf(f, all[j]);
      if k < j { BasesRise(f, all, topic, partition, k, j); }
    } else {
      EndingBases(f, all, d, topic, partition, i - |kept|);
      if k < n { BasesRise(f, all, topic, partition, k, n); }
      assert false;
    }
  }

  /** What a failed append may leave without the partition being refused. */
  predicate Readable(d: Debris) { d.Torn? ==> C.Legible(d.kept) }

  lemma FirstFile(h: Hasher, all: seq<Seg>, d: Debris, topic: Id, partition: u32, p: Catalog.Partition,
                  retired: map<u64, Catalog.Retired>, k: nat)
    requires LogOk(h.f, all, topic, partition) && Bound(h, all, p, retired, k)
    ensures var files := Directory(h.f, all[k..], d);
            files != [] && AnchorAccepted(h, files[0].data, topic, partition, p)
  {
    hide LogOk, DecodeSegmentHeader, HeaderImage, SegOk, SegBytes, Part, Inventory;
    SegAt(h.f, all, topic, partition, k);
    var s := all[k];
    assert SegBytes(h.f, s) + [] == SegBytes(h.f, s);
    HeaderAccepted(h, s, topic, partition, []);
    if d.Torn? { HeaderAccepted(h, s, topic, partition, Part(h.f, d.batch, d.kept)); }
    assert all[k..][0] == s;
  }

  lemma SuffixOk(f: Format, all: seq<Seg>, d: Debris, topic: Id, partition: u32, k: nat)
    requires LogOk(f, all, topic, partition) && DebrisOk(f, all, d, topic, partition) && k < |all|
    ensures LogOk(f, all[k..], topic, partition) && DebrisOk(f, all[k..], d, topic, partition)
  {
    hide SegOk, EncodeBatch;
    var log := all[k..];
    assert Last(log) == Last(all);
    forall i | 0 < i < |log| ensures Meets(log[i - 1], log[i]) { assert Meets(all[k + i - 1], all[k + i]); }
  }

  lemma {:induction false} OpensExactly(f: Format, log: seq<Seg>, d: Debris, topic: Id, partition: u32)
    requires LogOk(f, log, topic, partition) && DebrisOk(f, log, d, topic, partition)
    ensures Open(f, Directory(f, log, d), topic, partition, log[0].header.base).Some? <==> Readable(d)
  {
    hide LogOk, Open, Directory, Views, EncodeBatch;
    ReopenAfterCrash(f, log, d, topic, partition);
    if d.Torn? { EncodedShape(f, d.batch); }
  }

  /** The one partition theorem: all segments ever written, some of them removed, an
      append that may have failed, and a catalog that may be older or newer than what
      was removed. Preflight accepts the directory exactly when no segment at or above
      the catalog's start was removed and the tail is not 1 to 47 bytes. */
  lemma PartitionExactly(h: Hasher, all: seq<Seg>, gone: set<nat>, d: Debris, topic: Id, partition: u32,
                         p: Catalog.Partition, retired: map<u64, Catalog.Retired>, k: nat)
    requires LogOk(h.f, all, topic, partition) && DebrisOk(h.f, all, d, topic, partition)
    requires AllCountable(h.f, all) && Sized(h.f, all, d, p.config.segmentBytes) && Bound(h, all, p, retired, k)
    ensures PartitionAccepted(h, OnDisk(h.f, all, gone, d), topic, partition, p, retired) <==>
            Readable(d) && forall j | j in gone && j < |all| - 1 :: j < k
  {
    hide LogOk, DebrisOk, AllCountable, Sized, Inventory, Kept, Ending, OnDisk, Open, BelowStart, KnownRetired,
         AnchorAccepted, Directory, Retained, Readable, AnchorOf;
    var n := |all| - 1;
    var kept := Kept(h.f, all, gone, k, n) + Ending(h.f, all, d);
    RetainedIs(h.f, all, gone, d, topic, partition, k);
    ChainAgrees(h.f, kept, topic, partition, p.retainedL, p.config.segmentBytes);
    RetiredKnown(h, all, gone, d, topic, partition, p, retired, k);
    if hole: nat :| k <= hole < n && hole in gone {
      HoleRefused(h.f, all, gone, d, topic, partition, k, hole);
    } else {
      WholeFrom(h.f, all, gone, d, k);
      SizedFits(h.f, all, d, k, p.config.segmentBytes);
      SuffixOk(h.f, all, d, topic, partition, k);
      OpensExactly(h.f, all[k..], d, topic, partition);
      FirstFile(h, all, d, topic, partition, p, retired, k);
    }
  }
}
