/** One partition of the store: what the engine's operations and retention keep of
    it, what ties it to every catalog the history went through, and when preflight
    accepts all of them together. */
module StorageParts {
  import opened Base
  import opened Restart
  import opened Codec
  import opened Batches
  import opened Segments
  import opened PartitionLog
  import opened SegmentPieces
  import opened Preflight
  import opened PreflightSafety
  import opened Storage
  import Catalog
  import CatalogHistory
  import E = PartitionEngine

  // ------------------------------------------------------------------ one part

  /** `b` is `a` with more at its end: batches in its last segment, or segments. */
  predicate Continues(a: seq<Seg>, b: seq<Seg>) {
    && 0 < |a| <= |b| && b[|a| - 1].header == a[|a| - 1].header
    && forall j | 0 <= j < |a| - 1 :: b[j] == a[j]
  }

  ghost predicate PartGrows(p: Part, q: Part) { q.c == p.c && Continues(p.all, q.all) }

  lemma PartFacts(p: Part)
    requires PartOk(p)
    ensures LogOk(p.c.f, p.all, p.c.topic, p.c.partition)
    ensures DebrisOk(p.c.f, p.all, p.debris, p.c.topic, p.c.partition)
    ensures !p.down ==> p.debris.Clean?
    ensures forall i | 0 <= i < |p.all| :: View(p.c.f, p.all[i]).size <= E.Ceiling(p.c.options)
  {
    hide LogOk, DebrisOk, E.HistoryOk, View, Directory;
    var s := Rooted(p);
    assert p.all[0..] == p.all;
    forall i | 0 <= i < |p.all| ensures View(p.c.f, p.all[i]).size <= E.Ceiling(p.c.options) {
      assert s.segments[i] == View(p.c.f, p.all[i]);
    }
  }

  lemma PartSizes(p: Part)
    requires PartOk(p)
    ensures AllCountable(p.c.f, p.all) && Sized(p.c.f, p.all, p.debris, E.Ceiling(p.c.options))
  {
    hide LogOk, DebrisOk, E.HistoryOk, E.ChainOk, E.DiskOk, View, SegBytes, SegOk, EndOf, EncodeBatch, Directory;
    PartFacts(p);
    forall i | 0 <= i < |p.all| ensures Countable(p.c.f, p.all[i])
        && |SegBytes(p.c.f, p.all[i])| <= E.Ceiling(p.c.options)
    {
      SegAt(p.c.f, p.all, p.c.topic, p.c.partition, i);
      E.ViewFacts(p.c.f, p.all[i], p.c.topic, p.c.partition);
      SegEnd(p.c.f, p.all[i], p.c.topic, p.c.partition);
    }
    var s, n := Rooted(p), |p.all| - 1;
    assert p.all[0..] == p.all && s.segments[n] == View(p.c.f, p.all[n]);
    SegAt(p.c.f, p.all, p.c.topic, p.c.partition, n);
    E.ViewFacts(p.c.f, p.all[n], p.c.topic, p.c.partition);
    SegLength(p.c.f, p.all[n]);
  }

  lemma SegEnd(f: Format, s: Seg, topic: Id, partition: u32)
    requires SegOk(f, s, topic, partition)
    ensures EndOf(s) <= MAX_OFFSET
  {
    ContiguousEnd(f, s.batches, topic, partition, s.header.base);
  }

  lemma SegLength(f: Format, s: Seg)
    ensures |SegBytes(f, s)| >= SEGMENT_HEADER_BYTES
  {
  }

  /** Whatever was retired, the rest is a state of the append engine. */
  lemma RebaseOk(p: Part)
    requires PartOk(p)
    ensures E.Inv(p.c, StateOf(p)) && E.Acked(StateOf(p)) == E.Acked(Rooted(p))
  {
    hide LogOk, DebrisOk, View, Directory, Contiguous, CountRecords, E.Flatten, EncodeBatch, E.Bounded, Views;
    var s := StateOf(p);
    PartFacts(p);
    SuffixOk(p.c.f, p.all, p.debris, p.c.topic, p.c.partition, p.start);
    assert p.all[0..] == p.all && p.all[..0] == [] && Last(p.all[p.start..]) == Last(p.all);
    assert p.all == p.all[..p.start] + p.all[p.start..];
    E.FlattenSplit(p.all[..p.start], p.all[p.start..]);
    FlattenNone();
    assert E.Acked(Rooted(p)) == E.Flatten(p.all) == E.Acked(s);
    RebaseBounded(p);
  }

  lemma RebaseBounded(p: Part)
    requires p.start < |p.all| && E.Bounded(p.c, Rooted(p))
    ensures E.Bounded(p.c, StateOf(p))
  {
    hide View, Directory, E.Flatten, EncodeBatch, EndOf, E.Ceiling;
    var s, r, n := StateOf(p), Rooted(p), |p.all| - 1;
    assert p.all[0..] == p.all;
    forall i | 0 <= i < |s.segments| ensures s.segments[i] == r.segments[p.start + i] {
      assert p.all[p.start..][i] == p.all[p.start + i];
    }
    assert s.segments[n - p.start] == r.segments[n];
  }

  lemma FlattenNone()
    ensures E.Flatten([]) == []
  {
  }

  lemma JoinLog(f: Format, front: seq<Seg>, a: seq<Seg>, b: seq<Seg>, topic: Id, partition: u32)
    requires LogOk(f, front + a, topic, partition) && LogOk(f, b, topic, partition) && Continues(a, b)
    ensures LogOk(f, front + b, topic, partition)
  {
    hide SegOk;
    var whole, was, k := front + b, front + a, |front|;
    forall i | 0 <= i < |whole| ensures SegOk(f, whole[i], topic, partition) {
      if i < k { assert whole[i] == was[i]; } else { assert whole[i] == b[i - k]; }
    }
    forall i | 0 < i < |whole| ensures Meets(whole[i - 1], whole[i]) {
      if i < k {
        assert Meets(was[i - 1], was[i]);
      } else if i == k {
        assert Meets(was[i - 1], was[i]) && b[0].header == a[0].header;
      } else {
        assert Meets(b[i - k - 1], b[i - k]);
      }
    }
  }

  /** A state of the engine, put back behind what was retired before it. */
  lemma JoinOk(p: Part, n: E.State)
    requires PartOk(p) && E.Inv(p.c, n) && n.retired == E.Flatten(p.all[..p.start])
             && Continues(p.all[p.start..], n.log)
    ensures var q := Absorb(p, n); PartOk(q) && StateOf(q) == n && PartGrows(p, q)
  {
    hide LogOk, DebrisOk, View, Directory, Contiguous, CountRecords, E.Flatten, EncodeBatch, E.Bounded, Views;
    var q, front := Absorb(p, n), p.all[..p.start];
    PartFacts(p);
    assert p.all == front + p.all[p.start..];
    JoinLog(p.c.f, front, p.all[p.start..], n.log, p.c.topic, p.c.partition);
    assert q.all[..q.start] == front && q.all[q.start..] == n.log && q.all[0..] == q.all && q.all[..0] == [];
    assert Last(q.all) == Last(n.log);
    SameDebris(p.c.f, q.all, n.log, n.debris, p.c.topic, p.c.partition);
    E.FlattenSplit(front, n.log);
    FlattenNone();
    assert E.Acked(Rooted(q)) == E.Flatten(q.all) == E.Acked(n);
    JoinBounded(p, n);
  }

  lemma JoinBounded(p: Part, n: E.State)
    requires PartOk(p) && E.Bounded(p.c, n) && n.segments == Views(p.c.f, n.log) && n.log != []
    ensures E.Bounded(p.c, Rooted(Absorb(p, n)))
  {
    hide LogOk, DebrisOk, View, Directory, E.Flatten, EncodeBatch, E.Ceiling, EndOf, E.Inv;
    PartFacts(p);
    var q := Absorb(p, n);
    var r := Rooted(q);
    assert q.all[0..] == q.all;
    forall i | 0 <= i < |r.segments|
      ensures if i < p.start then r.segments[i] == View(p.c.f, p.all[i]) else r.segments[i] == n.segments[i - p.start]
    {
      assert r.segments[i] == View(p.c.f, q.all[i]);
    }
    assert r.segments[|r.segments| - 1] == n.segments[|n.segments| - 1];
  }

  lemma SameDebris(f: Format, a: seq<Seg>, b: seq<Seg>, d: Debris, topic: Id, partition: u32)
    requires a != [] && b != [] && Last(a) == Last(b) && DebrisOk(f, b, d, topic, partition)
    ensures DebrisOk(f, a, d, topic, partition)
  {
  }

  /** No operation but retention touches what was written before. */
  lemma PerformContinues(c: E.Config, s: E.State, op: E.Op)
    requires Ready(s) && !op.Retire?
    ensures var n := E.Perform(c, s, op); Continues(s.log, n.log) && n.retired == s.retired
  {
    hide E.Limits, E.Overflows, EncodeBatch, HeaderImage, Open, MaxTimestamp, E.Cut, E.Flatten, E.WithTail;
  }

  /** An operation of the engine on what is in use. */
  lemma UsePart(p: Part, op: E.Op)
    requires PartOk(p) && Ready(StateOf(p)) && !op.Retire?
    ensures var n := E.Perform(p.c, StateOf(p), op);
            var q := Absorb(p, n);
            PartOk(q) && StateOf(q) == n && PartGrows(p, q)
  {
    hide E.Inv, E.Perform, E.Flatten, Continues, PartOk;
    StateShape(p);
    RebaseOk(p);
    E.PerformKeeps(p.c, StateOf(p), op);
    PerformContinues(p.c, StateOf(p), op);
    JoinOk(p, E.Perform(p.c, StateOf(p), op));
  }

  lemma StateShape(p: Part)
    requires PartOk(p)
    ensures p.start < |p.all| && StateOf(p).log == p.all[p.start..]
    ensures StateOf(p).retired == E.Flatten(p.all[..p.start])
  {
  }

  lemma FreshOk(f: Format, key: TopicKey, options: E.Options, base: u64, id: Id)
    requires ValidKey(key) && base <= MAX_OFFSET && id != 0
    ensures PartOk(FreshPart(f, key, options, base, id))
  {
    hide E.Inv, HeaderImage;
    var p := FreshPart(f, key, options, base, id);
    var header := SegmentHeader(key.topic, key.partition, base, id);
    E.FreshInv(p.c, header);
    HeaderOnly(f, Seg(header, []));
    E.EmptyView(f, header);
    E.EndOfEmpty(header);
    FlattenNone();
    assert p.all[0..] == p.all && p.all[..0] == [];
    assert Rooted(p) == E.State([E.Empty(header)], base, false, [File(base, HeaderImage(f, header))], p.all, Clean, []);
  }

  // ------------------------------------------------------------------ the index

  lemma {:induction false} IndexIs(f: Format, all: seq<Seg>, topic: Id, partition: u32, k: nat)
    requires LogOk(f, all, topic, partition) && k < |all|
    ensures IndexOf(all, all[k].header.base) == k
    decreases all
  {
    hide SegOk, Meets;
    if k > 0 {
      BasesRise(f, all, topic, partition, 0, k);
      LogTail(f, all, topic, partition);
      IndexIs(f, all[1..], topic, partition, k - 1);
    }
  }

  lemma {:induction false} IndexGrows(a: seq<Seg>, b: seq<Seg>, start: u64)
    requires Continues(a, b) && IndexOf(a, start) < |a|
    ensures IndexOf(b, start) == IndexOf(a, start)
    decreases a
  {
    assert b[0].header == a[0].header;
    if a[0].header.base < start {
      assert Continues(a[1..], b[1..]);
      IndexGrows(a[1..], b[1..], start);
    }
  }

  lemma BoundGrows(h: Hasher, a: seq<Seg>, b: seq<Seg>, p: Catalog.Partition, retired: map<u64, Catalog.Retired>,
                   k: nat)
    requires Bound(h, a, p, retired, k) && Continues(a, b)
    ensures Bound(h, b, p, retired, k)
  {
    hide Inventory, AnchorOf, Countable;
    assert a[..k] == b[..k];
  }

  // --------------------------------------------------------------------- growth

  ghost predicate ShelfGrows(a: Shelf, b: Shelf) {
    && b.marker == a.marker && b.parts.Keys == a.parts.Keys
    && forall i | i in a.parts :: PartGrows(a.parts[i], b.parts[i])
  }

  ghost predicate ShelvesGrow(topics: set<Id>, a: map<Id, Shelf>, b: map<Id, Shelf>) {
    forall id | id in topics && id in a :: id in b && ShelfGrows(a[id], b[id])
  }

  lemma PartTiedGrows(h: Hasher, key: TopicKey, p: Catalog.Partition, retired: map<u64, Catalog.Retired>, a: Part,
                      b: Part)
    requires PartTied(h, key, p, retired, a) && PartGrows(a, b)
    ensures PartTied(h, key, p, retired, b) && IndexOf(b.all, p.retainedL) == IndexOf(a.all, p.retainedL) < |a.all|
  {
    hide Inventory, AnchorOf, AllCountable, IndexOf, Continues;
    IndexGrows(a.all, b.all, p.retainedL);
    BoundGrows(h, a.all, b.all, p, retired, IndexOf(a.all, p.retainedL));
  }

  lemma TiedGrows(h: Hasher, cat: Catalog.State, a: map<Id, Shelf>, b: map<Id, Shelf>)
    requires Tied(h, cat, a) && ShelvesGrow(cat.topics.Keys, a, b)
    ensures Tied(h, cat, b)
  {
    hide PartTied, PartGrows, MarkerOf;
    forall id | id in cat.topics ensures id in b && TopicTied(h, id, cat.topics[id], b[id]) {
      var t := cat.topics[id];
      assert TopicTied(h, id, t, a[id]) && ShelfGrows(a[id], b[id]);
      forall i | 0 <= i < |t.partitions|
        ensures i in b[id].parts
        ensures PartTied(h, TopicKey(id, i), t.partitions[i], Catalog.RetiredOf(t, i), b[id].parts[i])
      {
        PartTiedGrows(h, TopicKey(id, i), t.partitions[i], Catalog.RetiredOf(t, i), a[id].parts[i], b[id].parts[i]);
      }
    }
  }

  /** What ties the history to the storage survives every growth of the storage. */
  lemma {:induction false} HistoryGrows(h: Hasher, c: seq<Catalog.Event>, a: map<Id, Shelf>, b: map<Id, Shelf>)
    requires HistoryTied(h, c, a) && Catalog.ReplayFrom(Catalog.EMPTY, 0, c).Some?
    requires ShelvesGrow(CatalogOf(c).topics.Keys, a, b)
    ensures HistoryTied(h, c, b)
  {
    hide Catalog.ReplayFrom, Tied, ShelfGrows, CatalogHistory.Valid, CatalogHistory.SameShape;
    forall n | 0 <= n <= |c| ensures TiedTo(h, c[..n], b) {
      PrefixExtends(c, n);
      assert TiedTo(h, c[..n], a);
      assert CatalogOf(c[..n]).topics.Keys <= CatalogOf(c).topics.Keys;
      TiedGrows(h, CatalogOf(c[..n]), a, b);
    }
  }

  lemma ContinuesItself(a: seq<Seg>)
    requires a != []
    ensures Continues(a, a)
  {
  }

  /** A shelf whose partitions kept all their segments. */
  lemma ShelfSame(a: Shelf, b: Shelf)
    requires b.marker == a.marker && b.parts.Keys == a.parts.Keys
    requires forall i | i in a.parts :: a.parts[i].all != [] && b.parts[i].c == a.parts[i].c
                                        && b.parts[i].all == a.parts[i].all
    ensures ShelfGrows(a, b)
  {
    forall i | i in a.parts ensures PartGrows(a.parts[i], b.parts[i]) { ContinuesItself(a.parts[i].all); }
  }

  // ------------------------------------------------------------------ preflight

  lemma PartExactly(h: Hasher, key: TopicKey, p: Catalog.Partition, retired: map<u64, Catalog.Retired>, q: Part)
    requires PartOk(q) && PartTied(h, key, p, retired, q)
    ensures PartitionAccepted(h, FilesIn(q), key.topic, key.partition, p, retired) <==> PartWhole(q, p.retainedL)
  {
    hide LogOk, DebrisOk, E.Inv, Inventory, AnchorOf, AllCountable, Sized, PartitionAccepted, OnDisk, Readable;
    var k := IndexOf(q.all, p.retainedL);
    PartFacts(q);
    PartSizes(q);
    PartitionExactly(h, q.all, q.gone, q.debris, key.topic, key.partition, p, retired, k);
    forall j | j in q.gone ensures j < k <==> q.all[j].header.base < p.retainedL {
      if j < k { BasesRise(h.f, q.all, key.topic, key.partition, j, k); }
      if k < j { BasesRise(h.f, q.all, key.topic, key.partition, k, j); }
    }
  }

  lemma TopicExactly(h: Hasher, id: Id, t: Catalog.Topic, s: Shelf)
    requires TopicTied(h, id, t, s) && (forall i | i in s.parts :: PartOk(s.parts[i]))
    ensures TopicAccepted(h, id, DirOf(s), t) <==>
            forall i | 0 <= i < |t.partitions| && i in s.parts :: PartWhole(s.parts[i], t.partitions[i].retainedL)
  {
    hide PartOk, PartTied, PartitionAccepted, PartWhole, MarkerOf, FilesIn;
    var d := DirOf(s);
    forall i | i in s.parts
      ensures i < |t.partitions|
      ensures PartitionAccepted(h, d.partitions[i], id, i, t.partitions[i], Catalog.RetiredOf(t, i)) <==>
              PartWhole(s.parts[i], t.partitions[i].retainedL)
    {
      PartExactly(h, TopicKey(id, i), t.partitions[i], Catalog.RetiredOf(t, i), s.parts[i]);
    }
    forall i | 0 <= i < |t.partitions| ensures i in d.partitions {
      assert i in s.parts && t.partitions[i] == t.partitions[i];
    }
    if TopicAccepted(h, id, d, t) {
      forall i | 0 <= i < |t.partitions| && i in s.parts ensures PartWhole(s.parts[i], t.partitions[i].retainedL) {
        assert i in d.partitions;
      }
    }
  }

  /** The whole of topic storage: preflight accepts it against a catalog it is tied to
      exactly when no partition misses a retained segment or has an unreadable tail,
      and no other directory is without a whole marker. */
  lemma StorageExactly(h: Hasher, cat: Catalog.State, shelves: map<Id, Shelf>)
    requires PartsOk(shelves) && Tied(h, cat, shelves)
    ensures StorageAccepted(h, cat, Dirs(shelves)) <==> StorageWhole(cat, shelves)
  {
    hide PartOk, TopicTied, TopicAccepted, PartWhole, MarkerOf, DirOf;
    var dirs := Dirs(shelves);
    forall id | id in cat.topics
      ensures id in shelves
      ensures TopicAccepted(h, id, dirs[id], cat.topics[id]) <==>
              forall i | 0 <= i < |cat.topics[id].partitions| && i in shelves[id].parts ::
                PartWhole(shelves[id].parts[i], cat.topics[id].partitions[i].retainedL)
    {
      TopicExactly(h, id, cat.topics[id], shelves[id]);
    }
    forall id | id in shelves ensures dirs[id].marker == shelves[id].marker { DirMarker(shelves[id]); }
  }

  lemma DirMarker(s: Shelf)
    ensures DirOf(s).marker == s.marker
  {
  }
}
