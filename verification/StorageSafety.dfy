/** The store over every run: what each step keeps, and exactly which runs leave a
    store that can be opened. */
module StorageSafety {
  import opened Base
  import opened Restart
  import opened Segments
  import opened PartitionLog
  import opened SegmentPieces
  import opened Preflight
  import opened PreflightSafety
  import opened Storage
  import opened StorageParts
  import Catalog
  import CatalogHistory
  import C = Compaction
  import CS = CompactionSafety
  import E = PartitionEngine
  import O = Offsets
  import OH = OffsetsHistory

  // ---------------------------------------------------------------- system logs

  /** A catalog append as the storage sees it. */
  lemma CatalogStep(h: C.Digests, w: C.World, e: Catalog.Event, outcome: C.Outcome)
    requires C.Inv(h, w) && C.Do(h, w, C.AppendCatalog(e, outcome)).Some?
    ensures var n := C.Do(h, w, C.AppendCatalog(e, outcome)).value;
            && w.open && n.open && !w.catalogDown
            && Catalog.ReplayFrom(Catalog.EMPTY, 0, w.catalog) == Some(w.sys.cat)
            && w.sys.cat.revision == |w.catalog| < MAX_OFFSET
            && Catalog.Transition(w.sys.cat, |w.catalog|, e).Some?
            && n.catalog == (if C.Durable(outcome) then w.catalog + [e] else w.catalog)
            && n.sys.cat == (if outcome.Acknowledged? then Catalog.Transition(w.sys.cat, |w.catalog|, e).value
                             else w.sys.cat)
            && Catalog.ReplayFrom(Catalog.EMPTY, 0, w.catalog + [e]) == Catalog.Transition(w.sys.cat, |w.catalog|, e)
  {
    hide C.Represents, Accepted, Catalog.Transition, C.WithinOperatingLimits, C.BuildOk, C.BehindOk, OH.LiveStep,
         Catalog.ReplayFrom, C.ChangeCatalog;
    var c := w.catalog;
    CS.LiveCatalog(w, e);
    CS.FoldShape(w.store, c, w.ackedOffsets);
    CatalogGrows(w.store, c, w.ackedOffsets, e);
    ReplayIs(w.store, c, w.ackedOffsets);
    ReplayIs(w.store, c + [e], w.ackedOffsets);
  }

  lemma {:induction false} ReplayIs(store: Id, c: seq<Catalog.Event>, o: seq<O.Event>)
    requires Accepted(store, c, o)
    ensures Catalog.ReplayFrom(Catalog.EMPTY, 0, c) == Some(CatalogOf(c)) && C.FoldOf(store, c, o).cat == CatalogOf(c)
  {
  }

  /** Every other step leaves the catalog's history alone, but for a power loss that
      puts the previous manifest back. */
  lemma QuietStep(h: C.Digests, w: C.World, step: C.Step)
    requires C.Inv(h, w) && !step.AppendCatalog? && C.Do(h, w, step).Some?
    ensures var n := C.Do(h, w, step).value;
            && n.catalog == (if C.Reverts(w, step) then w.behind.value.catalog else w.catalog)
            && (step.Open? ==> !w.open && n.open && Catalog.ReplayFrom(Catalog.EMPTY, 0, w.catalog) == Some(n.sys.cat))
            && (!step.Open? && n.open ==> w.open && n.sys.cat == w.sys.cat)
  {
    hide C.Represents, Accepted, C.WithinOperatingLimits, C.BuildOk, C.BehindOk, C.Bootstrap, C.FoldOf, C.Encodable,
         C.BuiltDir, C.NewManifest, C.EmptyStart, Catalog.ReplayFrom, O.Transition;
    match step
    case Open =>
      CS.Boots(h, w.disk, w.store, w.catalog, w.offsets, w.left);
      ReplayIs(w.store, w.catalog, w.offsets);
    case _ =>
  }

  // ----------------------------------------------------------------- components

  lemma Histories(env: Env, w: World)
    requires Inv(env, w)
    ensures Catalog.ReplayFrom(Catalog.EMPTY, 0, w.sys.catalog).Some?
    ensures Tied(env.hasher, CatalogOf(w.sys.catalog), w.shelves)
    ensures CatalogHistory.Valid(CatalogOf(w.sys.catalog))
    ensures w.sys.open ==>
              && Tied(env.hasher, w.sys.sys.cat, w.shelves)
              && CatalogHistory.Extends(w.sys.sys.cat, CatalogOf(w.sys.catalog))
  {
    hide C.Represents, Accepted, C.WithinOperatingLimits, C.BuildOk, C.BehindOk, Catalog.ReplayFrom, Tied, C.FoldOf,
         PartsOk, BusyOk, Served, CatalogHistory.Valid, CatalogHistory.Extends;
    var c := w.sys.catalog;
    assert c[..|c|] == c && TiedTo(env.hasher, c[..|c|], w.shelves);
    ReplayIs(w.sys.store, c, w.sys.offsets);
    PrefixExtends(c, |c|);
    if w.sys.open {
      var n := |w.sys.ackedCatalog|;
      assert c[..n] == w.sys.ackedCatalog && TiedTo(env.hasher, c[..n], w.shelves);
      ReplayIs(w.sys.store, w.sys.ackedCatalog, w.sys.ackedOffsets);
      PrefixExtends(c, n);
    }
  }

  lemma PutParts(w: World, key: TopicKey, q: Part)
    requires PartsOk(w.shelves) && PartOk(q)
    ensures PartsOk(Put(w, key, q).shelves)
  {
    hide PartOk;
  }

  lemma PutGrows(w: World, key: TopicKey, q: Part, topics: set<Id>)
    requires PartsOk(w.shelves)
    requires key.topic in topics ==> HasPart(w, key) && PartGrows(PartAt(w, key), q)
    ensures ShelvesGrow(topics, w.shelves, Put(w, key, q).shelves)
  {
    hide E.Inv, Continues;
    var b := Put(w, key, q).shelves;
    forall id | id in topics && id in w.shelves ensures id in b && ShelfGrows(w.shelves[id], b[id]) {
      forall i | i in w.shelves[id].parts ensures i in b[id].parts
          && PartGrows(w.shelves[id].parts[i], b[id].parts[i]) {
        assert PartOk(w.shelves[id].parts[i]);
        ContinuesItself(w.shelves[id].parts[i].all);
      }
    }
  }

  /** A changed partition of a store whose system logs stay as they are. */
  lemma PutKeeps(env: Env, w: World, key: TopicKey, q: Part)
    requires Inv(env, w) && HasPart(w, key) && PartOk(q) && PartGrows(PartAt(w, key), q) && w.busy != Some(key.topic)
    requires w.sys.open && InCatalog(w.sys.sys.cat, key) ==>
               && q.start == IndexOf(q.all, RetainedStart(w.sys.sys.cat, key))
               && forall j | j in q.gone :: j < q.start
    ensures Inv(env, Put(w, key, q))
  {
    hide C.Inv, PartOk, PartGrows, HistoryTied, IndexOf, CatalogHistory.Valid, Tied, CatalogHistory.Extends, BusyPart;
    var n := Put(w, key, q);
    Histories(env, w);
    PutParts(w, key, q);
    PutGrows(w, key, q, CatalogOf(w.sys.catalog).topics.Keys);
    HistoryGrows(env.hasher, w.sys.catalog, w.shelves, n.shelves);
    if w.sys.open { PutServed(w, key, q); }
  }

  lemma PutServed(w: World, key: TopicKey, q: Part)
    requires Served(w.sys.sys.cat, w.shelves) && HasPart(w, key)
    requires InCatalog(w.sys.sys.cat, key) ==>
               && q.start == IndexOf(q.all, RetainedStart(w.sys.sys.cat, key))
               && forall j | j in q.gone :: j < q.start
    ensures Served(w.sys.sys.cat, Put(w, key, q).shelves)
  {
    hide IndexOf;
  }

  // -------------------------------------------------------------- partition steps

  lemma TiedPart(h: Hasher, cat: Catalog.State, w: World, key: TopicKey)
    requires Tied(h, cat, w.shelves) && InCatalog(cat, key)
    ensures HasPart(w, key)
    ensures var t := cat.topics[key.topic];
            PartTied(h, key, t.partitions[key.partition], Catalog.RetiredOf(t, key.partition), PartAt(w, key))
  {
    hide PartTied, MarkerOf;
    var t := cat.topics[key.topic];
    assert TopicTied(h, key.topic, t, w.shelves[key.topic]);
  }

  lemma UseKeeps(env: Env, w: World, key: TopicKey, op: E.Op)
    requires Inv(env, w) && DoUse(w, key, op).Some?
    ensures Inv(env, DoUse(w, key, op).value)
  {
    hide C.Inv, PartOk, E.Perform, HistoryTied, IndexOf, CatalogHistory.Valid, CatalogHistory.Extends, PartGrows,
         BusyOk, PartTied, StateOf, Tied;
    var p, cat := PartAt(w, key), w.sys.sys.cat;
    UsePart(p, op);
    var q := Absorb(p, E.Perform(p.c, StateOf(p), op));
    Histories(env, w);
    if InCatalog(cat, key) {
      var t := cat.topics[key.topic];
      TiedPart(env.hasher, cat, w, key);
      PartTiedGrows(env.hasher, key, t.partitions[key.partition], Catalog.RetiredOf(t, key.partition), p, q);
    }
    PutKeeps(env, w, key, q);
  }

  lemma DiscardKeeps(env: Env, w: World, key: TopicKey, j: nat)
    requires Inv(env, w) && DoDiscard(env, w, key, j).Some?
    ensures Inv(env, DoDiscard(env, w, key, j).value)
  {
    hide C.Inv, PartOk, HistoryTied, CatalogHistory.Valid, CatalogHistory.Extends, StorageAccepted, PartTied, Tied,
         PartGrows, BusyOk, IndexOf, Catalog.ReplayFrom;
    var p := PartAt(w, key);
    Discarded(p, j);
    Histories(env, w);
    ListedHere(env, w, key);
    BusyElsewhere(env, w, key);
    if w.sys.open && InCatalog(w.sys.sys.cat, key) {
      var t := w.sys.sys.cat.topics[key.topic];
      TiedPart(env.hasher, w.sys.sys.cat, w, key);
      IndexAbove(env.hasher, key, t.partitions[key.partition], Catalog.RetiredOf(t, key.partition), p, j);
    }
    PutKeeps(env, w, key, p.(gone := p.gone + {j}));
  }

  lemma ListedHere(env: Env, w: World, key: TopicKey)
    requires Inv(env, w)
    requires var cat := if w.sys.open then w.sys.sys.cat else CatalogOf(w.sys.catalog); key.topic in cat.topics
    ensures Listed(w.sys.catalog, key.topic)
  {
    hide C.Inv, PartsOk, HistoryTied, Served, CatalogHistory.Valid, Catalog.ReplayFrom, Tied, BusyOk;
    Histories(env, w);
  }

  lemma Discarded(p: Part, j: nat)
    requires PartOk(p) && j + 1 < |p.all|
    ensures var q := p.(gone := p.gone + {j}); PartOk(q) && PartGrows(p, q)
  {
    hide E.Inv, Rooted;
    RootedSame(p, p.(gone := p.gone + {j}));
    ContinuesItself(p.all);
  }

  /** The topic being created is in no catalog yet. */
  lemma BusyElsewhere(env: Env, w: World, key: TopicKey)
    requires Inv(env, w) && Listed(w.sys.catalog, key.topic)
    ensures w.busy != Some(key.topic)
  {
    hide C.Inv, PartsOk, HistoryTied, Served, Listed;
  }

  lemma RootedSame(p: Part, q: Part)
    requires PartOk(p) && q.c == p.c && q.all == p.all && q.debris == p.debris && (q.down == p.down || q.down)
    requires q.start < |q.all| && (forall j | j in q.gone :: j + 1 < |q.all|)
    ensures PartOk(q)
  {
    hide E.ChainOk, E.HistoryOk, E.Bounded;
    assert Rooted(q) == Rooted(p).(unavailable := q.down);
    StoppedInv(p.c, Rooted(p), q.down);
  }

  lemma StoppedInv(c: E.Config, s: E.State, down: bool)
    requires E.Inv(c, s) && (down == s.unavailable || down)
    ensures E.Inv(c, s.(unavailable := down))
  {
    hide LogOk, Views, Directory, DebrisOk, Contiguous;
  }

  /** Segments that start below the retained start come before it. */
  lemma IndexAbove(h: Hasher, key: TopicKey, p: Catalog.Partition, retired: map<u64, Catalog.Retired>, q: Part, j: nat)
    requires PartOk(q) && PartTied(h, key, p, retired, q) && j < |q.all|
    ensures j < IndexOf(q.all, p.retainedL) <==> q.all[j].header.base < p.retainedL
    ensures IndexOf(q.all, p.retainedL) < |q.all|
  {
    hide E.Inv, Inventory, AnchorOf, IndexOf, LogOk, DebrisOk;
    PartFacts(q);
    var k := IndexOf(q.all, p.retainedL);
    if j < k { BasesRise(h.f, q.all, key.topic, key.partition, j, k); }
    if k < j { BasesRise(h.f, q.all, key.topic, key.partition, k, j); }
  }

  // ------------------------------------------------------------------ new storage

  lemma PrepareKeeps(env: Env, w: World, topic: Id, written: Option<nat>)
    requires Inv(env, w) && DoPrepare(w, topic, written).Some?
    ensures Inv(env, DoPrepare(w, topic, written).value)
  {
    hide C.Inv, PartOk, HistoryTied, CatalogHistory.Valid, CatalogHistory.Extends, Catalog.ReplayFrom, IndexOf,
         TopicTied, ShelfGrows, BusyPart;
    var n := DoPrepare(w, topic, written).value;
    Histories(env, w);
    forall id | id in CatalogOf(w.sys.catalog).topics && id in w.shelves
      ensures id in n.shelves && ShelfGrows(w.shelves[id], n.shelves[id])
    {
      SameShelf(w, id);
    }
    HistoryGrows(env.hasher, w.sys.catalog, w.shelves, n.shelves);
    WholeMarker(topic, written);
  }

  lemma SameShelf(w: World, id: Id)
    requires PartsOk(w.shelves) && id in w.shelves
    ensures ShelfGrows(w.shelves[id], w.shelves[id])
  {
    hide E.Inv, Continues;
    forall i | i in w.shelves[id].parts ensures w.shelves[id].parts[i].all != [] {
      assert PartOk(w.shelves[id].parts[i]);
    }
    ShelfSame(w.shelves[id], w.shelves[id]);
  }

  lemma WholeMarker(topic: Id, written: Option<nat>)
    ensures Marked(topic, written) == Some(MarkerOf(topic)) <==> written.Some? && written.value >= MARKER_BYTES
    ensures MarkerAccepted(Marked(topic, written), topic) <==> written.None? || written.value >= MARKER_BYTES
  {
    hide MarkerOf;
    var m := MarkerOf(topic);
    assert m[..MARKER_BYTES] == m;
  }

  /** A new partition of a topic that no catalog knows. */
  lemma NewPartKeeps(env: Env, w: World, key: TopicKey, q: Part)
    requires Inv(env, w) && PartOk(q) && !Listed(w.sys.catalog, key.topic)
    requires w.busy != Some(key.topic)
    ensures Inv(env, Put(w, key, q))
  {
    hide C.Inv, PartOk, HistoryTied, CatalogHistory.Valid, CatalogHistory.Extends, Catalog.ReplayFrom, IndexOf,
         TopicTied, ShelvesGrow, BusyPart, Tied, MarkerOf;
    NewPartHistory(env, w, key, q);
    Histories(env, w);
    if w.sys.open { LiveListed(env, w, key.topic); }
  }

  lemma LiveListed(env: Env, w: World, id: Id)
    requires Inv(env, w) && w.sys.open && !Listed(w.sys.catalog, id)
    ensures id !in w.sys.sys.cat.topics
  {
    hide C.Inv, PartsOk, HistoryTied, Served, CatalogHistory.Valid, Catalog.ReplayFrom, Tied, BusyOk;
    Histories(env, w);
  }

  lemma NewPartHistory(env: Env, w: World, key: TopicKey, q: Part)
    requires Inv(env, w) && PartOk(q) && !Listed(w.sys.catalog, key.topic)
    ensures PartsOk(Put(w, key, q).shelves) && HistoryTied(env.hasher, w.sys.catalog, Put(w, key, q).shelves)
  {
    hide C.Inv, PartOk, HistoryTied, CatalogHistory.Valid, CatalogHistory.Extends, Catalog.ReplayFrom, Served, Tied,
         ShelvesGrow, BusyOk, Put;
    Histories(env, w);
    PutParts(w, key, q);
    PutGrows(w, key, q, CatalogOf(w.sys.catalog).topics.Keys);
    HistoryGrows(env.hasher, w.sys.catalog, w.shelves, Put(w, key, q).shelves);
  }

  lemma DirectKeeps(env: Env, w: World, key: TopicKey, options: E.Options, base: u64, id: Id)
    requires Inv(env, w) && DoDirect(env, w, key, options, base, id).Some?
    ensures Inv(env, DoDirect(env, w, key, options, base, id).value)
  {
    hide C.Inv, PartOk, HistoryTied, Catalog.ReplayFrom, Served, BusyOk, PartsOk;
    FreshOk(env.hasher.f, key, options, base, id);
    AllListed(env, w);
    NewPartKeeps(env, w, key, FreshPart(env.hasher.f, key, options, base, id));
  }

  /** While the catalog takes appends, its history is the live catalog. */
  lemma AllListed(env: Env, w: World)
    requires Inv(env, w) && w.sys.open && !w.sys.catalogDown
    ensures Catalog.ReplayFrom(Catalog.EMPTY, 0, w.sys.catalog) == Some(w.sys.sys.cat)
  {
    hide C.Represents, Accepted, C.WithinOperatingLimits, C.BuildOk, C.BehindOk, Catalog.ReplayFrom, C.FoldOf, PartsOk,
         HistoryTied, Served, BusyOk;
    ReplayIs(w.sys.store, w.sys.ackedCatalog, w.sys.ackedOffsets);
  }

  lemma AddPartitionKeeps(env: Env, w: World, id: Id, options: E.Options)
    requires Inv(env, w) && DoAddPartition(env, w, id, options).Some?
    ensures Inv(env, DoAddPartition(env, w, id, options).value)
  {
    hide C.Inv, PartOk, HistoryTied, Catalog.ReplayFrom, PartsOk, IndexOf, MarkerOf, Listed;
    var topic := w.busy.value;
    var key := TopicKey(topic, |w.shelves[topic].parts|);
    var q := FreshPart(env.hasher.f, key, options, 0, id);
    FreshOk(env.hasher.f, key, options, 0, id);
    NewPartHistory(env, w, key, q);
    LiveListed(env, w, topic);
  }

  // --------------------------------------------------------------- catalog records

  lemma AppendTied(h: Hasher, c: seq<Catalog.Event>, e: Catalog.Event, shelves: map<Id, Shelf>)
    requires HistoryTied(h, c, shelves) && TiedTo(h, c + [e], shelves)
    ensures HistoryTied(h, c + [e], shelves)
  {
    hide TiedTo;
    forall n | 0 <= n <= |c + [e]| ensures TiedTo(h, (c + [e])[..n], shelves) {
      if n <= |c| {
        assert (c + [e])[..n] == c[..n];
      } else {
        assert (c + [e])[..n] == c + [e];
      }
    }
  }

  lemma {:induction false} EntriesSplit(h: Hasher, a: seq<Seg>, b: seq<Seg>)
    requires AllCountable(h.f, a) && AllCountable(h.f, b)
    ensures AllCountable(h.f, a + b) && EntriesOf(h, a + b) == EntriesOf(h, a) + EntriesOf(h, b)
  {
    hide EntryOf, Countable;
  }

  /** An event that retires the first `n` segments in use, by what was written to
      them. */
  ghost predicate Retires(h: Hasher, e: Catalog.Event, key: TopicKey, q: Part, n: nat) {
    && 0 < n && q.start + n < |q.all| && AllCountable(h.f, q.all)
    && e.LogStartAdvanced? && e.key == key && e.newL == q.all[q.start + n].header.base
    && e.anchor == AnchorOf(h, q.all[q.start + n].header)
    && e.retired == EntriesOf(h, q.all[q.start..q.start + n])
  }

  /** What the engine reports of its segments is what was written to them. */
  lemma EventRetires(h: Hasher, w: World, key: TopicKey, n: nat, reason: Catalog.Mask)
    requires Retainable(w, key, n) && PartOk(PartAt(w, key)) && PartAt(w, key).c.f == h.f
    ensures Retires(h, AdvanceEvent(h, w, key, n, reason), key, PartAt(w, key), n)
  {
    hide E.Inv, HeaderImage, View, SegBytes, EndOf, LogOk, DebrisOk, Sized, SegOk, Directory;
    var q := PartAt(w, key);
    PartSizes(q);
    PartFacts(q);
    var s, e, k := StateOf(q), AdvanceEvent(h, w, key, n, reason), q.start;
    forall i | 0 <= i <= n
      ensures s.segments[i].header == q.all[k + i].header && s.segments[i].end == EndOf(q.all[k + i])
      ensures s.segments[i].size == |SegBytes(h.f, q.all[k + i])|
      ensures i < n ==> EndOf(q.all[k + i]) == q.all[k + i + 1].header.base
    {
      assert s.segments[i] == View(h.f, q.all[k + i]);
      SegAt(h.f, q.all, q.c.topic, q.c.partition, k + i);
      E.ViewFacts(h.f, q.all[k + i], q.c.topic, q.c.partition);
      ViewHeader(h.f, q.all[k + i]);
    }
    assert s.segments[n - 1].end == q.all[k + n].header.base;
    var entries := EntriesOf(h, q.all[k..k + n]);
    forall i | 0 <= i < n ensures e.retired[i] == entries[i] {
      assert q.all[k..k + n][i] == q.all[k + i];
    }
  }

  /** The partition that a retention event names is tied to the advanced catalog. */
  lemma {:induction false} AdvancedBound(h: Hasher, p: Catalog.Partition, retired: map<u64, Catalog.Retired>,
                                         key: TopicKey, q: Part, n: nat, e: Catalog.Event, next: Catalog.Partition)
    requires Bound(h, q.all, p, retired, q.start) && Retires(h, e, key, q, n)
    requires next.retainedL == e.newL && next.current == e.anchor
    ensures Bound(h, q.all, next, Catalog.Merge(retired, e.retired), q.start + n)
  {
    hide HeaderImage, Countable, EntryOf, EntriesOf, AnchorOf;
    var a, b := q.all[..q.start], q.all[q.start..q.start + n];
    assert a + b == q.all[..q.start + n];
    EntriesSplit(h, a, b);
    MergeSplit(map[], EntriesOf(h, a), EntriesOf(h, b));
  }

  lemma AdvancedPartTied(h: Hasher, t: Catalog.Topic, key: TopicKey, q: Part, n: nat, e: Catalog.Event, offset: Offset)
    requires key.partition < |t.partitions| && PartOk(q) && Retires(h, e, key, q, n)
    requires PartTied(h, key, t.partitions[key.partition], Catalog.RetiredOf(t, key.partition), q)
    requires q.start == IndexOf(q.all, t.partitions[key.partition].retainedL)
    ensures PartTied(h, key, Catalog.AdvancedPartition(t.partitions[key.partition], e, offset),
                     Catalog.Merge(Catalog.RetiredOf(t, key.partition), e.retired), q)
    ensures q.start + n == IndexOf(q.all, e.newL)
  {
    hide E.Inv, Inventory, AnchorOf, IndexOf, Catalog.Merge, Rooted, EntriesOf, AllCountable, LogOk, DebrisOk;
    var p := t.partitions[key.partition];
    AdvancedBound(h, p, Catalog.RetiredOf(t, key.partition), key, q, n, e, Catalog.AdvancedPartition(p, e, offset));
    PartFacts(q);
    IndexIs(h.f, q.all, key.topic, key.partition, q.start + n);
  }

  lemma TopicAdvanced(h: Hasher, t: Catalog.Topic, s: Shelf, key: TopicKey, n: nat, e: Catalog.Event, offset: Offset)
    requires TopicTied(h, key.topic, t, s) && key.partition < |t.partitions| && key.partition in s.parts
    requires var q := s.parts[key.partition];
             && PartOk(q) && q.start == IndexOf(q.all, t.partitions[key.partition].retainedL)
                && Retires(h, e, key, q, n)
    ensures TopicTied(h, key.topic, Catalog.AdvancedTopic(t, e, offset), s)
    ensures var q := s.parts[key.partition]; q.start + n == IndexOf(q.all, e.newL)
  {
    hide PartOk, PartTied, MarkerOf, IndexOf, Catalog.Merge, AnchorOf, EntriesOf, AllCountable;
    AdvancedPartTied(h, t, key, s.parts[key.partition], n, e, offset);
  }

  lemma AdvanceTied(h: Hasher, cat: Catalog.State, w: World, key: TopicKey, n: nat, e: Catalog.Event)
    requires Tied(h, cat, w.shelves) && PartsOk(w.shelves) && InCatalog(cat, key) && HasPart(w, key)
    requires PartAt(w, key).start == IndexOf(PartAt(w, key).all, RetainedStart(cat, key))
    requires Retires(h, e, key, PartAt(w, key), n)
    requires cat.revision < MAX_OFFSET && Catalog.Transition(cat, cat.revision, e).Some?
    ensures var next := Catalog.Transition(cat, cat.revision, e).value;
            && Tied(h, next, w.shelves) && InCatalog(next, key) && RetainedStart(next, key) == e.newL
            && PartAt(w, key).start + n == IndexOf(PartAt(w, key).all, e.newL)
  {
    hide PartOk, MarkerOf, IndexOf, Catalog.Transition, TopicTied, Catalog.Merge;
    Catalog.AdvanceIs(cat, cat.revision, e);
    TopicAdvanced(h, cat.topics[key.topic], w.shelves[key.topic], key, n, e, cat.revision);
  }

  lemma RetainedPart(q: Part, n: nat, outcome: C.Outcome)
    requires PartOk(q) && q.start + n < |q.all|
    ensures PartOk(AfterRetain(q, n, outcome)) && PartGrows(q, AfterRetain(q, n, outcome))
  {
    hide E.Inv, Rooted;
    ContinuesItself(q.all);
    RootedSame(q, AfterRetain(q, n, outcome));
  }

  /** A catalog record over storage that is tied to what it leads to. */
  lemma CatalogKeeps(env: Env, w: World, e: Catalog.Event, outcome: C.Outcome, n: World)
    requires Inv(env, w) && C.Do(env.digests, w.sys, C.AppendCatalog(e, outcome)) == Some(n.sys)
    requires TiedTo(env.hasher, w.sys.catalog + [e], w.shelves)
    requires PartsOk(n.shelves) && ShelvesGrow(w.shelves.Keys, w.shelves, n.shelves)
    requires Served(n.sys.sys.cat, n.shelves) && BusyOk(env, n)
    ensures Inv(env, n)
  {
    hide C.Inv, C.Do, HistoryTied, Catalog.Transition, Catalog.ReplayFrom, BusyOk, PartsOk, Served, ShelfGrows, TiedTo,
         CatalogHistory.Valid, CatalogHistory.Extends, Tied;
    CatalogStep(env.digests, w.sys, e, outcome);
    CS.StepKeeps(env.digests, w.sys, C.AppendCatalog(e, outcome));
    if C.Durable(outcome) { AppendTied(env.hasher, w.sys.catalog, e, w.shelves); }
    HistoryGrows(env.hasher, n.sys.catalog, w.shelves, n.shelves);
  }

  lemma RetainReady(env: Env, w: World, key: TopicKey, n: nat, reason: Catalog.Mask)
    requires Inv(env, w) && Retainable(w, key, n)
    ensures var q := PartAt(w, key);
            && PartOk(q) && q.start == IndexOf(q.all, RetainedStart(w.sys.sys.cat, key))
            && (forall j | j in q.gone :: j < q.start)
            && Retires(env.hasher, AdvanceEvent(env.hasher, w, key, n, reason), key, q, n)
  {
    hide C.Inv, PartOk, HistoryTied, IndexOf, CatalogHistory.Valid, CatalogHistory.Extends, BusyOk, Catalog.ReplayFrom,
         StateOf, AdvanceEvent, Retires, Tied, Bound;
    Histories(env, w);
    TiedPart(env.hasher, w.sys.sys.cat, w, key);
    EventRetires(env.hasher, w, key, n, reason);
  }

  /** A retention event in a store whose catalog takes it. */
  lemma RetainFacts(env: Env, w: World, key: TopicKey, n: nat, q: Part, e: Catalog.Event)
    requires Inv(env, w) && w.sys.open && InCatalog(w.sys.sys.cat, key) && HasPart(w, key) && q == PartAt(w, key)
    requires q.start == IndexOf(q.all, RetainedStart(w.sys.sys.cat, key)) && Retires(env.hasher, e, key, q, n)
    requires w.sys.sys.cat.revision < MAX_OFFSET
             && Catalog.Transition(w.sys.sys.cat, w.sys.sys.cat.revision, e).Some?
    requires Catalog.ReplayFrom(Catalog.EMPTY, 0, w.sys.catalog + [e]) ==
             Catalog.Transition(w.sys.sys.cat, w.sys.sys.cat.revision, e)
    ensures q.start + n < |q.all| && e.LogStartAdvanced? && e.key == key
    ensures TiedTo(env.hasher, w.sys.catalog + [e], w.shelves)
    ensures var next := Catalog.Transition(w.sys.sys.cat, w.sys.sys.cat.revision, e).value;
            InCatalog(next, key) && RetainedStart(next, key) == e.newL && q.start + n == IndexOf(q.all, e.newL)
  {
    hide C.Inv, PartOk, HistoryTied, IndexOf, CatalogHistory.Valid, CatalogHistory.Extends, BusyOk, Served,
         Catalog.Transition, Catalog.ReplayFrom, Tied, AllCountable, AnchorOf, EntriesOf;
    Histories(env, w);
    AdvanceTied(env.hasher, w.sys.sys.cat, w, key, n, e);
  }

  lemma RetainKeeps(env: Env, w: World, key: TopicKey, n: nat, reason: Catalog.Mask, outcome: C.Outcome)
    requires Inv(env, w) && DoRetain(env, w, key, n, reason, outcome).Some?
    ensures Inv(env, DoRetain(env, w, key, n, reason, outcome).value)
  {
    hide Inv, C.Do, PartOk, IndexOf, BusyOk, PartsOk, Catalog.Transition, Catalog.ReplayFrom, StateOf, AdvanceEvent,
         PartGrows, Served, Put, ShelvesGrow, TiedTo, Retires;
    var q := PartAt(w, key);
    var e, r := AdvanceEvent(env.hasher, w, key, n, reason), AfterRetain(q, n, outcome);
    var final := DoRetain(env, w, key, n, reason, outcome).value;
    PutSystem(w, key, r, C.Do(env.digests, w.sys, C.AppendCatalog(e, outcome)).value);
    Unfolded(env, w);
    CatalogStep(env.digests, w.sys, e, outcome);
    RetainReady(env, w, key, n, reason);
    RetainFacts(env, w, key, n, q, e);
    RetainedPart(q, n, outcome);
    RetainShelves(env, w, key, r, final.sys);
    RetainServed(w, key, r, e, final.sys);
    RetainBusy(env, w, key, r, e, final.sys);
    CatalogKeeps(env, w, e, outcome, final);
  }

  lemma PutSystem(w: World, key: TopicKey, r: Part, sys: C.World)
    ensures Put(w.(sys := sys), key, r).sys == sys
  {
  }

  lemma Unfolded(env: Env, w: World)
    requires Inv(env, w)
    ensures C.Inv(env.digests, w.sys) && PartsOk(w.shelves) && BusyOk(env, w)
    ensures w.sys.open ==> Served(w.sys.sys.cat, w.shelves)
  {
    hide C.Inv, PartsOk, BusyOk, Served, HistoryTied;
  }

  lemma RetainShelves(env: Env, w: World, key: TopicKey, r: Part, sys: C.World)
    requires Inv(env, w) && HasPart(w, key) && PartOk(r) && PartGrows(PartAt(w, key), r)
    ensures var n := Put(w.(sys := sys), key, r);
            PartsOk(n.shelves) && ShelvesGrow(w.shelves.Keys, w.shelves, n.shelves)
  {
    hide C.Inv, PartOk, HistoryTied, Served, BusyOk, PartGrows;
    PutParts(w, key, r);
    PutGrows(w, key, r, w.shelves.Keys);
  }

  lemma RetainServed(w: World, key: TopicKey, r: Part, e: Catalog.Event, sys: C.World)
    requires Served(w.sys.sys.cat, w.shelves) && HasPart(w, key) && w.sys.sys.cat.revision < MAX_OFFSET
    requires e.LogStartAdvanced? && e.key == key
    requires Catalog.Transition(w.sys.sys.cat, w.sys.sys.cat.revision, e).Some?
    requires sys.sys.cat == w.sys.sys.cat
             || sys.sys.cat == Catalog.Transition(w.sys.sys.cat, w.sys.sys.cat.revision, e).value
    requires InCatalog(sys.sys.cat, key) && r.start == IndexOf(r.all, RetainedStart(sys.sys.cat, key))
    requires forall j | j in r.gone :: j < r.start
    ensures Served(sys.sys.cat, Put(w.(sys := sys), key, r).shelves)
  {
    hide IndexOf, Catalog.Transition, Catalog.Merge;
    Catalog.AdvanceIs(w.sys.sys.cat, w.sys.sys.cat.revision, e);
  }

  lemma RetainBusy(env: Env, w: World, key: TopicKey, r: Part, e: Catalog.Event, sys: C.World)
    requires BusyOk(env, w) && sys.open && HasPart(w, key) && e.LogStartAdvanced? && e.key == key
    requires Catalog.ReplayFrom(Catalog.EMPTY, 0, w.sys.catalog) == Some(w.sys.sys.cat)
             && InCatalog(w.sys.sys.cat, key) && w.sys.sys.cat.revision < MAX_OFFSET
    requires Catalog.Transition(w.sys.sys.cat, w.sys.sys.cat.revision, e).Some?
    requires Catalog.ReplayFrom(Catalog.EMPTY, 0, w.sys.catalog + [e]) ==
             Catalog.Transition(w.sys.sys.cat, w.sys.sys.cat.revision, e)
    requires sys.catalog == w.sys.catalog || sys.catalog == w.sys.catalog + [e]
    ensures BusyOk(env, Put(w.(sys := sys), key, r))
  {
    hide Catalog.ReplayFrom, Catalog.Transition, Catalog.Merge, MarkerOf, BusyPart;
    Catalog.AdvanceIs(w.sys.sys.cat, w.sys.sys.cat.revision, e);
  }

  // ----------------------------------------------------------------- a new topic

  lemma CreateIs(cat: Catalog.State, offset: Offset, e: Catalog.Event)
    requires e.TopicCreated? && Catalog.Transition(cat, offset, e).Some?
    ensures Catalog.Transition(cat, offset, e).value.topics ==
            cat.topics[e.topic := Catalog.Topic(e.topic, e.name, Catalog.NewPartitions(e.partitions, offset), map[],
                                                offset)]
    ensures e.topic !in cat.topics
  {
    hide Catalog.NewPartitions;
  }

  lemma CreatedPart(h: Hasher, key: TopicKey, q: Part, config: Catalog.Config, offset: Offset)
    requires BusyPart(h.f, key, q) && Configured(q, config)
    ensures var p := Catalog.NewPartition(Catalog.CreatedPartition(key.partition, config, AnchorOf(h, q.all[0].header)),
                                          offset);
            && PartTied(h, key, p, map[], q) && q.start == IndexOf(q.all, p.retainedL) && q.gone == {}
  {
    hide AnchorOf;
    assert q.all[..0] == [];
    InventoryNone(h, q.all[..0]);
  }

  lemma CreatedAt(h: Hasher, s: Shelf, config: Catalog.Config, i: u32)
    requires Prepared(s, config) && i < |s.parts|
    ensures |CreatedParts(h, s, config)| == |s.parts|
    ensures CreatedParts(h, s, config)[i] == Catalog.CreatedPartition(i, config, AnchorOf(h, s.parts[i].all[0].header))
  {
    hide AnchorOf;
  }

  lemma CreatedTied(h: Hasher, id: Id, s: Shelf, name: Bytes, config: Catalog.Config, offset: Offset)
    requires Prepared(s, config) && s.marker == Some(MarkerOf(id))
    requires forall i | i in s.parts :: i < |s.parts| && BusyPart(h.f, TopicKey(id, i), s.parts[i])
    ensures var t := Catalog.Topic(id, name, Catalog.NewPartitions(CreatedParts(h, s, config), offset), map[], offset);
            && TopicTied(h, id, t, s)
            && forall i | 0 <= i < |t.partitions| && i in s.parts ::
                 s.parts[i].start == IndexOf(s.parts[i].all, t.partitions[i].retainedL) && s.parts[i].gone == {}
  {
    hide PartTied, AnchorOf, IndexOf, MarkerOf, BusyPart, CreatedParts, Catalog.NewPartition;
    var t := Catalog.Topic(id, name, Catalog.NewPartitions(CreatedParts(h, s, config), offset), map[], offset);
    CreatedAt(h, s, config, 0);
    forall i | 0 <= i < |t.partitions|
      ensures i in s.parts && PartTied(h, TopicKey(id, i), t.partitions[i], Catalog.RetiredOf(t, i), s.parts[i])
      ensures s.parts[i].start == IndexOf(s.parts[i].all, t.partitions[i].retainedL) && s.parts[i].gone == {}
    {
      var k: u32 := i;
      CreatedAt(h, s, config, k);
      CreatedPart(h, TopicKey(id, k), s.parts[k], config, offset);
    }
  }

  lemma CreateKeeps(env: Env, w: World, name: Bytes, config: Catalog.Config, outcome: C.Outcome)
    requires Inv(env, w) && DoCreateTopic(env, w, name, config, outcome).Some?
    ensures Inv(env, DoCreateTopic(env, w, name, config, outcome).value)
  {
    hide Inv, C.Do, PartOk, IndexOf, PartsOk, Catalog.Transition, Catalog.ReplayFrom, ShelvesGrow, TiedTo, CreatedEvent,
         Served, BusyOk, Prepared;
    var e, final := CreatedEvent(env.hasher, w, name, config), DoCreateTopic(env, w, name, config, outcome).value;
    Unfolded(env, w);
    CatalogStep(env.digests, w.sys, e, outcome);
    CreateFacts(env, w, name, config);
    SameShelves(w);
    NotBusy(env, final);
    CatalogKeeps(env, w, e, outcome, final);
  }

  lemma NotBusy(env: Env, w: World)
    requires w.busy.None?
    ensures BusyOk(env, w)
  {
  }

  lemma SameShelves(w: World)
    requires PartsOk(w.shelves)
    ensures ShelvesGrow(w.shelves.Keys, w.shelves, w.shelves)
  {
    hide PartOk, ShelfGrows;
    forall id | id in w.shelves ensures ShelfGrows(w.shelves[id], w.shelves[id]) { SameShelf(w, id); }
  }

  lemma CreateFacts(env: Env, w: World, name: Bytes, config: Catalog.Config)
    requires Inv(env, w) && Creatable(w, config) && w.sys.open && w.sys.sys.cat.revision < MAX_OFFSET
    requires var e := CreatedEvent(env.hasher, w, name, config);
             && Catalog.Transition(w.sys.sys.cat, w.sys.sys.cat.revision, e).Some?
             && Catalog.ReplayFrom(Catalog.EMPTY, 0, w.sys.catalog + [e]) ==
                Catalog.Transition(w.sys.sys.cat, w.sys.sys.cat.revision, e)
    ensures var e := CreatedEvent(env.hasher, w, name, config);
            && TiedTo(env.hasher, w.sys.catalog + [e], w.shelves)
            && Served(Catalog.Transition(w.sys.sys.cat, w.sys.sys.cat.revision, e).value, w.shelves)
  {
    hide C.Inv, PartOk, HistoryTied, IndexOf, CatalogHistory.Valid, CatalogHistory.Extends, Catalog.Transition,
         Catalog.ReplayFrom, TopicTied, CreatedParts, Prepared, MarkerOf, BusyPart, Catalog.NewPartitions;
    var e, id, cat := CreatedEvent(env.hasher, w, name, config), w.busy.value, w.sys.sys.cat;
    Histories(env, w);
    CreateIs(cat, cat.revision, e);
    CreatedTied(env.hasher, id, w.shelves[id], name, config, cat.revision);
  }

  // --------------------------------------------------------------- system steps

  lemma {:induction false} PlacedPartOk(p: Part, start: u64)
    requires PartOk(p) && IndexOf(p.all, start) < |p.all|
    ensures PartOk(PlacedPart(p, start)) && PartGrows(p, PlacedPart(p, start))
  {
    hide E.Inv, Rooted, IndexOf;
    ContinuesItself(p.all);
    RootedSame(p, PlacedPart(p, start));
  }

  /** Opening the store, with storage that preflight accepts. */
  lemma PlacedKeeps(h: Hasher, cat: Catalog.State, shelves: map<Id, Shelf>)
    requires PartsOk(shelves) && Tied(h, cat, shelves) && PartsWhole(cat, shelves)
    ensures var n := Placed(shelves, cat);
            PartsOk(n) && ShelvesGrow(shelves.Keys, shelves, n) && Served(cat, n)
  {
    hide PartOk, PartTied, IndexOf, PartGrows, MarkerOf, PartWhole;
    var n := Placed(shelves, cat);
    forall id, i | id in shelves && i in shelves[id].parts
      ensures PartOk(n[id].parts[i]) && PartGrows(shelves[id].parts[i], n[id].parts[i])
      ensures id in cat.topics && i < |cat.topics[id].partitions| ==>
                n[id].parts[i].start == IndexOf(n[id].parts[i].all, cat.topics[id].partitions[i].retainedL)
                && forall j | j in n[id].parts[i].gone :: j < n[id].parts[i].start
    {
      PlacedAt(h, cat, shelves, id, i);
    }
  }

  lemma PlacedAt(h: Hasher, cat: Catalog.State, shelves: map<Id, Shelf>, id: Id, i: u32)
    requires PartsOk(shelves) && Tied(h, cat, shelves) && PartsWhole(cat, shelves)
    requires id in shelves && i in shelves[id].parts
    ensures var p, q := shelves[id].parts[i], Placed(shelves, cat)[id].parts[i];
            && PartOk(q) && PartGrows(p, q)
            && (id in cat.topics && i < |cat.topics[id].partitions| ==>
                  && q.start == IndexOf(q.all, cat.topics[id].partitions[i].retainedL)
                  && forall j | j in q.gone :: j < q.start)
  {
    hide E.Inv, Rooted, PartTied, IndexOf, MarkerOf, Continues, Readable;
    var p := shelves[id].parts[i];
    assert PartOk(p);
    ContinuesItself(p.all);
    if id in cat.topics && i < |cat.topics[id].partitions| {
      var t := cat.topics[id];
      assert TopicTied(h, id, t, shelves[id]) && PartWhole(p, t.partitions[i].retainedL);
      forall j | j in p.gone ensures j < IndexOf(p.all, t.partitions[i].retainedL) {
        IndexAbove(h, TopicKey(id, i), t.partitions[i], Catalog.RetiredOf(t, i), p, j);
      }
      IndexAbove(h, TopicKey(id, i), t.partitions[i], Catalog.RetiredOf(t, i), p, 0);
      PlacedPartOk(p, t.partitions[i].retainedL);
    }
  }

  lemma PrefixTied(h: Hasher, c: seq<Catalog.Event>, d: seq<Catalog.Event>, shelves: map<Id, Shelf>)
    requires HistoryTied(h, c, shelves) && d <= c
    ensures HistoryTied(h, d, shelves)
  {
    hide TiedTo;
    forall n | 0 <= n <= |d| ensures TiedTo(h, d[..n], shelves) { assert d[..n] == c[..n]; }
  }

  lemma BehindPrefix(h: C.Digests, w: C.World)
    requires C.Inv(h, w) && w.behind.Some?
    ensures w.behind.value.catalog <= w.catalog
  {
    hide C.Admissible, C.Represents, C.OpenOk;
  }

  lemma SystemKeeps(env: Env, w: World, step: C.Step)
    requires Inv(env, w) && DoSystem(env, w, step).Some?
    ensures Inv(env, DoSystem(env, w, step).value)
  {
    hide C.Inv, C.Do, PartsOk, HistoryTied, CatalogHistory.Valid, CatalogHistory.Extends, Catalog.ReplayFrom, Served,
         StorageAccepted, Tied, ShelvesGrow, Placed, BusyPart, PartsWhole, ShelvesWhole, MarkerOf;
    var n := DoSystem(env, w, step).value;
    CS.StepKeeps(env.digests, w.sys, step);
    QuietStep(env.digests, w.sys, step);
    Histories(env, w);
    if step.Open? {
      var cat := n.sys.sys.cat;
      StorageExactly(env.hasher, cat, w.shelves);
      PlacedKeeps(env.hasher, cat, w.shelves);
      GrowsOn(w.shelves.Keys, cat.topics.Keys, w.shelves, n.shelves);
      HistoryGrows(env.hasher, w.sys.catalog, w.shelves, n.shelves);
    } else if C.Reverts(w.sys, step) {
      BehindPrefix(env.digests, w.sys);
      PrefixTied(env.hasher, w.sys.catalog, n.sys.catalog, w.shelves);
      PowerOff(env.digests, w.sys, step);
    }
  }

  lemma PowerOff(h: C.Digests, w: C.World, step: C.Step)
    requires C.Reverts(w, step) && C.Do(h, w, step).Some?
    ensures !C.Do(h, w, step).value.open
  {
  }

  lemma GrowsOn(a: set<Id>, b: set<Id>, from: map<Id, Shelf>, to: map<Id, Shelf>)
    requires ShelvesGrow(a, from, to) && from.Keys <= a
    ensures ShelvesGrow(b, from, to)
  {
    hide ShelfGrows;
  }

  // ------------------------------------------------------------------- every run

  lemma StepKeeps(env: Env, w: World, step: Step)
    requires Inv(env, w) && Do(env, w, step).Some?
    ensures Inv(env, Do(env, w, step).value)
  {
    hide Inv, DoSystem, DoPrepare, DoAddPartition, DoCreateTopic, DoDirect, DoUse, DoRetain, DoDiscard;
    match step
    case System(s) => SystemKeeps(env, w, s);
    case Prepare(topic, written) => PrepareKeeps(env, w, topic, written);
    case AddPartition(id, options) => AddPartitionKeeps(env, w, id, options);
    case CreateTopic(name, config, outcome) => CreateKeeps(env, w, name, config, outcome);
    case Abandon => AbandonKeeps(env, w);
    case Direct(key, options, base, id) => DirectKeeps(env, w, key, options, base, id);
    case Use(key, op) => UseKeeps(env, w, key, op);
    case Retain(key, n, reason, outcome) => RetainKeeps(env, w, key, n, reason, outcome);
    case Discard(key, j) => DiscardKeeps(env, w, key, j);
  }

  lemma AbandonKeeps(env: Env, w: World)
    requires Inv(env, w)
    ensures Inv(env, w.(busy := None))
  {
    hide C.Inv, PartsOk, HistoryTied, Served;
  }

  lemma {:induction false} RunKeeps(env: Env, w: World, steps: seq<Step>, final: World)
    requires Inv(env, w) && Runs(env, w, steps, final)
    ensures Inv(env, final)
    decreases steps
  {
    hide Inv, Do;
    if steps != [] {
      StepKeeps(env, w, steps[0]);
      RunKeeps(env, Do(env, w, steps[0]).value, steps[1..], final);
    }
  }

  lemma NewOk(env: Env, init: Catalog.StoreInit)
    requires Catalog.ValidInit(init)
    ensures Inv(env, New(init)) && Whole(New(init))
  {
    hide C.Inv;
    var w := New(init);
    CS.NewStoreOk(env.digests, init);
    var c := w.sys.catalog;
    assert c[1..] == [] && c[..0] == [] && c[..1] == c;
    assert Catalog.ReplayFrom(Catalog.EMPTY, 0, c) == Catalog.Transition(Catalog.EMPTY, 0, c[0]);
    forall n | 0 <= n <= |c| ensures TiedTo(env.hasher, c[..n], w.shelves) { assert n == 0 || n == 1; }
  }
}
