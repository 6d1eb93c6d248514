/** Exactly which runs leave a store that can be opened. */
module StorageTheorems {
  import opened Base
  import opened Restart
  import opened Codec
  import opened Batches
  import opened Segments
  import opened PartitionLog
  import opened Preflight
  import opened PreflightSafety
  import opened Storage
  import opened StorageParts
  import opened StorageSafety
  import Catalog
  import CatalogHistory
  import C = Compaction
  import CS = CompactionSafety
  import E = PartitionEngine
  import SP = SegmentPieces

  // -------------------------------------------------------------- one partition

  /** Of all operations only an append that tears a batch header makes a partition
      unreadable, and none makes it readable again. */
  lemma UseReadable(p: Part, op: E.Op)
    requires PartOk(p) && Ready(StateOf(p)) && !op.Retire?
    ensures Readable(E.Perform(p.c, StateOf(p), op).debris) <==> Readable(p.debris) && !TearsHeader(p, op)
  {
    hide PartOk, E.Reopened, EncodeBatch, E.Limits, E.Overflows, HeaderImage, MaxTimestamp, E.WithTail;
    StateShape(p);
    PartFacts(p);
    match op
    case Append(batch, id, fault) =>
      if EncodeBatch(p.c.f, batch).Some? { EncodedShape(p.c.f, batch); }
    case Roll(id, fault) =>
    case Reopen => ReopenReadable(p);
  }

  lemma ReopenReadable(p: Part)
    requires PartOk(p) && Ready(StateOf(p))
    ensures Readable(E.Reopened(p.c, StateOf(p)).debris) <==> Readable(p.debris)
  {
    hide E.Inv, Open, LogOk, DebrisOk, Directory, Views, E.Cut, EncodeBatch;
    var s := StateOf(p);
    PartFacts(p);
    SuffixOk(p.c.f, p.all, p.debris, p.c.topic, p.c.partition, p.start);
    OpensExactly(p.c.f, s.log, p.debris, p.c.topic, p.c.partition);
  }

  lemma UseWhole(p: Part, op: E.Op, start: u64)
    requires PartOk(p) && Ready(StateOf(p)) && !op.Retire?
    ensures PartWhole(Absorb(p, E.Perform(p.c, StateOf(p), op)), start) <==>
            PartWhole(p, start) && !TearsHeader(p, op)
  {
    hide E.Inv, E.Perform, Readable, TearsHeader;
    UseReadable(p, op);
    UsePart(p, op);
    var q := Absorb(p, E.Perform(p.c, StateOf(p), op));
    assert forall j | j in p.gone :: q.all[j].header == p.all[j].header;
  }

  // -------------------------------------------------------------------- storage

  /** One partition of the storage changed. */
  lemma PutWhole(cat: Catalog.State, w: World, key: TopicKey, q: Part, kept: bool)
    requires HasPart(w, key)
    requires InCatalog(cat, key) ==>
               (PartWhole(q, RetainedStart(cat, key)) <==> PartWhole(PartAt(w, key), RetainedStart(cat, key)) && kept)
    requires !InCatalog(cat, key) ==> kept
    ensures StorageWhole(cat, Put(w, key, q).shelves) <==> StorageWhole(cat, w.shelves) && kept
  {
    hide PartWhole;
    var n := Put(w, key, q);
    assert key.topic in n.shelves && n.shelves[key.topic].marker == w.shelves[key.topic].marker;
    if StorageWhole(cat, n.shelves) {
      forall id, i | id in cat.topics && id in w.shelves && 0 <= i < |cat.topics[id].partitions|
                     && i in w.shelves[id].parts
        ensures PartWhole(w.shelves[id].parts[i], cat.topics[id].partitions[i].retainedL)
      {
        assert PartWhole(n.shelves[id].parts[i], cat.topics[id].partitions[i].retainedL);
      }
    }
  }

  lemma UseExactly(env: Env, w: World, key: TopicKey, op: E.Op)
    requires Inv(env, w) && DoUse(w, key, op).Some?
    ensures Whole(DoUse(w, key, op).value) <==> Whole(w) && !Breaks(w, Use(key, op))
  {
    hide Inv, PartOk, E.Perform, PartWhole, StorageWhole, Catalog.ReplayFrom, TearsHeader, StateOf, Put, Tied;
    var p := PartAt(w, key);
    var q := Absorb(p, E.Perform(p.c, StateOf(p), op));
    UseListed(env, w, key);
    var cat := CatalogOf(w.sys.catalog);
    if InCatalog(cat, key) { UseWhole(p, op, RetainedStart(cat, key)); }
    PutWhole(cat, w, key, q, !InCatalog(cat, key) || !TearsHeader(p, op));
    PutSystem(w, key, q, w.sys);
  }

  lemma UseListed(env: Env, w: World, key: TopicKey)
    requires Inv(env, w) && HasPart(w, key)
    ensures Catalog.ReplayFrom(Catalog.EMPTY, 0, w.sys.catalog).Some? && PartOk(PartAt(w, key))
    ensures InCatalog(CatalogOf(w.sys.catalog), key) <==> Listed(w.sys.catalog, key.topic)
  {
    hide C.Inv, PartOk, HistoryTied, BusyOk, Served, Catalog.ReplayFrom, CatalogHistory.Valid, CatalogHistory.Extends,
         PartTied, MarkerOf;
    Histories(env, w);
    var cat := CatalogOf(w.sys.catalog);
    if key.topic in cat.topics { assert TopicTied(env.hasher, key.topic, cat.topics[key.topic], w.shelves[key.topic]); }
  }

  lemma DiscardExactly(env: Env, w: World, key: TopicKey, j: nat)
    requires Inv(env, w) && DoDiscard(env, w, key, j).Some?
    ensures Whole(DoDiscard(env, w, key, j).value) <==> Whole(w)
  {
    hide Inv, PartOk, Readable, StorageWhole, Catalog.ReplayFrom, Put, StorageAccepted, Tied, CatalogHistory.Valid;
    Histories(env, w);
    var p, cat := PartAt(w, key), CatalogOf(w.sys.catalog);
    if w.sys.open { assert CatalogHistory.SameShape(w.sys.sys.cat.topics[key.topic], cat.topics[key.topic]); }
    assert InCatalog(cat, key) && p.all[j].header.base < RetainedStart(cat, key);
    PutWhole(cat, w, key, p.(gone := p.gone + {j}), true);
    PutSystem(w, key, p.(gone := p.gone + {j}), w.sys);
  }

  // ------------------------------------------------------------------ new storage

  lemma PrepareExactly(env: Env, w: World, topic: Id, written: Option<nat>)
    requires Inv(env, w) && DoPrepare(w, topic, written).Some?
    ensures Whole(DoPrepare(w, topic, written).value) <==> Whole(w) && !Breaks(w, Prepare(topic, written))
  {
    hide Inv, PartWhole, Catalog.ReplayFrom, TopicTied, CatalogHistory.Valid, CatalogHistory.Extends, MarkerAccepted,
         Marked;
    Histories(env, w);
    var n, cat := DoPrepare(w, topic, written).value, CatalogOf(w.sys.catalog);
    WholeMarker(topic, written);
    MarkedSome(topic, written);
    assert topic !in cat.topics;
    NewShelfWhole(cat, w.shelves, topic, n.shelves[topic]);
  }

  lemma MarkedSome(topic: Id, written: Option<nat>)
    ensures Marked(topic, written).Some? <==> written.Some?
  {
  }

  lemma NewShelfWhole(cat: Catalog.State, shelves: map<Id, Shelf>, topic: Id, s: Shelf)
    requires topic !in cat.topics && topic !in shelves
    ensures StorageWhole(cat, shelves[topic := s]) <==>
            StorageWhole(cat, shelves) && ShelfWhole(topic, s, cat.topics != map[])
  {
    hide PartWhole, ShelfWhole;
    var n := shelves[topic := s];
    if StorageWhole(cat, n) {
      forall id, i | id in cat.topics && id in shelves && 0 <= i < |cat.topics[id].partitions| && i in shelves[id].parts
        ensures PartWhole(shelves[id].parts[i], cat.topics[id].partitions[i].retainedL)
      {
        assert PartWhole(n[id].parts[i], cat.topics[id].partitions[i].retainedL);
      }
      forall id | id in shelves && id !in cat.topics ensures ShelfWhole(id, shelves[id], cat.topics != map[]) {
        assert ShelfWhole(id, n[id], cat.topics != map[]);
      }
    }
  }

  lemma DirectExactly(env: Env, w: World, key: TopicKey, options: E.Options, base: u64, id: Id)
    requires Inv(env, w) && DoDirect(env, w, key, options, base, id).Some?
    ensures Whole(DoDirect(env, w, key, options, base, id).value) <==>
            Whole(w) && !Breaks(w, Direct(key, options, base, id))
  {
    hide Inv, PartWhole, Catalog.ReplayFrom, TopicTied, CatalogHistory.Valid, CatalogHistory.Extends, MarkerOf,
         FreshPart;
    Histories(env, w);
    var n, cat := DoDirect(env, w, key, options, base, id).value, CatalogOf(w.sys.catalog);
    AllListed(env, w);
    if key.topic in w.shelves {
      SamePartsWhole(cat, w.shelves, n.shelves, key.topic);
    } else {
      NewShelfWhole(cat, w.shelves, key.topic, n.shelves[key.topic]);
    }
  }

  /** A shelf of no catalog topic that keeps its marker. */
  lemma SamePartsWhole(cat: Catalog.State, a: map<Id, Shelf>, b: map<Id, Shelf>, topic: Id)
    requires topic !in cat.topics && topic in a && topic in b && b == a[topic := b[topic]]
    requires b[topic].marker == a[topic].marker
    ensures StorageWhole(cat, b) <==> StorageWhole(cat, a)
  {
    hide PartWhole, MarkerOf;
    if StorageWhole(cat, b) {
      forall id, i | id in cat.topics && id in a && 0 <= i < |cat.topics[id].partitions| && i in a[id].parts
        ensures PartWhole(a[id].parts[i], cat.topics[id].partitions[i].retainedL)
      {
        assert PartWhole(b[id].parts[i], cat.topics[id].partitions[i].retainedL);
      }
    }
  }

  lemma AddPartitionExactly(env: Env, w: World, id: Id, options: E.Options)
    requires Inv(env, w) && DoAddPartition(env, w, id, options).Some?
    ensures Whole(DoAddPartition(env, w, id, options).value) <==> Whole(w)
  {
    hide C.Inv, PartsOk, HistoryTied, Served, PartWhole, Catalog.ReplayFrom, CatalogHistory.Valid,
         CatalogHistory.Extends, MarkerOf, FreshPart, Tied, StorageWhole, BusyPart;
    var n := DoAddPartition(env, w, id, options).value;
    Histories(env, w);
    SamePartsWhole(CatalogOf(w.sys.catalog), w.shelves, n.shelves, w.busy.value);
  }

  // --------------------------------------------------------------- catalog records

  /** A catalog record leaves the system logs openable unless it tears a batch header. */
  lemma LeftExactly(h: C.Digests, w: C.World, e: Catalog.Event, outcome: C.Outcome)
    requires C.Inv(h, w) && C.Do(h, w, C.AppendCatalog(e, outcome)).Some?
    ensures C.Bootable(C.Do(h, w, C.AppendCatalog(e, outcome)).value.left) <==>
            C.Bootable(w.left) && !C.ShortTail(outcome)
    ensures C.ShortTail(outcome) ==> !C.Durable(outcome)
  {
    hide C.Inv, C.Bootable, C.DoAppendCatalog;
    CS.BrokenExactly(h, w, C.AppendCatalog(e, outcome));
    Possibly(h, w, e, outcome);
  }

  lemma Possibly(h: C.Digests, w: C.World, e: Catalog.Event, outcome: C.Outcome)
    requires C.Do(h, w, C.AppendCatalog(e, outcome)).Some?
    ensures C.Possible(outcome)
  {
    hide C.WithinOperatingLimits, C.ChangeCatalog;
  }

  lemma CreateWhole(h: SP.Hasher, cat: Catalog.State, shelves: map<Id, Shelf>, topic: Id, name: Bytes,
                    config: Catalog.Config, offset: Offset)
    requires topic in shelves && topic !in cat.topics && Prepared(shelves[topic], config)
    requires shelves[topic].marker == Some(MarkerOf(topic))
    requires forall i | i in shelves[topic].parts ::
               i < |shelves[topic].parts| && BusyPart(h.f, TopicKey(topic, i), shelves[topic].parts[i])
    ensures var t := Catalog.Topic(topic, name, Catalog.NewPartitions(CreatedParts(h, shelves[topic], config), offset),
                                   map[], offset);
            StorageWhole(cat.(topics := cat.topics[topic := t]), shelves) <==>
            StorageWhole(cat, shelves)
            && (cat.topics != map[] || forall id | id in shelves :: shelves[id].marker.Some?)
  {
    hide PartWhole, MarkerOf, BusyPart, CreatedParts, Prepared;
    var t := Catalog.Topic(topic, name, Catalog.NewPartitions(CreatedParts(h, shelves[topic], config), offset), map[],
                           offset);
    var next := cat.(topics := cat.topics[topic := t]);
    assert topic in next.topics;
    forall i | i in shelves[topic].parts && 0 <= i < |t.partitions|
      ensures PartWhole(shelves[topic].parts[i], t.partitions[i].retainedL)
    {
      BusyWhole(h.f, TopicKey(topic, i), shelves[topic].parts[i], t.partitions[i].retainedL);
    }
    if StorageWhole(next, shelves) {
      forall id, i | id in cat.topics && id in shelves && 0 <= i < |cat.topics[id].partitions| && i in shelves[id].parts
        ensures PartWhole(shelves[id].parts[i], cat.topics[id].partitions[i].retainedL)
      {
        assert PartWhole(shelves[id].parts[i], next.topics[id].partitions[i].retainedL);
      }
      forall id | id in shelves && id !in cat.topics ensures ShelfWhole(id, shelves[id], cat.topics != map[]) {
        if id != topic { assert ShelfWhole(id, shelves[id], next.topics != map[]); }
      }
    }
  }

  lemma BusyWhole(f: Format, key: TopicKey, p: Part, start: u64)
    requires BusyPart(f, key, p)
    ensures PartWhole(p, start)
  {
  }

  lemma CreateExactly(env: Env, w: World, name: Bytes, config: Catalog.Config, outcome: C.Outcome)
    requires Inv(env, w) && DoCreateTopic(env, w, name, config, outcome).Some?
    ensures Whole(DoCreateTopic(env, w, name, config, outcome).value) <==>
            Whole(w) && !Breaks(w, CreateTopic(name, config, outcome))
  {
    hide C.Inv, C.Do, PartsOk, HistoryTied, Served, Catalog.ReplayFrom, Catalog.Transition, StorageWhole, MarkerOf,
         BusyPart, CreatedParts, Prepared, C.Bootable, C.ShortTail, Catalog.NewPartitions;
    var e, n := CreatedEvent(env.hasher, w, name, config), DoCreateTopic(env, w, name, config, outcome).value;
    var cat, id := w.sys.sys.cat, w.busy.value;
    CatalogStep(env.digests, w.sys, e, outcome);
    LeftExactly(env.digests, w.sys, e, outcome);
    if C.Durable(outcome) {
      CreateIs(cat, cat.revision, e);
      var next := Catalog.Transition(cat, cat.revision, e).value;
      CreateWhole(env.hasher, cat, w.shelves, id, name, config, cat.revision);
      OnlyTopics(cat.(topics := next.topics), next, w.shelves);
    }
  }

  lemma OnlyTopics(a: Catalog.State, b: Catalog.State, shelves: map<Id, Shelf>)
    requires a.topics == b.topics
    ensures StorageWhole(a, shelves) <==> StorageWhole(b, shelves)
  {
    hide PartWhole, ShelfWhole;
  }

  lemma RetainExactly(env: Env, w: World, key: TopicKey, n: nat, reason: Catalog.Mask, outcome: C.Outcome)
    requires Inv(env, w) && DoRetain(env, w, key, n, reason, outcome).Some?
    ensures Whole(DoRetain(env, w, key, n, reason, outcome).value) <==>
            Whole(w) && !Breaks(w, Retain(key, n, reason, outcome))
  {
    hide Inv, C.Inv, C.Do, Catalog.ReplayFrom, Catalog.Transition, StorageWhole, C.Bootable, C.ShortTail, PartWhole,
         Put, AdvanceEvent, StateOf, PartOk, IndexOf, Retires, Catalog.AdvancedTopic, TiedTo;
    var e, q, cat := AdvanceEvent(env.hasher, w, key, n, reason), PartAt(w, key), w.sys.sys.cat;
    var r := AfterRetain(q, n, outcome);
    var sys := C.Do(env.digests, w.sys, C.AppendCatalog(e, outcome)).value;
    Unfolded(env, w);
    CatalogStep(env.digests, w.sys, e, outcome);
    LeftExactly(env.digests, w.sys, e, outcome);
    RetainReady(env, w, key, n, reason);
    RetainFacts(env, w, key, n, q, e);
    PutSystem(w, key, r, sys);
    PutShelves(w, key, r, sys);
    RetainWhole(env, w, key, n, e, r);
    if C.Durable(outcome) {
      AdvanceWhole(cat, cat.revision, e, Put(w, key, r));
    }
  }

  lemma PutShelves(w: World, key: TopicKey, r: Part, sys: C.World)
    ensures Put(w.(sys := sys), key, r).shelves == Put(w, key, r).shelves
  {
  }

  /** A partition that takes a retention is whole, and stays so. */
  lemma RetainWhole(env: Env, w: World, key: TopicKey, n: nat, e: Catalog.Event, r: Part)
    requires Inv(env, w) && Retainable(w, key, n) && Retires(env.hasher, e, key, PartAt(w, key), n)
    requires r == PartAt(w, key).(start := PartAt(w, key).start + n) || r == PartAt(w, key).(down := true)
    ensures var cat := w.sys.sys.cat;
            && (StorageWhole(cat, Put(w, key, r).shelves) <==> StorageWhole(cat, w.shelves))
            && PartWhole(r, RetainedStart(cat, key)) && HasPart(Put(w, key, r), key)
            && PartAt(Put(w, key, r), key) == r
  {
    hide C.Inv, HistoryTied, BusyOk, StorageWhole, PartTied, CatalogHistory.Valid, CatalogHistory.Extends, StateOf,
         IndexOf, E.Inv, AllCountable, EntriesOf, SP.AnchorOf, Rooted, Tied;
    var q, cat := PartAt(w, key), w.sys.sys.cat;
    Histories(env, w);
    TiedPart(env.hasher, cat, w, key);
    assert PartOk(q);
    PartFacts(q);
    var t := cat.topics[key.topic];
    forall j | j in q.gone ensures q.all[j].header.base < RetainedStart(cat, key) {
      IndexAbove(env.hasher, key, t.partitions[key.partition], Catalog.RetiredOf(t, key.partition), q, j);
    }
    assert PartWhole(r, RetainedStart(cat, key)) && PartWhole(q, RetainedStart(cat, key));
    PutWhole(cat, w, key, r, true);
  }

  /** A later start of one whole partition leaves the storage whole or not. */
  lemma AdvanceWhole(cat: Catalog.State, offset: Offset, e: Catalog.Event, w: World)
    requires e.LogStartAdvanced? && Catalog.Transition(cat, offset, e).Some? && HasPart(w, e.key)
    requires InCatalog(cat, e.key) && PartWhole(PartAt(w, e.key), RetainedStart(cat, e.key))
    ensures StorageWhole(Catalog.Transition(cat, offset, e).value, w.shelves) <==> StorageWhole(cat, w.shelves)
  {
    hide MarkerOf, Readable, Catalog.Transition, Catalog.Merge, PartWhole;
    var next, key, t := Catalog.Transition(cat, offset, e).value, e.key, cat.topics[e.key.topic];
    Catalog.AdvanceIs(cat, offset, e);
    StartRises(cat, offset, e);
    PartLater(PartAt(w, key), RetainedStart(cat, key), e.newL);
    forall id, i | id in cat.topics && 0 <= i < |cat.topics[id].partitions| && id in w.shelves
        && i in w.shelves[id].parts
      ensures PartWhole(w.shelves[id].parts[i], next.topics[id].partitions[i].retainedL) <==>
              PartWhole(w.shelves[id].parts[i], cat.topics[id].partitions[i].retainedL)
    {
    }
    assert next.topics.Keys == cat.topics.Keys;
    assert next.topics != map[] && cat.topics != map[];
  }

  lemma PartLater(p: Part, start: u64, later: u64)
    requires PartWhole(p, start) && start <= later
    ensures PartWhole(p, later)
  {
  }

  lemma StartRises(cat: Catalog.State, offset: Offset, e: Catalog.Event)
    requires e.LogStartAdvanced? && Catalog.Transition(cat, offset, e).Some? && InCatalog(cat, e.key)
    ensures RetainedStart(cat, e.key) < e.newL
  {
    hide Catalog.Spans, Catalog.FreshIdentities;
  }

  // --------------------------------------------------------------- system steps

  /** Removing the retired files of storage that can be opened leaves it so. */
  lemma PlacedWhole(h: SP.Hasher, cat: Catalog.State, shelves: map<Id, Shelf>)
    requires PartsOk(shelves) && Tied(h, cat, shelves) && StorageWhole(cat, shelves)
    ensures StorageWhole(cat, Placed(shelves, cat))
  {
    hide PartOk, PartTied, MarkerOf;
    var n := Placed(shelves, cat);
    forall id, i | id in cat.topics && id in n && 0 <= i < |cat.topics[id].partitions| && i in n[id].parts
      ensures PartWhole(n[id].parts[i], cat.topics[id].partitions[i].retainedL)
    {
      var t := cat.topics[id];
      assert TopicTied(h, id, t, shelves[id]);
      PlacedPartWhole(h, TopicKey(id, i), t.partitions[i], Catalog.RetiredOf(t, i), shelves[id].parts[i]);
    }
  }

  lemma PlacedPartWhole(h: SP.Hasher, key: TopicKey, p: Catalog.Partition, retired: map<u64, Catalog.Retired>, q: Part)
    requires PartOk(q) && PartTied(h, key, p, retired, q) && PartWhole(q, p.retainedL)
    ensures PartWhole(PlacedPart(q, p.retainedL), p.retainedL)
  {
    hide PartOk, PartTied, IndexOf, Readable;
    var r := PlacedPart(q, p.retainedL);
    forall j | j in r.gone && j < |r.all| ensures r.all[j].header.base < p.retainedL {
      IndexAbove(h, key, p, retired, q, j);
    }
  }

  lemma SystemExactly(env: Env, w: World, step: C.Step)
    requires Inv(env, w) && DoSystem(env, w, step).Some?
    ensures Whole(DoSystem(env, w, step).value) <==>
            if C.Reverts(w.sys, step) then HistoryWhole(w.sys.behind.value.catalog, w.shelves)
            else Whole(w) && !Breaks(w, System(step))
  {
    hide C.Inv, C.Do, PartsOk, HistoryTied, Served, BusyOk, Catalog.ReplayFrom, StorageWhole, C.Bootable,
         StorageAccepted, Placed, Tied, C.LeavesShortTail, C.LeavesRefused, CatalogHistory.Valid,
             CatalogHistory.Extends;
    var n := DoSystem(env, w, step).value;
    CS.BrokenExactly(env.digests, w.sys, step);
    QuietStep(env.digests, w.sys, step);
    if step.Open? {
      OpenSafe(env.digests, w.sys);
      Histories(env, w);
      StorageExactly(env.hasher, n.sys.sys.cat, w.shelves);
      PlacedWhole(env.hasher, n.sys.sys.cat, w.shelves);
    }
  }

  lemma OpenSafe(h: C.Digests, w: C.World)
    requires C.Do(h, w, C.Open).Some?
    ensures C.Bootable(C.Do(h, w, C.Open).value.left)
  {
    hide C.Bootstrap, C.Repaired;
  }

  // ------------------------------------------------------------------- theorems

  /** Which steps make a store that could be opened one that cannot, for every
      reachable store and every step: the ones `Breaks` lists and no other. */
  lemma WholeExactly(env: Env, w: World, step: Step)
    requires Inv(env, w) && Do(env, w, step).Some?
    ensures Whole(Do(env, w, step).value) <==>
            if Reverts(w, step) then HistoryWhole(w.sys.behind.value.catalog, w.shelves)
            else Whole(w) && !Breaks(w, step)
  {
    hide Inv, DoSystem, DoPrepare, DoAddPartition, DoCreateTopic, DoDirect, DoUse, DoRetain, DoDiscard, Whole,
         HistoryWhole, C.Reverts;
    match step
    case System(s) => SystemExactly(env, w, s);
    case Prepare(topic, written) => PrepareExactly(env, w, topic, written);
    case AddPartition(id, options) => AddPartitionExactly(env, w, id, options);
    case CreateTopic(name, config, outcome) => CreateExactly(env, w, name, config, outcome);
    case Abandon => AbandonExactly(w);
    case Direct(key, options, base, id) => DirectExactly(env, w, key, options, base, id);
    case Use(key, op) => UseExactly(env, w, key, op);
    case Retain(key, n, reason, outcome) => RetainExactly(env, w, key, n, reason, outcome);
    case Discard(key, j) => DiscardExactly(env, w, key, j);
  }

  lemma AbandonExactly(w: World)
    ensures Whole(w.(busy := None)) <==> Whole(w)
  {
  }

  lemma {:induction false} IntactExactly(env: Env, w: World, steps: seq<Step>, final: World)
    requires Inv(env, w) && Runs(env, w, steps, final)
    ensures Whole(final) <==> Intact(env, w, Whole(w), steps)
    decreases steps
  {
    hide Inv, Do, Whole, HistoryWhole, Breaks, Reverts;
    if steps != [] {
      WholeExactly(env, w, steps[0]);
      StepKeeps(env, w, steps[0]);
      IntactExactly(env, Do(env, w, steps[0]).value, steps[1..], final);
    }
  }

  /** A crash of a store in any state a run can reach. */
  lemma BootsExactly(env: Env, w: World, keepRename: bool, debris: C.Dir)
    requires Inv(env, w)
    ensures var b := C.Surviving(w.sys, keepRename);
            var found := Boot(env, C.AfterCrash(w.sys, keepRename, debris), w.shelves);
            && Accepted(w.sys.store, b.catalog, b.offsets)
            && (found.Some? <==>
                  if C.FallsBack(w.sys, keepRename) then HistoryWhole(b.catalog, w.shelves) else Whole(w))
            && (found.Some? ==> found.value.sys == C.FoldOf(w.sys.store, b.catalog, b.offsets))
  {
    hide C.Represents, C.BehindOk, C.OpenOk, C.Bootstrap, C.FoldOf, C.Bootable, C.Startless, Accepted,
         Catalog.ReplayFrom, StorageWhole, StorageAccepted, Tied, C.WithinOperatingLimits, PartsOk, Served, BusyOk,
             Dirs;
    var n := C.DoPowerLoss(w.sys, keepRename, debris);
    CS.PowerLossKeeps(env.digests, w.sys, keepRename, debris);
    CS.NothingBootable();
    CS.Boots(env.digests, n.disk, n.store, n.catalog, n.offsets, n.left);
    ReplayIs(n.store, n.catalog, n.offsets);
    if C.FallsBack(w.sys, keepRename) {
      BehindPrefix(env.digests, w.sys);
      PrefixTied(env.hasher, w.sys.catalog, n.catalog, w.shelves);
    }
    assert n.catalog[..|n.catalog|] == n.catalog && TiedTo(env.hasher, n.catalog[..|n.catalog|], w.shelves);
    StorageExactly(env.hasher, CatalogOf(n.catalog), w.shelves);
  }

  /** The store theorem. In every run from a new store and after every step of it, a
      crash leaves a store that opens exactly when no step broke it, and it opens with
      the fold of what the surviving manifest holds. When the previous manifest comes
      back, that depends on its catalog and the files instead. */
  lemma {:induction false} StoreOpens(env: Env, init: Catalog.StoreInit, steps: seq<Step>, w: World, keepRename: bool,
                                      debris: C.Dir)
    requires Catalog.ValidInit(init) && Runs(env, New(init), steps, w)
    ensures var b := C.Surviving(w.sys, keepRename);
            var found := Boot(env, C.AfterCrash(w.sys, keepRename, debris), w.shelves);
            && Accepted(w.sys.store, b.catalog, b.offsets)
            && (!C.FallsBack(w.sys, keepRename) ==>
                  w.sys.ackedCatalog <= b.catalog && w.sys.ackedOffsets <= b.offsets
                  && (found.Some? <==> Intact(env, New(init), true, steps)))
            && (C.FallsBack(w.sys, keepRename) ==> (found.Some? <==> HistoryWhole(b.catalog, w.shelves)))
            && (found.Some? ==> found.value.sys == C.FoldOf(w.sys.store, b.catalog, b.offsets))
  {
    hide Inv, Runs, Intact, Whole, HistoryWhole, Boot, Accepted, C.FoldOf;
    NewOk(env, init);
    RunKeeps(env, New(init), steps, w);
    IntactExactly(env, New(init), steps, w);
    BootsExactly(env, w, keepRename, debris);
    AckedKept(env, w);
  }

  lemma AckedKept(env: Env, w: World)
    requires Inv(env, w)
    ensures w.sys.ackedCatalog <= w.sys.catalog && w.sys.ackedOffsets <= w.sys.offsets
  {
    hide C.Admissible, C.Represents, C.BehindOk, C.OpenOk, PartsOk, HistoryTied, Served, BusyOk;
  }

  /** A store that is closed and broken never opens again, unless a power loss can
      still put the previous manifest back. */
  lemma {:induction false} BrokenForGood(env: Env, w: World, steps: seq<Step>, final: World)
    requires Inv(env, w) && !Whole(w) && !w.sys.open && w.sys.behind.None? && Runs(env, w, steps, final)
    ensures !Whole(final) && !final.sys.open
    decreases steps
  {
    hide Inv, Do, Whole;
    if steps != [] {
      StepKeeps(env, w, steps[0]);
      BrokenStep(env, w, steps[0]);
      BrokenForGood(env, Do(env, w, steps[0]).value, steps[1..], final);
    }
  }

  lemma BrokenStep(env: Env, w: World, step: Step)
    requires Inv(env, w) && !Whole(w) && !w.sys.open && w.sys.behind.None? && Do(env, w, step).Some?
    ensures var n := Do(env, w, step).value; !Whole(n) && !n.sys.open && n.sys.behind.None?
  {
    hide Inv, Do, Whole, HistoryWhole, Breaks;
    WholeExactly(env, w, step);
    ClosedStep(env, w, step);
  }

  lemma ClosedStep(env: Env, w: World, step: Step)
    requires Inv(env, w) && !w.sys.open && w.sys.behind.None? && Do(env, w, step).Some?
    ensures var n := Do(env, w, step).value;
            n.sys.behind.None? && (n.sys.open ==> step == System(C.Open)) && (step == System(C.Open) ==> Whole(w))
  {
    hide C.Inv, C.Do, PartsOk, HistoryTied, Served, Catalog.ReplayFrom, StorageAccepted, Placed, Whole;
    match step
    case System(s) =>
      CS.ClosedStep(env.digests, w.sys, s);
      ClosedQuiet(env.digests, w.sys, s);
      if s.Open? {
        SystemExactly(env, w, s);
        OpenWhole(env, w);
      }
    case CreateTopic(name, config, outcome) =>
    case Retain(key, n, reason, outcome) =>
    case _ =>
  }

  lemma ClosedQuiet(h: C.Digests, w: C.World, step: C.Step)
    requires !w.open && w.behind.None? && C.Do(h, w, step).Some?
    ensures C.Do(h, w, step).value.behind.None?
  {
    hide C.Bootstrap, C.Encodable, C.EmptyStart, C.Repaired;
  }

  lemma OpenWhole(env: Env, w: World)
    requires Inv(env, w) && DoSystem(env, w, C.Open).Some?
    ensures Whole(w)
  {
    hide C.Inv, C.Do, PartsOk, HistoryTied, Served, BusyOk, Catalog.ReplayFrom, StorageWhole, C.Bootable,
         StorageAccepted, Placed, Tied, CatalogHistory.Valid, CatalogHistory.Extends;
    CS.BrokenExactly(env.digests, w.sys, C.Open);
    OpenSafe(env.digests, w.sys);
    QuietStep(env.digests, w.sys, C.Open);
    Histories(env, w);
    StorageExactly(env.hasher, CatalogOf(w.sys.catalog), w.shelves);
  }

  // ------------------------------------------------------------- after opening

  lemma ReopenServes(p: Part)
    requires PartOk(p) && Readable(p.debris)
    ensures Ready(StateOf(p)) && !E.Reopened(p.c, StateOf(p)).unavailable
  {
    hide E.Inv, Open, LogOk, Directory, View, E.Cut, EncodeBatch, E.Flatten;
    var s := StateOf(p);
    RebaseOk(p);
    E.Shape(p.c, s);
    PartFacts(p);
    SuffixOk(p.c.f, p.all, p.debris, p.c.topic, p.c.partition, p.start);
    ReopenAfterCrash(p.c.f, s.log, p.debris, p.c.topic, p.c.partition);
    if p.debris.Torn? { EncodedShape(p.c.f, p.debris.batch); }
  }

  /** What preflight promises: in a store that has been opened every partition of the
      catalog can be opened, and then takes appends. */
  lemma OpenServes(env: Env, w: World, key: TopicKey)
    requires Inv(env, w) && DoSystem(env, w, C.Open).Some?
    requires InCatalog(DoSystem(env, w, C.Open).value.sys.sys.cat, key)
    ensures var n := DoSystem(env, w, C.Open).value;
            && HasPart(n, key) && DoUse(n, key, E.Reopen).Some?
            && HasPart(DoUse(n, key, E.Reopen).value, key) && !PartAt(DoUse(n, key, E.Reopen).value, key).down
  {
    hide Inv, C.Inv, C.Do, PartOk, IndexOf, StorageAccepted, PartWhole, ShelvesWhole, E.Reopened, StateOf, Tied,
         CatalogHistory.Valid, CatalogHistory.Extends, Catalog.ReplayFrom, PartTied, Readable;
    var n := DoSystem(env, w, C.Open).value;
    SystemKeeps(env, w, C.Open);
    OpenWhole(env, w);
    SystemExactly(env, w, C.Open);
    Unfolded(env, w);
    QuietStep(env.digests, w.sys, C.Open);
    OpenedPart(env, w, n, key);
    ReopenServes(PartAt(n, key));
  }

  lemma OpenedPart(env: Env, w: World, n: World, key: TopicKey)
    requires Inv(env, w) && Inv(env, n) && DoSystem(env, w, C.Open) == Some(n) && n.sys.open && Whole(n)
    requires InCatalog(n.sys.sys.cat, key)
    ensures HasPart(n, key) && PartOk(PartAt(n, key)) && Readable(PartAt(n, key).debris) && Cleaned(PartAt(n, key))
    ensures PartAt(n, key).start < |PartAt(n, key).all|
  {
    hide C.Inv, C.Do, PartTied, IndexOf, StorageAccepted, ShelvesWhole, HistoryTied, Tied, CatalogHistory.Valid,
         Catalog.ReplayFrom, Readable, E.Inv, Rooted;
    Histories(env, n);
    Histories(env, w);
    QuietStep(env.digests, w.sys, C.Open);
    TiedPart(env.hasher, n.sys.sys.cat, n, key);
    var p := PartAt(n, key);
    assert PartOk(p) && PartWhole(p, RetainedStart(n.sys.sys.cat, key));
    assert forall j: nat | j < p.start :: j in p.gone;
    assert p.gone == Below(p.start);
  }
}
