/** Runs that end in a store which does not open again: one input for each way the
    store theorem leaves open. */
module StorageExamples {
  import opened Base
  import opened Restart
  import opened Codec
  import opened Batches
  import opened Segments
  import opened PartitionLog
  import opened Preflight
  import opened Storage
  import opened StorageSafety
  import opened StorageTheorems
  import Catalog
  import C = Compaction
  import CE = CompactionExamples
  import CS = CompactionSafety
  import E = PartitionEngine
  import SP = SegmentPieces

  const KEY: TopicKey := TopicKey(3, 0)

  const OPTIONS: E.Options := E.Options(1000, 200, 10, 200)

  /** Size retention that keeps nothing. */
  const CONFIG: Catalog.Config := Catalog.Settings(Catalog.Mask(false, true), 0, 0, 0, 200, 1000)

  /** No segment header hashes to zero. */
  ghost predicate NonZero(h: SP.Hasher) { forall b: Bytes :: h.digest(b) != 0 }

  lemma {:induction false} RunsMore(env: Env, w: World, front: seq<Step>, m: World, step: Step)
    requires Runs(env, w, front, m) && Do(env, m, step).Some?
    ensures Runs(env, w, front + [step], Do(env, m, step).value)
    decreases front
  {
    hide Do;
    if front == [] {
      assert front + [step] == [step] && [step][1..] == [];
    } else {
      assert (front + [step])[0] == front[0] && (front + [step])[1..] == front[1..] + [step];
      RunsMore(env, Do(env, w, front[0]).value, front[1..], m, step);
    }
  }

  // ------------------------------------------------------- a store with one topic

  function FirstPart(f: Format): Part { FreshPart(f, KEY, OPTIONS, 0, 7) }

  /** The first topic with this one partition, beside whatever else there is. */
  function Shelves(rest: map<Id, Shelf>, p: Part): map<Id, Shelf> {
    rest[3 := Shelf(Some(MarkerOf(3)), map[0 := p])]
  }

  /** The storage of the first topic, prepared. */
  function Prepared3(env: Env, init: Catalog.StoreInit, rest: map<Id, Shelf>): World {
    World(CE.FirstOpened(init), Shelves(rest, FirstPart(env.hasher.f)), Some(3))
  }

  const PREPARE: seq<Step> := [Prepare(3, Some(MARKER_BYTES))] + [AddPartition(7, OPTIONS)]

  lemma {:induction false} OpensEmpty(env: Env, init: Catalog.StoreInit)
    requires Catalog.ValidInit(init)
    ensures Runs(env, New(init), [System(C.Open)], World(CE.FirstOpened(init), map[], None))
  {
    hide C.Do, CS.NewStore, C.Inv, C.Runs, StorageAccepted, Placed, Dirs, Runs;
    CE.Opens(env.digests, init);
    NoStorage(env.hasher, CE.Born(init).cat);
    NoSteps(env, New(init));
    assert [] + [System(C.Open)] == [System(C.Open)];
    RunsMore(env, New(init), [], New(init), System(C.Open));
  }

  lemma NoStorage(h: SP.Hasher, cat: Catalog.State)
    requires cat.topics == map[]
    ensures StorageAccepted(h, cat, Dirs(map[])) && Placed(map[], cat) == map[]
  {
  }

  lemma PreparesFirst(env: Env, sys: C.World, rest: map<Id, Shelf>)
    requires sys.open && !sys.catalogDown && 3 !in rest
    ensures Do(env, World(sys, rest, None), Prepare(3, Some(MARKER_BYTES))) ==
            Some(World(sys, rest[3 := Shelf(Some(MarkerOf(3)), map[])], Some(3)))
  {
    hide MarkerOf;
    WholeMarker(3, Some(MARKER_BYTES));
  }

  lemma AddsFirst(env: Env, sys: C.World, rest: map<Id, Shelf>)
    ensures Do(env, World(sys, rest[3 := Shelf(Some(MarkerOf(3)), map[])], Some(3)), AddPartition(7, OPTIONS)) ==
            Some(World(sys, Shelves(rest, FirstPart(env.hasher.f)), Some(3)))
  {
    hide MarkerOf, FreshPart;
    var s, p := Shelf(Some(MarkerOf(3)), map[]), FirstPart(env.hasher.f);
    assert s.parts[0 := p] == map[0 := p];
    assert rest[3 := s][3 := s.(parts := map[0 := p])] == Shelves(rest, p);
  }

  lemma {:induction false} Prepares(env: Env, init: Catalog.StoreInit, front: seq<Step>, rest: map<Id, Shelf>)
    requires Catalog.ValidInit(init) && 3 !in rest
    requires Runs(env, New(init), front, World(CE.FirstOpened(init), rest, None))
    ensures Runs(env, New(init), front + PREPARE, Prepared3(env, init, rest))
  {
    hide Do, Runs, MarkerOf, Shelves;
    var w1 := World(CE.FirstOpened(init), rest, None);
    var w2 := World(w1.sys, rest[3 := Shelf(Some(MarkerOf(3)), map[])], Some(3));
    PreparesFirst(env, w1.sys, rest);
    AddsFirst(env, w1.sys, rest);
    RunsMore(env, New(init), front, w1, Prepare(3, Some(MARKER_BYTES)));
    RunsMore(env, New(init), front + [Prepare(3, Some(MARKER_BYTES))], w2, AddPartition(7, OPTIONS));
    assert front + PREPARE == front + [Prepare(3, Some(MARKER_BYTES))] + [AddPartition(7, OPTIONS)];
  }

  lemma {:induction false} NoSteps(env: Env, w: World)
    ensures Runs(env, w, [], w)
  {
  }

  function TopicEvent(env: Env, init: Catalog.StoreInit): Catalog.Event {
    Catalog.TopicCreated(init.store, 1, 3, [97],
                         [Catalog.CreatedPartition(0, CONFIG, SP.AnchorOf(env.hasher, SegmentHeader(3, 0, 0, 7)))])
  }

  lemma EventIs(env: Env, init: Catalog.StoreInit, rest: map<Id, Shelf>)
    ensures var w := Prepared3(env, init, rest);
            Creatable(w, CONFIG) && CreatedEvent(env.hasher, w, [97], CONFIG) == TopicEvent(env, init)
  {
    hide SP.AnchorOf, MarkerOf, CS.NewStore;
    var s := Shelves(rest, FirstPart(env.hasher.f))[3];
    assert s.parts.Keys == {0} && |s.parts| == 1;
    assert CreatedParts(env.hasher, s, CONFIG) ==
           [Catalog.CreatedPartition(0, CONFIG, SP.AnchorOf(env.hasher, SegmentHeader(3, 0, 0, 7)))];
  }

  lemma EventAppends(env: Env, init: Catalog.StoreInit)
    requires Catalog.ValidInit(init) && NonZero(env.hasher)
    ensures C.Do(env.digests, CE.FirstOpened(init), C.AppendCatalog(TopicEvent(env, init), C.Acknowledged)).Some?
  {
    hide HeaderImage, C.ChangeCatalog;
  }

  const CREATE: Step := CreateTopic([97], CONFIG, C.Acknowledged)

  const STOCK: seq<Step> := [System(C.Open)] + PREPARE + [CREATE]

  /** The store once it has its first topic. */
  ghost function Stocked(env: Env, init: Catalog.StoreInit): World
    requires Catalog.ValidInit(init) && NonZero(env.hasher)
  {
    EventAppends(env, init);
    World(C.Do(env.digests, CE.FirstOpened(init), C.AppendCatalog(TopicEvent(env, init), C.Acknowledged)).value,
          Shelves(map[], FirstPart(env.hasher.f)), None)
  }

  lemma {:induction false} Stocks(env: Env, init: Catalog.StoreInit)
    requires Catalog.ValidInit(init) && NonZero(env.hasher)
    ensures Runs(env, New(init), STOCK, Stocked(env, init)) && Inv(env, Stocked(env, init)) && Whole(Stocked(env, init))
  {
    hide Inv, Whole, C.Do, Runs, NonZero, CS.NewStore, CreatedEvent, Shelves, TopicEvent, Catalog.ReplayFrom;
    var r := Prepared3(env, init, map[]);
    OpensEmpty(env, init);
    Prepares(env, init, [System(C.Open)], map[]);
    EventIs(env, init, map[]);
    EventAppends(env, init);
    RunsMore(env, New(init), [System(C.Open)] + PREPARE, r, CREATE);
    NewOk(env, init);
    RunKeeps(env, New(init), [System(C.Open)] + PREPARE, r);
    StepKeeps(env, r, CREATE);
    PreparedWhole(env, init);
    CreateExactly(env, r, [97], CONFIG, C.Acknowledged);
  }

  lemma PreparedWhole(env: Env, init: Catalog.StoreInit)
    requires Catalog.ValidInit(init)
    ensures var w := Prepared3(env, init, map[]);
            Whole(w) && forall id | id in w.shelves :: w.shelves[id].marker.Some?
  {
    hide MarkerOf, FreshPart;
    CE.BornIs(init);
  }

  lemma StockedFacts(env: Env, init: Catalog.StoreInit)
    requires Catalog.ValidInit(init) && NonZero(env.hasher)
    ensures var w := Stocked(env, init);
            && w.sys.open && !w.sys.catalogDown && Owned(w) && Listed(w.sys.catalog, 3)
            && w.sys.sys.cat.topics.Keys == {3}
  {
    hide C.Inv, C.Do, Catalog.ReplayFrom, NonZero, Catalog.Transition, Catalog.NewPartitions, Shelves;
    var v, e := CE.FirstOpened(init), TopicEvent(env, init);
    EventAppends(env, init);
    CE.Opens(env.digests, init);
    CatalogStep(env.digests, v, e, C.Acknowledged);
    CreateIs(v.sys.cat, 1, e);
    StillUp(env.digests, v, e);
  }

  lemma StillUp(h: C.Digests, w: C.World, e: Catalog.Event)
    requires C.Do(h, w, C.AppendCatalog(e, C.Acknowledged)).Some?
    ensures var n := C.Do(h, w, C.AppendCatalog(e, C.Acknowledged)).value;
            && n.open && !n.catalogDown && n.offsetsDown == w.offsetsDown && n.phase == w.phase && n.behind == w.behind
            && n.generation == w.generation && n.left == w.left && n.store == w.store
            && n.disk.active == w.disk.active && n.ackedCatalog == w.ackedCatalog + [e] && n.sys.offs == w.sys.offs
  {
    hide C.WithinOperatingLimits, Catalog.Transition;
  }

  /** Where a step that breaks the store leads. */
  lemma Unopened(env: Env, w: World, step: Step)
    requires Inv(env, w) && Do(env, w, step).Some? && Breaks(w, step) && !step.System?
    ensures var n := Do(env, w, step).value;
            Boot(env, C.AfterCrash(n.sys, true, C.EMPTY_DIR), n.shelves) == None
  {
    hide Inv, Do, Breaks, Whole, HistoryWhole, Boot, Accepted;
    StepKeeps(env, w, step);
    WholeExactly(env, w, step);
    BootsExactly(env, Do(env, w, step).value, true, C.EMPTY_DIR);
  }

  /** After `step` on the store with one topic, the store does not open again. */
  ghost predicate Fatal(env: Env, init: Catalog.StoreInit, step: Step) {
    exists w :: Runs(env, New(init), STOCK + [step], w)
                && Boot(env, C.AfterCrash(w.sys, true, C.EMPTY_DIR), w.shelves) == None
  }

  lemma FatalStep(env: Env, init: Catalog.StoreInit, step: Step)
    requires Catalog.ValidInit(init) && NonZero(env.hasher) && !step.System?
    requires Do(env, Stocked(env, init), step).Some? && Breaks(Stocked(env, init), step)
    ensures Fatal(env, init, step)
  {
    hide Inv, Do, Breaks, Whole, Boot, Runs, NonZero;
    Stocks(env, init);
    RunsMore(env, New(init), STOCK, Stocked(env, init), step);
    Unopened(env, Stocked(env, init), step);
  }

  // ------------------------------------------------------------------- examples

  /** One byte of one user batch is enough: the whole store does not open again. */
  lemma UserTailExample(env: Env, init: Catalog.StoreInit)
    requires Catalog.ValidInit(init) && NonZero(env.hasher)
    ensures Fatal(env, init, Use(KEY, E.Append(E.PlainBatch(0, 0), 9, E.WriteFails(1))))
  {
    hide C.Do, Owned, Listed, Fatal, NonZero, TearsHeader, StateOf, E.Perform, MarkerOf, FreshPart;
    var w, op := Stocked(env, init), E.Append(E.PlainBatch(0, 0), 9, E.WriteFails(1));
    StockedFacts(env, init);
    FirstTears(env.hasher.f);
    FatalStep(env, init, Use(KEY, op));
  }

  lemma FirstTears(f: Format)
    ensures var p := FirstPart(f);
            && p.start < |p.all| && Ready(StateOf(p))
            && TearsHeader(p, E.Append(E.PlainBatch(0, 0), 9, E.WriteFails(1)))
  {
    hide EncodeBatch, HeaderImage, RecordSize;
    var p := FirstPart(f);
    var h := SegmentHeader(3, 0, 0, 7);
    E.PlainEncodes(f, 0, 0);
    EncodedShape(f, E.PlainBatch(0, 0));
    E.EmptyView(f, h);
    E.EndOfEmpty(h);
    assert p.all[0..] == p.all && Views(f, p.all) == [E.Empty(h)];
  }

  /** So is the directory of a second topic whose creation stopped before its marker. */
  lemma UnmarkedExample(env: Env, init: Catalog.StoreInit)
    requires Catalog.ValidInit(init) && NonZero(env.hasher)
    ensures Fatal(env, init, Prepare(4, None))
  {
    hide C.Do, Owned, Listed, Fatal, NonZero, MarkerOf, FreshPart;
    StockedFacts(env, init);
    FatalStep(env, init, Prepare(4, None));
  }

  /** So is a marker that was not written to its end. */
  lemma TornMarkerExample(env: Env, init: Catalog.StoreInit)
    requires Catalog.ValidInit(init) && NonZero(env.hasher)
    ensures Fatal(env, init, Prepare(4, Some(57)))
  {
    hide C.Do, Owned, Listed, Fatal, NonZero, MarkerOf, FreshPart;
    StockedFacts(env, init);
    FatalStep(env, init, Prepare(4, Some(57)));
  }

  /** So is a partition opened directly, beside the topics of the catalog. */
  lemma DirectExample(env: Env, init: Catalog.StoreInit)
    requires Catalog.ValidInit(init) && NonZero(env.hasher)
    ensures Fatal(env, init, Direct(TopicKey(4, 0), OPTIONS, 0, 8))
  {
    hide C.Do, Owned, Listed, Fatal, NonZero, MarkerOf, FreshPart;
    StockedFacts(env, init);
    FatalStep(env, init, Direct(TopicKey(4, 0), OPTIONS, 0, 8));
  }

  /** A directory without a marker that went unnoticed while there were no topics: the
      first topic makes the store one that does not open. */
  lemma {:induction false} LatentExample(env: Env, init: Catalog.StoreInit)
    requires Catalog.ValidInit(init) && NonZero(env.hasher)
    ensures exists w :: Runs(env, New(init), [System(C.Open)] + [Prepare(4, None)] + PREPARE + [CREATE], w)
                        && Boot(env, C.AfterCrash(w.sys, true, C.EMPTY_DIR), w.shelves) == None
  {
    hide Inv, Whole, Boot, Runs, NonZero, C.Do, MarkerOf, FreshPart, CreatedEvent, TopicEvent;
    var w1, rest := World(CE.FirstOpened(init), map[], None), map[4 := Shelf(None, map[])];
    OpensEmpty(env, init);
    assert Do(env, w1, Prepare(4, None)) == Some(w1.(shelves := rest));
    RunsMore(env, New(init), [System(C.Open)], w1, Prepare(4, None));
    var front := [System(C.Open)] + [Prepare(4, None)];
    Prepares(env, init, front, rest);
    var r := Prepared3(env, init, rest);
    EventIs(env, init, rest);
    EventAppends(env, init);
    RunsMore(env, New(init), front + PREPARE, r, CREATE);
    NewOk(env, init);
    RunKeeps(env, New(init), front + PREPARE, r);
    CE.BornIs(init);
    assert 4 in r.shelves && r.shelves[4].marker.None?;
    Unopened(env, r, CREATE);
  }
}
