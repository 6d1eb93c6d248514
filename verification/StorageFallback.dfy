/** A run in which an older manifest comes back and names a segment that retention
    has already removed. */
module StorageFallback {
  import opened Base
  import opened Restart
  import opened Codec
  import opened Batches
  import opened Segments
  import opened PartitionLog
  import opened Preflight
  import opened PreflightSafety
  import opened Storage
  import opened StorageParts
  import opened StorageSafety
  import opened StorageTheorems
  import opened StorageExamples
  import Catalog
  import CatalogHistory
  import CC = CatalogCheckpoint
  import C = Compaction
  import CE = CompactionExamples
  import CS = CompactionSafety
  import E = PartitionEngine
  import OC = OffsetsCheckpoint
  import R = Retention
  import SP = SegmentPieces
  import Sorting

  const HEADER: SegmentHeader := SegmentHeader(3, 0, 0, 7)
  const NEXT: SegmentHeader := SegmentHeader(3, 0, 1, 10)
  const WRITE: E.Op := E.Append(E.PlainBatch(0, 0), 9, E.NoFault)
  const ROLL: E.Op := E.Roll(10, E.NoFault)

  // ------------------------------------------------------------- two segments

  function Written(f: Format): Part { FirstPart(f).(all := [Seg(HEADER, [E.PlainBatch(0, 0)])]) }

  function Rolled2(f: Format): Part { FirstPart(f).(all := [Seg(HEADER, [E.PlainBatch(0, 0)]), Seg(NEXT, [])]) }

  lemma Writes(f: Format)
    ensures var p := FirstPart(f);
            Ready(StateOf(p)) && Absorb(p, E.Perform(p.c, StateOf(p), WRITE)) == Written(f)
  {
    hide EncodeBatch, HeaderImage, RecordSize, MaxTimestamp;
    var p := FirstPart(f);
    E.PlainEncodes(f, 0, 0);
    EncodedShape(f, E.PlainBatch(0, 0));
    E.EmptyView(f, HEADER);
    E.EndOfEmpty(HEADER);
    assert p.all[0..] == p.all && Views(f, p.all) == [E.Empty(HEADER)];
    assert [] + [E.PlainBatch(0, 0)] == [E.PlainBatch(0, 0)];
  }

  lemma WrittenOk(f: Format)
    ensures PartOk(Written(f)) && Ready(StateOf(Written(f))) && E.Active(StateOf(Written(f))).records == 1
    ensures StateOf(Written(f)).logEnd == 1
  {
    hide E.Inv, E.Perform, EncodeBatch, HeaderImage, View;
    FreshOk(f, KEY, OPTIONS, 0, 7);
    Writes(f);
    UsePart(FirstPart(f), WRITE);
    var p := Written(f);
    RebaseOk(p);
    E.Shape(p.c, StateOf(p));
    PartFacts(p);
    SegAt(f, p.all, 3, 0, 0);
    E.ViewFacts(f, p.all[0], 3, 0);
    assert p.all[0..] == p.all && E.PlainBatch(0, 0).records != [];
    assert CountRecords(p.all[0].batches) == 1 by { OneRecord(); }
  }

  lemma OneRecord()
    ensures CountRecords([E.PlainBatch(0, 0)]) == 1
  {
    var b := [E.PlainBatch(0, 0)];
    assert b[1..] == [];
  }

  lemma Rolls(f: Format)
    ensures var p := Written(f);
            && Ready(StateOf(p)) && Absorb(p, E.Perform(p.c, StateOf(p), ROLL)) == Rolled2(f)
            && PartOk(Rolled2(f))
  {
    hide E.Inv, EncodeBatch, HeaderImage, View, PartOk, E.Empty;
    WrittenOk(f);
    var p := Written(f);
    UsePart(p, ROLL);
    assert p.all[0..] == p.all && p.all + [Seg(NEXT, [])] == Rolled2(f).all;
  }

  lemma UsesAs(env: Env, sys: C.World, p: Part, q: Part, op: E.Op)
    requires sys.open && p.start < |p.all| && Ready(StateOf(p)) && !op.Retire? && (op.Reopen? ==> Cleaned(p))
    requires Absorb(p, E.Perform(p.c, StateOf(p), op)) == q
    ensures Do(env, World(sys, Shelves(map[], p), None), Use(KEY, op)) == Some(World(sys, Shelves(map[], q), None))
  {
    hide E.Perform, StateOf, Absorb, MarkerOf, Cleaned;
    var s := Shelf(Some(MarkerOf(3)), map[0 := p]);
    assert s.parts[0 := q] == map[0 := q];
    assert Shelves(map[], p)[3 := s.(parts := map[0 := q])] == Shelves(map[], q);
  }

  // --------------------------------------------------------------- compaction

  lemma FirstEncodes(env: Env, init: Catalog.StoreInit, cat: Catalog.State)
    requires cat.init == Some(init) && cat.topics.Keys == {3} && cat.topics[3].name == [97]
    requires |cat.topics[3].partitions| == 1 && cat.topics[3].retired == map[]
    ensures CC.Encode(cat).Some?
  {
    CC.TopicIdsAt(cat);
    CC.Orders();
    assert |cat.topics| == 1 by { assert |cat.topics| == |cat.topics.Keys|; }
    assert CC.RetiredKeys(cat.topics) == {};
    Sorting.AscendingLength(CC.RetiredOrder(cat), {}, CC.RetiredLess);
    var list := CC.TopicList(cat);
    assert |list| == 1 && list[0] == CC.EntryOf(cat.topics[3]) && list[..|list| - 1] == [];
    assert CC.PartitionCount(list) == 1 && CC.RetiredList(cat) == [];
    assert CC.TopicBytes(list[..|list| - 1]) == 0 && |list[0].name| == 1 && |list[0].partitions| == 1;
  }

  /** The catalog with the first topic. */
  function Cat1(env: Env, init: Catalog.StoreInit): Catalog.State {
    var t := Catalog.Topic(3, [97], Catalog.NewPartitions(TopicEvent(env, init).partitions, 1), map[], 1);
    Catalog.State(Some(init), 2, map[[97] := 3], map[3 := t])
  }

  lemma StockedCatalog(env: Env, init: Catalog.StoreInit)
    requires Catalog.ValidInit(init) && NonZero(env.hasher)
    ensures Stocked(env, init).sys.sys.cat == Cat1(env, init)
  {
    hide HeaderImage, C.Do, C.Inv, Catalog.ReplayFrom, C.Runs;
    EventAppends(env, init);
    CE.Opens(env.digests, init);
    CatalogStep(env.digests, CE.FirstOpened(init), TopicEvent(env, init), C.Acknowledged);
  }

  lemma StockedCompactable(env: Env, init: Catalog.StoreInit)
    requires Catalog.ValidInit(init) && NonZero(env.hasher) && CE.NonZero(env.digests)
    ensures CE.Compactable(env.digests, Stocked(env, init).sys)
  {
    hide C.Inv, CE.NonZero, NonZero, Catalog.Transition, CC.Encode, OC.Encode, Shelves, Whole, Runs;
    Stocks(env, init);
    Unfolded(env, Stocked(env, init));
    StockedCatalog(env, init);
    FirstEncodes(env, init, Cat1(env, init));
    CE.BornEncodes(init);
    EventAppends(env, init);
    StillUp(env.digests, CE.FirstOpened(init), TopicEvent(env, init));
    NoDirs(env.digests, CE.FirstOpened(init), TopicEvent(env, init));
  }

  lemma NoDirs(h: C.Digests, w: C.World, e: Catalog.Event)
    requires w.generation == 0 && C.Do(h, w, C.AppendCatalog(e, C.Acknowledged)).Some?
    ensures C.Do(h, w, C.AppendCatalog(e, C.Acknowledged)).value.disk.dirs == w.disk.dirs
  {
    hide C.WithinOperatingLimits, Catalog.Transition;
  }

  /** A step of the system logs that leaves the storage alone. */
  lemma SystemAs(env: Env, w: World, step: C.Step)
    requires w.busy.None? && !step.AppendCatalog? && !step.Open? && C.Do(env.digests, w.sys, step).Some?
    ensures Do(env, w, System(step)) == Some(w.(sys := C.Do(env.digests, w.sys, step).value))
  {
    hide C.Do;
  }

  function Advances(k: nat): seq<Step> { if k == 0 then [] else Advances(k - 1) + [System(C.Advance)] }

  lemma {:induction false} Compacts(env: Env, w0: World, front: seq<Step>, w: World, a: Catalog.Anchor, k: nat)
    requires Runs(env, w0, front, w) && CE.Compactable(env.digests, w.sys) && Catalog.ValidAnchor(a) && w.busy.None?
    requires k <= 6
    ensures C.Encodable(w.sys)
    ensures Runs(env, w0, front + [System(C.Begin(1, a, a))] + Advances(k),
                 w.(sys := CE.Built(env.digests, w.sys, a, k)))
  {
    hide CE.Compactable, C.Do, Do, Runs, CE.Built;
    CE.CompactableShape(env.digests, w.sys);
    if k == 0 {
      CE.Begins(env.digests, w.sys, a);
      SystemAs(env, w, C.Begin(1, a, a));
      RunsMore(env, w0, front, w, System(C.Begin(1, a, a)));
      assert front + [System(C.Begin(1, a, a))] + [] == front + [System(C.Begin(1, a, a))];
    } else {
      var m := w.(sys := CE.Built(env.digests, w.sys, a, k - 1));
      Compacts(env, w0, front, w, a, k - 1);
      CE.BuildsMore(env.digests, w.sys, a, k - 1);
      SystemAs(env, m, C.Advance);
      RunsMore(env, w0, front + [System(C.Begin(1, a, a))] + Advances(k - 1), m, System(C.Advance));
      assert front + [System(C.Begin(1, a, a))] + Advances(k) ==
             front + [System(C.Begin(1, a, a))] + Advances(k - 1) + [System(C.Advance)];
    }
  }

  // -------------------------------------------------------------- the whole run

  const SIZE: Catalog.Mask := Catalog.Mask(false, true)

  /** A topic with two segments, a compaction whose process ends between the rename of
      the manifest and its sync, and, in the store opened again, a retention. */
  function Prologue(a: Catalog.Anchor): seq<Step> {
    STOCK + [Use(KEY, WRITE)] + [Use(KEY, ROLL)] + [System(C.Begin(1, a, a))] + Advances(6) + [System(C.Exit)]
  }

  function Reopened2(f: Format): Part { Rolled2(f).(down := true) }

  ghost function Closed(env: Env, init: Catalog.StoreInit): C.World
    requires Catalog.ValidInit(init) && NonZero(env.hasher) && CE.NonZero(env.digests)
  {
    StockedCompactable(env, init);
    CE.CompactableShape(env.digests, Stocked(env, init).sys);
    CE.Built(env.digests, Stocked(env, init).sys, init.catalogInitial, 6).(open := false, phase := C.Idle)
  }

  lemma {:induction false} Closes(env: Env, init: Catalog.StoreInit)
    requires Catalog.ValidInit(init) && NonZero(env.hasher) && CE.NonZero(env.digests)
    ensures Runs(env, New(init), Prologue(init.catalogInitial),
                 World(Closed(env, init), Shelves(map[], Rolled2(env.hasher.f)), None))
  {
    hide CE.Compactable, CE.NonZero, NonZero, C.Do, Do, Runs, Inv, Whole, CE.Built, E.Perform, StateOf, Shelves,
         Advances, Written, Rolled2, PartOk;
    var w0, w, a, f := New(init), Stocked(env, init), init.catalogInitial, env.hasher.f;
    Stocks(env, init);
    StockedFacts(env, init);
    StockedCompactable(env, init);
    CE.CompactableShape(env.digests, w.sys);
    Writes(f);
    WrittenOk(f);
    Rolls(f);
    PartStart(f);
    UsesAs(env, w.sys, FirstPart(f), Written(f), WRITE);
    RunsMore(env, w0, STOCK, w, Use(KEY, WRITE));
    var w1 := World(w.sys, Shelves(map[], Written(f)), None);
    UsesAs(env, w.sys, Written(f), Rolled2(f), ROLL);
    RunsMore(env, w0, STOCK + [Use(KEY, WRITE)], w1, Use(KEY, ROLL));
    var w2 := World(w.sys, Shelves(map[], Rolled2(f)), None);
    Compacts(env, w0, STOCK + [Use(KEY, WRITE)] + [Use(KEY, ROLL)], w2, a, 6);
    var w3 := w2.(sys := CE.Built(env.digests, w.sys, a, 6));
    Exits(env.digests, w3.sys);
    SystemAs(env, w3, C.Exit);
    RunsMore(env, w0, STOCK + [Use(KEY, WRITE)] + [Use(KEY, ROLL)] + [System(C.Begin(1, a, a))] + Advances(6), w3,
             System(C.Exit));
  }

  lemma Exits(h: C.Digests, w: C.World)
    ensures C.Do(h, w, C.Exit) == Some(w.(open := false, phase := C.Idle))
  {
  }

  lemma PartStart(f: Format)
    ensures FirstPart(f).start < |FirstPart(f).all| && Written(f).start < |Written(f).all|
  {
  }

  lemma TwoWhole(env: Env, init: Catalog.StoreInit)
    ensures StorageWhole(Cat1(env, init), Shelves(map[], Rolled2(env.hasher.f)))
    ensures Placed(Shelves(map[], Rolled2(env.hasher.f)), Cat1(env, init)) ==
            Shelves(map[], Reopened2(env.hasher.f))
  {
    hide MarkerOf, HeaderImage;
    var p, t := Rolled2(env.hasher.f), Cat1(env, init).topics[3];
    assert IndexOf(p.all, 0) == 0 && Below(0) == {} && p.gone + {} == p.gone;
    assert PlacedPart(p, 0) == Reopened2(env.hasher.f);
    var s := Shelf(Some(MarkerOf(3)), map[0 := p]);
    assert PlacedShelf(s, t).parts == map[0 := Reopened2(env.hasher.f)];
  }

  lemma SystemReopens(env: Env, init: Catalog.StoreInit)
    requires Catalog.ValidInit(init) && NonZero(env.hasher) && CE.NonZero(env.digests)
    requires C.Inv(env.digests, Closed(env, init))
    ensures var v, s := C.Do(env.digests, Closed(env, init), C.Open), Stocked(env, init).sys;
            && v.Some? && v.value.open && v.value.phase.Idle? && !v.value.catalogDown && v.value.sys == s.sys
            && v.value.left == C.NOTHING && v.value.catalog == s.catalog
            && v.value.behind == Some(C.Behind(s.catalog, s.offsets))
  {
    hide NonZero, CE.NonZero, CE.Compactable, C.Do, C.Inv, C.FoldOf, Closed, Stocked;
    StockedFold(env, init);
    CE.Reopens(env.digests, Closed(env, init));
  }

  lemma OpensAgain(env: Env, init: Catalog.StoreInit)
    requires Catalog.ValidInit(init) && NonZero(env.hasher) && CE.NonZero(env.digests)
    ensures C.Inv(env.digests, Closed(env, init)) && C.Do(env.digests, Closed(env, init), C.Open).Some?
    ensures Do(env, World(Closed(env, init), Shelves(map[], Rolled2(env.hasher.f)), None), System(C.Open)) ==
            Some(World(C.Do(env.digests, Closed(env, init), C.Open).value, Shelves(map[], Reopened2(env.hasher.f)),
                       None))
  {
    hide NonZero, CE.NonZero, CE.Compactable, C.Do, C.Inv, Runs, Inv, Whole, StorageWhole, StorageAccepted, Shelves,
         Placed, Cat1, Rolled2, Reopened2, Tied, PartsOk, Closed, Stocked, Prologue, Dirs, CatalogHistory.Valid,
         CatalogHistory.Extends;
    var w := World(Closed(env, init), Shelves(map[], Rolled2(env.hasher.f)), None);
    Closes(env, init);
    NewOk(env, init);
    RunKeeps(env, New(init), Prologue(init.catalogInitial), w);
    Unfolded(env, w);
    SystemReopens(env, init);
    StockedCatalog(env, init);
    QuietStep(env.digests, w.sys, C.Open);
    Histories(env, w);
    TwoWhole(env, init);
    StorageExactly(env.hasher, Cat1(env, init), w.shelves);
  }

  lemma StockedFold(env: Env, init: Catalog.StoreInit)
    requires Catalog.ValidInit(init) && NonZero(env.hasher) && CE.NonZero(env.digests)
    ensures var s, v := Stocked(env, init).sys, Closed(env, init);
            && Accepted(s.store, s.catalog, s.offsets) && s.sys == C.FoldOf(s.store, s.catalog, s.offsets)
            && !v.open && v.left == C.NOTHING && v.store == s.store && v.catalog == s.catalog && v.offsets == s.offsets
            && v.behind == Some(C.Behind(s.catalog, s.offsets))
  {
    hide NonZero, CE.NonZero, C.Do, C.Represents, C.BehindOk, C.FoldOf, Accepted, Shelves, C.BuiltDir, C.NewManifest,
         CC.Encode, OC.Encode, C.WithinOperatingLimits, C.BuildOk;
    StockedCompactable(env, init);
  }

  lemma Reloads(f: Format)
    ensures var p := Reopened2(f);
            && p.start < |p.all| && Ready(StateOf(p)) && Cleaned(p)
            && Absorb(p, E.Perform(p.c, StateOf(p), E.Reopen)) == Rolled2(f)
  {
    hide E.Inv, HeaderImage, View, PartOk, E.Reopened, Directory;
    var p := Reopened2(f);
    Rolls(f);
    Unserved(f);
    RebaseOk(p);
    E.Shape(p.c, StateOf(p));
    E.ReopenedClean(p.c, StateOf(p));
    assert p.all[0..] == p.all && p.all[..0] + p.all == p.all;
  }

  lemma Unserved(f: Format)
    requires PartOk(Rolled2(f))
    ensures PartOk(Reopened2(f))
  {
    hide E.Inv, Rooted;
    RootedSame(Rolled2(f), Reopened2(f));
  }

  /** The retention of the first segment, as an event. */
  lemma FirstRetires(env: Env, w: World)
    requires w.sys.open && w.shelves == Shelves(map[], Rolled2(env.hasher.f)) && InCatalog(w.sys.sys.cat, KEY)
    ensures Retainable(w, KEY, 1)
    ensures Retires(env.hasher, AdvanceEvent(env.hasher, w, KEY, 1, SIZE), KEY, Rolled2(env.hasher.f), 1)
    ensures StateOf(Rolled2(env.hasher.f)).logEnd == 1
  {
    hide E.Inv, HeaderImage, View, PartOk, Directory, SP.AnchorOf, MarkerOf, SP.Measured, Retires;
    var p := Rolled2(env.hasher.f);
    Rolls(env.hasher.f);
    RebaseOkOf(p);
    E.Shape(p.c, StateOf(p));
    SP.MeasuredAll(p.c, StateOf(p));
    E.EndOfEmpty(NEXT);
    assert p.all[0..] == p.all;
    EventRetires(env.hasher, w, KEY, 1, SIZE);
  }

  lemma RebaseOkOf(p: Part)
    requires PartOk(p)
    ensures p.start < |p.all| && E.Inv(p.c, StateOf(p))
  {
    hide E.Inv, Rooted;
    RebaseOk(p);
  }

  /** The catalog with the first topic takes it. */
  lemma FirstAccepted(env: Env, init: Catalog.StoreInit, e: Catalog.Event)
    requires Catalog.ValidInit(init) && NonZero(env.hasher) && Retires(env.hasher, e, KEY, Rolled2(env.hasher.f), 1)
    requires e.store == init.store && e.expectedNext == 2 && e.oldL == 0 && e.durableEnd == 1 && e.reason == SIZE
    ensures Catalog.Transition(Cat1(env, init), 2, e).Some?
  {
    hide HeaderImage, SegBytes;
    var p := Rolled2(env.hasher.f);
    var s := p.all[0];
    assert p.all[0..1] == [s] && e.retired == [EntryOf(env.hasher, s)];
    SegLength(env.hasher.f, s);
    OneRecord();
    assert e.retired[1..] == [] && Catalog.Spans([], 1, 1);
  }

  const RETAIN: Step := Retain(KEY, 1, SIZE, C.Acknowledged)

  /** The store opened again on the unsettled manifest, its partition in use. */
  ghost predicate Resumed(env: Env, init: Catalog.StoreInit, w: World)
    requires Catalog.ValidInit(init) && NonZero(env.hasher)
  {
    && w.shelves == Shelves(map[], Rolled2(env.hasher.f)) && w.busy.None?
    && w.sys.open && w.sys.phase.Idle? && !w.sys.catalogDown && w.sys.sys == Stocked(env, init).sys.sys
    && w.sys.sys.cat == Cat1(env, init) && w.sys.left == C.NOTHING && w.sys.catalog == Stocked(env, init).sys.catalog
    && w.sys.behind == Some(C.Behind(Stocked(env, init).sys.catalog, Stocked(env, init).sys.offsets))
  }

  function Resume(a: Catalog.Anchor): seq<Step> { Prologue(a) + [System(C.Open)] + [Use(KEY, E.Reopen)] }

  lemma Resumes(env: Env, init: Catalog.StoreInit) returns (w: World)
    requires Catalog.ValidInit(init) && NonZero(env.hasher) && CE.NonZero(env.digests)
    ensures Runs(env, New(init), Resume(init.catalogInitial), w) && Resumed(env, init, w)
  {
    hide NonZero, CE.NonZero, C.Do, Do, Runs, Shelves, Rolled2, Reopened2, Cat1, Closed, Prologue, E.Perform, StateOf,
         Ready, Cleaned, Absorb;
    var f, a := env.hasher.f, init.catalogInitial;
    Closes(env, init);
    OpensAgain(env, init);
    SystemReopens(env, init);
    StockedCatalog(env, init);
    Reloads(f);
    var w1 := World(Closed(env, init), Shelves(map[], Rolled2(f)), None);
    var back := C.Do(env.digests, Closed(env, init), C.Open).value;
    var w2 := World(back, Shelves(map[], Reopened2(f)), None);
    RunsMore(env, New(init), Prologue(a), w1, System(C.Open));
    UsesAs(env, back, Reopened2(f), Rolled2(f), E.Reopen);
    RunsMore(env, New(init), Prologue(a) + [System(C.Open)], w2, Use(KEY, E.Reopen));
    w := World(back, Shelves(map[], Rolled2(f)), None);
  }

  lemma Catalogued(env: Env, init: Catalog.StoreInit)
    ensures InCatalog(Cat1(env, init), KEY) && RetainedStart(Cat1(env, init), KEY) == 0
    ensures Cat1(env, init).revision == 2 && Catalog.StoreOf(Cat1(env, init)) == init.store
  {
  }

  /** A live catalog takes a retention event that its projection accepts. */
  lemma TakesRecord(h: C.Digests, w: C.World, e: Catalog.Event)
    requires C.Inv(h, w) && w.open && w.phase.Idle? && !w.catalogDown && w.sys.cat.revision < MAX_OFFSET
    requires e.LogStartAdvanced? && Catalog.Transition(w.sys.cat, w.sys.cat.revision, e).Some?
    ensures C.Do(h, w, C.AppendCatalog(e, C.Acknowledged)).Some?
  {
    hide C.Represents, C.BehindOk, C.BuildOk, Accepted, Catalog.Transition, OC.CountsOk, Catalog.AdvancedTopic,
         C.FoldOf;
    Catalog.AdvanceIs(w.sys.cat, w.sys.cat.revision, e);
    var next := Catalog.Transition(w.sys.cat, w.sys.cat.revision, e).value;
    assert |next.topics| == |next.topics.Keys| && next.topics.Keys == w.sys.cat.topics.Keys;
  }

  lemma EventFields(env: Env, w: World)
    requires Retainable(w, KEY, 1) && Retires(env.hasher, AdvanceEvent(env.hasher, w, KEY, 1, SIZE), KEY,
                                              PartAt(w, KEY), 1)
    ensures var e, cat := AdvanceEvent(env.hasher, w, KEY, 1, SIZE), w.sys.sys.cat;
            && e.LogStartAdvanced? && e.key == KEY && e.store == Catalog.StoreOf(cat) && e.expectedNext == cat.revision
            && e.oldL == RetainedStart(cat, KEY) && e.durableEnd == StateOf(PartAt(w, KEY)).logEnd && e.reason == SIZE
            && e.newL == PartAt(w, KEY).all[PartAt(w, KEY).start + 1].header.base
  {
    hide SP.PiecesOf, R.RetiredEvents, SP.AnchorOf, EntriesOf;
  }

  lemma PutFirst(w: World, p: Part, q: Part, sys: C.World)
    requires w.shelves == Shelves(map[], p)
    ensures HasPart(w, KEY) && PartAt(w, KEY) == p
    ensures Put(w.(sys := sys), KEY, q) == w.(sys := sys, shelves := Shelves(map[], q))
  {
    hide MarkerOf;
    var s := Shelf(Some(MarkerOf(3)), map[0 := p]);
    assert s.parts[0 := q] == map[0 := q];
    assert Shelves(map[], p)[3 := s.(parts := map[0 := q])] == Shelves(map[], q);
  }

  lemma RetainsFirst(env: Env, init: Catalog.StoreInit, w: World)
    requires Catalog.ValidInit(init) && NonZero(env.hasher) && Resumed(env, init, w) && C.Inv(env.digests, w.sys)
    ensures var n := Do(env, w, RETAIN);
            && n.Some? && n.value.shelves == Shelves(map[], Rolled2(env.hasher.f).(start := 1))
            && n.value.sys.open && n.value.sys.behind == w.sys.behind
            && InCatalog(n.value.sys.sys.cat, KEY) && RetainedStart(n.value.sys.sys.cat, KEY) == 1
  {
    hide C.Inv, NonZero, C.Do, Cat1, MarkerOf, Retires, Catalog.Transition, Stocked, AdvanceEvent, Retainable, StateOf,
         Shelves, Put, Catalog.Merge;
    var p := Rolled2(env.hasher.f);
    Catalogued(env, init);
    FirstRetires(env, w);
    var e := AdvanceEvent(env.hasher, w, KEY, 1, SIZE);
    PutFirst(w, p, AfterRetain(p, 1, C.Acknowledged), w.sys);
    EventFields(env, w);
    FirstAccepted(env, init, e);
    TakesRecord(env.digests, w.sys, e);
    CatalogStep(env.digests, w.sys, e, C.Acknowledged);
    StillUp(env.digests, w.sys, e);
    Catalog.AdvanceIs(w.sys.sys.cat, 2, e);
    PutFirst(w, p, AfterRetain(p, 1, C.Acknowledged),
             C.Do(env.digests, w.sys, C.AppendCatalog(e, C.Acknowledged)).value);
  }

  lemma DiscardsFirst(env: Env, w: World)
    requires w.shelves == Shelves(map[], Rolled2(env.hasher.f).(start := 1)) && w.sys.open
    requires InCatalog(w.sys.sys.cat, KEY) && RetainedStart(w.sys.sys.cat, KEY) == 1
    ensures Do(env, w, Discard(KEY, 0)) ==
            Some(w.(shelves := Shelves(map[], Rolled2(env.hasher.f).(start := 1, gone := {0}))))
  {
    hide MarkerOf, Shelves, Put;
    var p := Rolled2(env.hasher.f).(start := 1);
    assert p.gone + {0} == {0};
    PutFirst(w, p, p.(gone := {0}), w.sys);
  }

  /** The example: power is lost, the manifest from before the retention comes back,
      and the segment it starts with is gone. The store does not open again. */
  lemma {:induction false} LostSegmentExample(env: Env, init: Catalog.StoreInit)
    requires Catalog.ValidInit(init) && NonZero(env.hasher) && CE.NonZero(env.digests)
    ensures exists w ::
              && Runs(env, New(init), Resume(init.catalogInitial) + [RETAIN] + [Discard(KEY, 0)], w)
              && Boot(env, C.AfterCrash(w.sys, true, C.EMPTY_DIR), w.shelves).Some?
              && Boot(env, C.AfterCrash(w.sys, false, C.EMPTY_DIR), w.shelves) == None
  {
    hide NonZero, CE.NonZero, Do, Runs, Inv, Boot, Resume, Shelves, Cat1, Whole, HistoryWhole, Accepted, Stocked, C.Inv,
         InCatalog, RetainedStart;
    var w0, steps := New(init), Resume(init.catalogInitial);
    var w1 := Resumes(env, init);
    NewOk(env, init);
    RunKeeps(env, w0, steps, w1);
    Unfolded(env, w1);
    RetainsFirst(env, init, w1);
    var w2 := Do(env, w1, RETAIN).value;
    RunsMore(env, w0, steps, w1, RETAIN);
    StepKeeps(env, w1, RETAIN);
    DiscardsFirst(env, w2);
    var w := Do(env, w2, Discard(KEY, 0)).value;
    RunsMore(env, w0, steps + [RETAIN], w2, Discard(KEY, 0));
    StepKeeps(env, w2, Discard(KEY, 0));
    BootsExactly(env, w, true, C.EMPTY_DIR);
    BootsExactly(env, w, false, C.EMPTY_DIR);
    ResumedWhole(env, init, w1);
    StillWhole(env, w1, w2, w);
    NotBehind(env, init, w);
  }

  lemma ResumedWhole(env: Env, init: Catalog.StoreInit, w: World)
    requires Catalog.ValidInit(init) && NonZero(env.hasher) && Resumed(env, init, w)
    ensures Whole(w)
  {
    hide NonZero, StorageWhole, Catalog.ReplayFrom, Shelves, Cat1, Stocked;
    StockedHistory(env, init);
    TwoWhole(env, init);
    CS.NothingBootable();
  }

  lemma StillWhole(env: Env, w1: World, w2: World, w: World)
    requires Inv(env, w1) && Do(env, w1, RETAIN) == Some(w2) && Inv(env, w2) && Do(env, w2, Discard(KEY, 0)) == Some(w)
    requires Whole(w1)
    ensures Whole(w)
  {
    hide Inv, Whole, DoRetain, DoDiscard;
    WholeExactly(env, w1, RETAIN);
    WholeExactly(env, w2, Discard(KEY, 0));
  }

  /** The catalog from before the retention starts at the removed segment. */
  lemma NotBehind(env: Env, init: Catalog.StoreInit, w: World)
    requires Catalog.ValidInit(init) && NonZero(env.hasher)
    requires w.shelves == Shelves(map[], Rolled2(env.hasher.f).(start := 1, gone := {0}))
    ensures !HistoryWhole(Stocked(env, init).sys.catalog, w.shelves)
  {
    hide Inv, NonZero, MarkerOf, C.Do, Cat1, Catalog.ReplayFrom, Readable;
    StockedCatalog(env, init);
    StockedHistory(env, init);
    Catalogued(env, init);
    var p := w.shelves[3].parts[0];
    assert 0 in p.gone && !PartWhole(p, 0);
    assert 3 in Cat1(env, init).topics && Cat1(env, init).topics[3].partitions[0].retainedL == 0;
  }

  lemma StockedHistory(env: Env, init: Catalog.StoreInit)
    requires Catalog.ValidInit(init) && NonZero(env.hasher)
    ensures Catalog.ReplayFrom(Catalog.EMPTY, 0, Stocked(env, init).sys.catalog) == Some(Stocked(env, init).sys.sys.cat)
  {
    hide Inv, NonZero, Catalog.ReplayFrom, C.Do, Shelves;
    Stocks(env, init);
    StockedFacts(env, init);
    AllListed(env, Stocked(env, init));
  }
}
