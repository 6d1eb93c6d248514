/** Runs in which a system log does not come back whole: the inputs behind the
    conditions of the crash theorem. */
module CompactionExamples {
  import opened Base
  import opened Restart
  import opened Compaction
  import opened CompactionSafety
  import Catalog
  import CC = CatalogCheckpoint
  import CatalogHistory
  import GB = GroupBodies
  import O = Offsets
  import OC = OffsetsCheckpoint
  import OH = OffsetsHistory
  import Sorting

  /** No checkpoint file hashes to zero. */
  ghost predicate NonZero(h: Digests) {
    (forall f: CatalogFile :: h.catalog(f) != 0) && (forall f: OffsetsFile :: h.offsets(f) != 0)
  }

  lemma {:induction false} RunsMore(h: Digests, w: World, front: seq<Step>, m: World, step: Step)
    requires Runs(h, w, front, m) && Do(h, m, step).Some?
    ensures Runs(h, w, front + [step], Do(h, m, step).value)
    decreases front
  {
    hide Do;
    if front == [] {
      assert front + [step] == [step] && [step][1..] == [];
    } else {
      assert (front + [step])[0] == front[0] && (front + [step])[1..] == front[1..] + [step];
      RunsMore(h, Do(h, w, front[0]).value, front[1..], m, step);
    }
  }

  // --------------------------------------------------------------- a new store

  function Born(init: Catalog.StoreInit): OH.System {
    OH.System(Catalog.State(Some(init), 1, map[], map[]), O.Fresh(init.store))
  }

  function FirstOpened(init: Catalog.StoreInit): World {
    NewStore(init).(open := true, sys := Born(init))
  }

  lemma BornIs(init: Catalog.StoreInit)
    requires Catalog.ValidInit(init)
    ensures var w := NewStore(init);
            Accepted(w.store, w.catalog, w.offsets) && FoldOf(w.store, w.catalog, w.offsets) == Born(init)
  {
    var w := NewStore(init);
    assert w.catalog[1..] == [];
    assert Catalog.ReplayFrom(Catalog.EMPTY, 0, w.catalog) == Catalog.Transition(Catalog.EMPTY, 0, w.catalog[0]);
  }

  lemma {:induction false} Opens(h: Digests, init: Catalog.StoreInit)
    requires Catalog.ValidInit(init)
    ensures Do(h, NewStore(init), Open) == Some(FirstOpened(init)) && Inv(h, FirstOpened(init))
    ensures Runs(h, NewStore(init), [Open], FirstOpened(init))
  {
    hide Bootstrap, Represents, BuildOk, FoldOf, Accepted;
    var w := NewStore(init);
    NewStoreOk(h, init);
    NothingBootable();
    BornIs(init);
    Boots(h, w.disk, w.store, w.catalog, w.offsets, NOTHING);
    assert w.catalog + [] == w.catalog && w.offsets + [] == w.offsets;
    assert Repaired(w.disk, 0) == w.disk;
    StepKeeps(h, w, Open);
    assert Runs(h, w, [], w) && [] + [Open] == [Open];
    RunsMore(h, w, [], w, Open);
  }

  function FirstTopic(init: Catalog.StoreInit): Catalog.Event {
    Catalog.TopicCreated(init.store, 1, 3, [97], [Catalog.CreatedPartition(0, init.catalogConfig, init.catalogInitial)])
  }

  /** The first topic can be appended to any open, idle store without topics. */
  lemma TopicAppends(h: Digests, init: Catalog.StoreInit, w: World, outcome: Outcome)
    requires Catalog.ValidInit(init) && w.open && w.phase.Idle? && !w.catalogDown && w.sys == Born(init)
             && Possible(outcome)
    ensures Do(h, w, AppendCatalog(FirstTopic(init), outcome)).Some?
  {
  }

  /** One byte of a catalog batch is enough: the store does not open again. */
  lemma ShortTailExample(h: Digests, init: Catalog.StoreInit)
    requires Catalog.ValidInit(init)
    ensures exists w ::
              && Runs(h, NewStore(init), [Open, AppendCatalog(FirstTopic(init), Unknown(1, 300))], w)
              && Bootstrap(h, AfterCrash(w, true, EMPTY_DIR)) == None
  {
    hide Bootstrap, Inv, Do, Represents, Runs;
    var w, step := FirstOpened(init), AppendCatalog(FirstTopic(init), Unknown(1, 300));
    Opens(h, init);
    TopicAppends(h, init, w, step.outcome);
    assert [Open] + [step] == [Open, step];
    RunsMore(h, NewStore(init), [Open], w, step);
    Unbootable(h, w, step);
  }

  /** So is one group that starts explicitly at no key. */
  lemma EmptyStartExample(h: Digests, init: Catalog.StoreInit)
    requires Catalog.ValidInit(init)
    ensures var e := GB.CreatedBody(init.store, Born(init).cat, [103], GB.EXPLICIT, map[]);
            exists w ::
              && Runs(h, NewStore(init), [Open, AppendOffsets(e, Acknowledged)], w)
              && Bootstrap(h, AfterCrash(w, true, EMPTY_DIR)) == None
  {
    hide Bootstrap, Inv, Represents, NewStore, Runs;
    var e := GB.CreatedBody(init.store, Born(init).cat, [103], GB.EXPLICIT, map[]);
    var w, step := FirstOpened(init), AppendOffsets(e, Acknowledged);
    Opens(h, init);
    assert [Open] + [step] == [Open, step];
    RunsMore(h, NewStore(init), [Open], w, step);
    Unbootable(h, w, step);
  }

  lemma Unbootable(h: Digests, w: World, step: Step)
    requires Inv(h, w) && (step.AppendCatalog? || step.AppendOffsets?) && Do(h, w, step).Some?
    requires LeavesShortTail(step) || LeavesRefused(w, step)
    ensures Bootstrap(h, AfterCrash(Do(h, w, step).value, true, EMPTY_DIR)) == None
  {
    hide Bootstrap, Represents, Do, OpenOk, Accepted, Startless, Bootable, FoldOf, BehindOk;
    var n := Do(h, w, step).value;
    StepKeeps(h, w, step);
    BrokenExactly(h, w, step);
    PowerLossKeeps(h, n, true, EMPTY_DIR);
    Boots(h, AfterCrash(n, true, EMPTY_DIR), n.store, n.catalog, n.offsets, n.left);
  }

  // ------------------------------------------------------ a rename that falls back

  lemma BornEncodes(init: Catalog.StoreInit)
    ensures CC.Encode(Born(init).cat).Some? && OC.Encode(Born(init).offs).Some?
  {
    CC.TopicIdsAt(Born(init).cat);
    CC.Orders();
    assert CC.RetiredKeys(Born(init).cat.topics) == {};
    Sorting.AscendingLength(CC.RetiredOrder(Born(init).cat), {}, CC.RetiredLess);
    assert CC.TopicList(Born(init).cat) == [] && CC.RetiredList(Born(init).cat) == [];
    OC.GroupIdsAt(Born(init).offs);
    assert OC.GroupList(Born(init).offs) == [];
  }

  /** A store that is about to compact into its first generation. */
  ghost predicate Compactable(h: Digests, w: World) {
    && NonZero(h) && Inv(h, w) && w.open && w.phase.Idle? && !w.catalogDown && !w.offsetsDown && Encodable(w)
    && w.disk.dirs == map[] && w.generation == 0 && w.behind.None? && w.left == NOTHING
  }

  /** Its compaction: begun, then built stage by stage. */
  ghost function Built(h: Digests, w: World, a: Catalog.Anchor, stage: nat): World
    requires Encodable(w) && stage <= 6
  {
    var p := Building(1, stage, a, a);
    w.(phase := p,
    disk := w.disk.(active := if stage == 6 then Some(NewManifest(h, w, p)) else w.disk.active,
                    dirs := map[1 := BuiltDir(h, w, p)]),
    behind := if stage == 6 then Some(Behind(w.catalog, w.offsets)) else None)
  }

  lemma Begins(h: Digests, w: World, a: Catalog.Anchor)
    requires Compactable(h, w)
    ensures Do(h, w, Begin(1, a, a)) == Some(Built(h, w, a, 0))
  {
    hide NonZero, Inv, CC.Encode, OC.Encode;
  }

  lemma BuildsMore(h: Digests, w: World, a: Catalog.Anchor, k: nat)
    requires Compactable(h, w) && Catalog.ValidAnchor(a) && k < 6
    ensures Do(h, Built(h, w, a, k), Advance) == Some(Built(h, w, a, k + 1))
  {
    hide CC.Encode, OC.Encode, CC.Entries, OC.Entries, Inv;
    var n, p := Built(h, w, a, k), Building(1, k + 1, a, a);
    Numbered(h, w);
    assert BuiltDir(h, n, p) == BuiltDir(h, w, p) && NewManifest(h, n, p) == NewManifest(h, w, p);
    assert n.disk.dirs[1 := BuiltDir(h, n, p)] == map[1 := BuiltDir(h, w, p)];
    if k == 5 {
      assert BuiltDir(h, w, n.phase) == BuiltDir(h, w, p);
    }
  }

  lemma Numbered(h: Digests, w: World)
    requires Inv(h, w) && w.open && w.behind.None?
    ensures w.store != 0 && w.sys.cat.revision != 0 && w.disk.active == w.disk.synced
  {
    hide Represents, BuildOk, CatalogHistory.Valid, FoldOf, Accepted;
    FoldShape(w.store, w.ackedCatalog, w.ackedOffsets);
    Initialized(w.store, w.ackedCatalog, w.ackedOffsets);
  }

  lemma Initialized(store: Id, c: seq<Catalog.Event>, o: seq<O.Event>)
    requires Accepted(store, c, o)
    ensures store != 0 && c != []
  {
  }

  function Advances(k: nat): seq<Step> { if k == 0 then [] else Advances(k - 1) + [Advance] }

  lemma {:induction false} Builds(h: Digests, w0: World, front: seq<Step>, w: World, a: Catalog.Anchor, k: nat)
    requires Compactable(h, w) && Catalog.ValidAnchor(a) && k <= 6 && Runs(h, w0, front, w)
    ensures Runs(h, w0, front + [Begin(1, a, a)] + Advances(k), Built(h, w, a, k)) && Inv(h, Built(h, w, a, k))
  {
    hide Compactable, Inv, Do, Runs, Built;
    CompactableShape(h, w);
    if k == 0 {
      Begins(h, w, a);
      RunsMore(h, w0, front, w, Begin(1, a, a));
      StepKeeps(h, w, Begin(1, a, a));
      assert front + [Begin(1, a, a)] + [] == front + [Begin(1, a, a)];
    } else {
      Builds(h, w0, front, w, a, k - 1);
      BuildsMore(h, w, a, k - 1);
      RunsMore(h, w0, front + [Begin(1, a, a)] + Advances(k - 1), Built(h, w, a, k - 1), Advance);
      StepKeeps(h, Built(h, w, a, k - 1), Advance);
      assert front + [Begin(1, a, a)] + Advances(k) == front + [Begin(1, a, a)] + Advances(k - 1) + [Advance];
    }
  }

  lemma CompactableShape(h: Digests, w: World)
    requires Compactable(h, w)
    ensures Inv(h, w) && Encodable(w)
  {
    hide Inv, Encodable, NonZero;
  }

  lemma FirstCompactable(h: Digests, init: Catalog.StoreInit)
    requires NonZero(h) && Catalog.ValidInit(init)
    ensures Compactable(h, FirstOpened(init))
  {
    hide Inv, NonZero, CC.Encode, OC.Encode;
    Opens(h, init);
    BornEncodes(init);
  }

  /** Any closed store that left nothing behind can be opened. */
  lemma Reopens(h: Digests, w: World)
    requires Inv(h, w) && !w.open && w.left == NOTHING
    ensures var n := Do(h, w, Open);
            && n.Some? && n.value.open && n.value.phase.Idle? && !n.value.catalogDown && !n.value.offsetsDown
            && n.value.sys == FoldOf(w.store, w.catalog, w.offsets) && n.value.store == w.store
            && n.value.catalog == n.value.ackedCatalog == w.catalog
            && n.value.offsets == n.value.ackedOffsets == w.offsets
            && n.value.behind == w.behind && n.value.left == NOTHING
            && n.value.disk.active == w.disk.active && n.value.disk.synced == w.disk.synced
  {
    hide Bootstrap, Represents, FoldOf, Accepted, BehindOk;
    NothingBootable();
    Boots(h, w.disk, w.store, w.catalog, w.offsets, NOTHING);
  }

  /** A compaction of the new store, up to the rename of the active manifest. */
  function BuildSteps(init: Catalog.StoreInit): seq<Step> {
    [Open] + [Begin(1, init.catalogInitial, init.catalogInitial)] + Advances(6)
  }

  /** The sync of the active manifest fails; the store is reopened and acknowledges a
      topic, and then power is lost: the old manifest comes back without it. */
  lemma {:induction false} LostRecordExample(h: Digests, init: Catalog.StoreInit)
    requires NonZero(h) && Catalog.ValidInit(init)
    ensures exists w ::
              && Runs(h, NewStore(init), BuildSteps(init) + [FailPublish] + [Exit] + [Open]
                      + [AppendCatalog(FirstTopic(init), Acknowledged)], w)
              && w.ackedCatalog == [Catalog.StoreInitialized(init), FirstTopic(init)]
              && Bootstrap(h, AfterCrash(w, false, EMPTY_DIR)).Some?
              && Bootstrap(h, AfterCrash(w, false, EMPTY_DIR)).value.sys.cat.revision == 1
  {
    hide Bootstrap, Inv, Represents, CC.Encode, OC.Encode, CC.Entries, OC.Entries, DoAppendOffsets, BuiltDir,
         NewManifest, Repaired, OH.LiveStep, WithinOperatingLimits, Runs, NonZero, Compactable, BuildSteps;
    var w0, p6, a := NewStore(init), BuildSteps(init), init.catalogInitial;
    Opens(h, init);
    FirstCompactable(h, init);
    CompactableShape(h, FirstOpened(init));
    Builds(h, w0, [Open], FirstOpened(init), a, 6);
    var w6 := Built(h, FirstOpened(init), a, 6);
    assert Runs(h, w0, p6, w6) by { StepsAre(init); }
    var failed := Do(h, w6, FailPublish).value;
    Unsettles(h, w6, FailPublish);
    StepKeeps(h, w6, FailPublish);
    RunsMore(h, w0, p6, w6, FailPublish);
    var closed := Do(h, failed, Exit).value;
    StepKeeps(h, failed, Exit);
    RunsMore(h, w0, p6 + [FailPublish], failed, Exit);
    Reopens(h, closed);
    BornIs(init);
    var back, e := Do(h, closed, Open).value, FirstTopic(init);
    RunsMore(h, w0, p6 + [FailPublish] + [Exit], closed, Open);
    TopicAppends(h, init, back, Acknowledged);
    var w := Do(h, back, AppendCatalog(e, Acknowledged)).value;
    RunsMore(h, w0, p6 + [FailPublish] + [Exit] + [Open], back, AppendCatalog(e, Acknowledged));
    SettledExactly(h, init, p6 + [FailPublish] + [Exit] + [Open] + [AppendCatalog(e, Acknowledged)], w, EMPTY_DIR);
  }

  lemma StepsAre(init: Catalog.StoreInit)
    ensures BuildSteps(init) == [Open] + [Begin(1, init.catalogInitial, init.catalogInitial)] + Advances(6)
  {
  }
}
