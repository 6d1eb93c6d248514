/** Safety of compaction over every run: whatever was interrupted, a restart
    finds a complete authority that holds the durable history, unless a log ends
    in what no restart accepts. */
module CompactionSafety {
  import opened Base
  import opened Restart
  import opened Compaction
  import Batches
  import Catalog
  import CC = CatalogCheckpoint
  import CatalogHistory
  import Codec
  import C = Consumers
  import GB = GroupBodies
  import O = Offsets
  import OC = OffsetsCheckpoint
  import OH = OffsetsHistory
  import PL = PartitionLog
  import S = Segments

  // ------------------------------------------------------------ refused records

  /** No replay accepts an explicit start without keys, whatever the state. */
  lemma StartlessRefused(s: O.State, offset: Offset, e: O.Event, cat: Catalog.State)
    requires Startless(e)
    ensures O.Transition(s, offset, e, cat) == None
  {
  }

  lemma {:induction false} RefusedReplay(s: O.State, offset: nat, o: seq<O.Event>, e: O.Event, cat: Catalog.State)
    requires Startless(e)
    ensures O.ReplayFrom(s, offset, o + [e], cat) == None
  {
    hide O.Transition;
    O.ReplaySplit(s, offset, o, [e], cat);
    var m := O.ReplayFrom(s, offset, o, cat);
    if m.Some? && offset + |o| < MAX_OFFSET {
      StartlessRefused(m.value, offset + |o|, e, cat);
    }
  }

  lemma EmptyStartIs(s: OH.System, e: O.Event)
    requires CatalogHistory.Valid(s.cat) && EmptyStart(s, e)
    ensures Startless(e) && OH.LiveStep(s, OH.OnOffsets(e)) == None
  {
    hide CatalogHistory.Valid;
    GB.StartListOk(s.cat, map[]);
    StartlessRefused(s.offs, s.offs.revision, e, s.cat);
  }

  /** The consumer protocol's refused request is exactly such an event. */
  lemma EmptyExplicitIsStart(w: C.World, s: C.Step)
    requires C.Inv(w) && C.EmptyExplicit(w, s)
    ensures EmptyStart(OH.System(w.cat, w.offsets), GB.CreatedBody(w.offsets.store, w.cat, s.group, GB.EXPLICIT, map[]))
  {
    hide CatalogHistory.Valid;
  }

  // ----------------------------------------------------------------- torn tails

  /** What opening the partition files makes of a failed append, byte for byte. */
  lemma {:induction false} TailAgrees(f: Codec.Format, log: seq<PL.Seg>, batch: Batches.Batch, kept: nat, topic: Id,
                                      partition: u32)
    requires PL.LogOk(f, log, topic, partition) && PL.DebrisOk(f, log, PL.Torn(batch, kept), topic, partition)
    ensures Batches.EncodeBatch(f, batch).Some?
    ensures var length := |Batches.EncodeBatch(f, batch).value|;
            && Possible(Unknown(kept, length))
            && PL.Open(f, PL.Directory(f, log, PL.Torn(batch, kept)), topic, partition, log[0].header.base) ==
               match TailOf(kept, length)
               case Whole => Some(PL.Views(f, PL.Grown(log, batch)))
               case Cut => Some(PL.Views(f, log))
               case Refused => None
  {
    hide PL.LogOk, PL.Open, PL.Directory, PL.Views, Batches.EncodeBatch;
    PL.ReopenAfterCrash(f, log, PL.Torn(batch, kept), topic, partition);
    S.EncodedShape(f, batch);
  }

  // --------------------------------------------------------------- bootstrap

  lemma {:induction false} FirstInit(c: seq<Catalog.Event>)
    requires c != [] && Catalog.ReplayFrom(Catalog.EMPTY, 0, c).Some?
    ensures c[0].StoreInitialized? && CatalogOf(c).init == Some(c[0].init)
  {
    hide CatalogHistory.Valid;
    PrefixExtends(c, 1);
    assert c[..1] == [c[0]] && c[..1][1..] == [];
  }

  lemma LegacyBoots(d: Dir, store: Id, c: seq<Catalog.Event>, o: seq<O.Event>, x: Leftover)
    requires Accepted(store, c, o) && LegacyHolds(d, c, o, x) && (x.refused.Some? ==> Startless(x.refused.value))
    ensures BootstrapLegacy(d) ==
            if Bootable(x) then Some(Opened(FoldOf(store, c, o), 0)) else None
  {
    hide Catalog.ReplayFrom, O.ReplayFrom, CatalogHistory.Valid, OH.Valid;
    FirstInit(c);
    if x.refused.Some? {
      RefusedReplay(O.Fresh(store), 0, o, x.refused.value, CatalogOf(c));
    } else {
      assert o + Refuse(x) == o;
    }
  }

  lemma GenerationBoots(h: Digests, m: Manifest, d: Dir, store: Id, c: seq<Catalog.Event>, o: seq<O.Event>, x: Leftover)
    requires Accepted(store, c, o) && DirHolds(h, m, d, store, c, o, x)
             && (x.refused.Some? ==> Startless(x.refused.value))
    ensures BootstrapGeneration(h, m, d) ==
            if Bootable(x) then Some(Opened(FoldOf(store, c, o), m.generation)) else None
  {
    hide Catalog.ReplayFrom, O.ReplayFrom, CC.Encode, CC.Decode, OC.Encode, OC.Decode, CC.Entries, OC.Entries,
         OC.CountsOk, Recover, Selected;
    SelectedShape(h, m, d);
    CheckpointPlusSuffix(store, c, o, m.catalogNext, m.offsetsNext);
    CheckpointDecodes(store, c, o, m.catalogNext, m.offsetsNext);
    if x.refused.Some? {
      var p, q := d.catalogCheckpoint.value, d.offsetsCheckpoint.value;
      RefusedRecovery(p.payload, p.next, q.payload, q.next, m.store, d.catalogLog.value.events, o[m.offsetsNext..],
                      x.refused.value);
    } else {
      assert o[m.offsetsNext..] + Refuse(x) == o[m.offsetsNext..];
    }
  }

  lemma RefusedRecovery(catalog: CC.Payload, catalogNext: u64, offsets: OC.Payload, offsetsNext: u64, store: Id,
                        catalogSuffix: seq<Catalog.Event>, offsetsSuffix: seq<O.Event>, e: O.Event)
    requires Startless(e)
    ensures Recover(catalog, catalogNext, offsets, offsetsNext, store, catalogSuffix, offsetsSuffix + [e]) == None
  {
    hide Catalog.ReplayFrom, O.ReplayFrom, CC.Decode, OC.Decode;
    var base := CC.Decode(catalog, catalogNext, store);
    if base.Some? {
      var cat := Catalog.ReplayFrom(base.value, base.value.revision, catalogSuffix);
      if cat.Some? {
        var start := OC.Decode(offsets, offsetsNext, store, cat.value);
        if start.Some? {
          RefusedReplay(start.value, start.value.revision, offsetsSuffix, e, cat.value);
        }
      }
    }
  }

  lemma SelectedShape(h: Digests, m: Manifest, d: Dir)
    requires Selected(h, m, d)
    ensures d.catalogCheckpoint.Some? && d.offsetsCheckpoint.Some? && d.catalogLog.Some? && d.offsetsLog.Some?
    ensures d.catalogCheckpoint.value.next == m.catalogNext && d.offsetsCheckpoint.value.next == m.offsetsNext
  {
  }

  /** A disk whose active manifest selects an authority holding the histories
      boots into the state those histories fold to, exactly when nothing behind
      them is refused. */
  lemma Boots(h: Digests, d: Disk, store: Id, c: seq<Catalog.Event>, o: seq<O.Event>, x: Leftover)
    requires Accepted(store, c, o) && Represents(h, d, d.active, store, c, o, x)
    requires x.refused.Some? ==> Startless(x.refused.value)
    ensures Bootstrap(h, d) ==
            if Bootable(x) then Some(Opened(FoldOf(store, c, o), GenerationOf(d.active))) else None
  {
    hide Catalog.ReplayFrom, O.ReplayFrom, DirHolds, BootstrapGeneration, BootstrapLegacy, FoldOf, Bootable;
    match d.active
    case None => LegacyBoots(d.legacy, store, c, o, x);
    case Some(m) => GenerationBoots(h, m, d.dirs[m.generation], store, c, o, x);
  }

  lemma FoldShape(store: Id, c: seq<Catalog.Event>, o: seq<O.Event>)
    requires Accepted(store, c, o)
    ensures var s := FoldOf(store, c, o);
            CatalogHistory.Valid(s.cat) && s.cat.revision == |c| && s.offs.revision == |o|
  {
    hide Accepted, CatalogOf, OffsetsOf, CatalogHistory.Valid, OH.Valid;
    AcceptedValid(store, c, o);
  }

  // ----------------------------------------------------------------- appends

  lemma ManifestGeneration(h: Digests, d: Disk, m: Option<Manifest>, store: Id, c: seq<Catalog.Event>, o: seq<O.Event>,
                           x: Leftover)
    requires Accepted(store, c, o) && Represents(h, d, m, store, c, o, x)
    ensures m.Some? ==> m.value.generation != 0 && m.value.generation in d.dirs
  {
    hide Catalog.ReplayFrom, O.ReplayFrom, CC.Encode, OC.Encode, CC.Entries, OC.Entries, Checkpointed, Accepted;
  }

  /** The catalog log of the authority in use grows, tears or is cut. */
  lemma CatalogChanged(h: Digests, d: Disk, store: Id, c: seq<Catalog.Event>, o: seq<O.Event>, x: Leftover,
                       more: seq<Catalog.Event>, torn: nat)
    requires Accepted(store, c, o) && Accepted(store, c + more, o) && Represents(h, d, d.active, store, c, o, x)
    ensures var n := ChangeCatalog(d, GenerationOf(d.active), more, torn);
            && n.active == d.active && n.synced == d.synced
            && Represents(h, n, d.active, store, c + more, o, x.(catalogTorn := torn))
  {
    hide Accepted, CC.Encode, OC.Encode, CC.Entries, OC.Entries, Checkpointed, CatalogOf, OffsetsOf;
    ManifestGeneration(h, d, d.active, store, c, o, x);
    if d.active.Some? {
      var m := d.active.value;
      assert (c + more)[..m.catalogNext] == c[..m.catalogNext];
      assert (c + more)[m.catalogNext..] == c[m.catalogNext..] + more;
    }
  }

  /** The offsets log grows by accepted records, by a refused one, tears or is cut. */
  lemma OffsetsChanged(h: Digests, d: Disk, store: Id, c: seq<Catalog.Event>, o: seq<O.Event>, x: Leftover,
                       more: seq<O.Event>, y: Leftover)
    requires Accepted(store, c, o) && Accepted(store, c, o + more) && Represents(h, d, d.active, store, c, o, x)
    requires x.refused.None? && y.catalogTorn == x.catalogTorn
    ensures var n := ChangeOffsets(d, GenerationOf(d.active), more + Refuse(y), y.offsetsTorn);
            && n.active == d.active && n.synced == d.synced
            && Represents(h, n, d.active, store, c, o + more, y)
  {
    hide Accepted, CC.Encode, OC.Encode, CC.Entries, OC.Entries, Checkpointed, CatalogOf, OffsetsOf;
    ManifestGeneration(h, d, d.active, store, c, o, x);
    assert o + Refuse(x) + (more + Refuse(y)) == o + more + Refuse(y);
    if d.active.Some? {
      var m := d.active.value;
      assert (o + more)[..m.offsetsNext] == o[..m.offsetsNext];
      assert o[m.offsetsNext..] + Refuse(x) + (more + Refuse(y)) == (o + more)[m.offsetsNext..] + Refuse(y);
    }
  }

  /** Cutting the tails of logs that can be opened leaves nothing behind them. */
  lemma RepairedHolds(h: Digests, d: Disk, store: Id, c: seq<Catalog.Event>, o: seq<O.Event>, x: Leftover)
    requires Accepted(store, c, o) && Represents(h, d, d.active, store, c, o, x) && x.refused.None?
    ensures var n := Repaired(d, GenerationOf(d.active));
            n.active == d.active && n.synced == d.synced && Represents(h, n, d.active, store, c, o, NOTHING)
  {
    hide Accepted, Represents;
    assert c + [] == c && o + [] == o;
    CatalogChanged(h, d, store, c, o, x, [], 0);
    var y := x.(catalogTorn := 0);
    assert [] + Refuse(NOTHING) == [];
    OffsetsChanged(h, ChangeCatalog(d, GenerationOf(d.active), [], 0), store, c, o, y, [], NOTHING);
  }

  /** A change to one authority leaves every other as it is. */
  lemma ElsewhereHolds(h: Digests, d: Disk, g: nat, dir: Dir, m: Option<Manifest>, store: Id, c: seq<Catalog.Event>,
                       o: seq<O.Event>, x: Leftover)
    requires Accepted(store, c, o) && Represents(h, d, m, store, c, o, x) && GenerationOf(m) != g
    ensures Represents(h, WithDir(d, g, dir), m, store, c, o, x)
  {
    hide Accepted, DirHolds, LegacyHolds;
  }

  /** Whatever is appended to or cut from the active authority, the synced one still
      holds what it held. */
  lemma BehindKept(h: Digests, w: World, catalogMore: seq<Catalog.Event>, catalogTorn: nat, offsetsMore: seq<O.Event>,
                   offsetsTorn: nat)
    requires BehindOk(h, w)
    ensures var g := GenerationOf(w.disk.active);
            && BehindOk(h, w.(disk := ChangeCatalog(w.disk, g, catalogMore, catalogTorn)))
            && BehindOk(h, w.(disk := ChangeOffsets(w.disk, g, offsetsMore, offsetsTorn)))
            && BehindOk(h, w.(disk := Repaired(w.disk, g)))
  {
    hide Admissible, Represents;
    if w.behind.Some? {
      var g, b, m := GenerationOf(w.disk.active), w.behind.value, w.disk.synced;
      AdmissibleAccepted(w.store, b.catalog, b.offsets);
      var d := ChangeCatalog(w.disk, g, [], 0);
      forall dir: Dir ensures Represents(h, WithDir(w.disk, g, dir), m, w.store, b.catalog, b.offsets, NOTHING) {
        ElsewhereHolds(h, w.disk, g, dir, m, w.store, b.catalog, b.offsets, NOTHING);
      }
      var dir := DirOf(d, g);
      ElsewhereHolds(h, d, g, dir.(offsetsLog := Changed(dir.offsetsLog, [], 0)), m, w.store, b.catalog, b.offsets,
                     NOTHING);
    }
  }

  lemma AdmissibleAccepted(store: Id, c: seq<Catalog.Event>, o: seq<O.Event>)
    requires Admissible(store, c, o)
    ensures Accepted(store, c, o)
  {
  }

  lemma LiveCatalog(w: World, e: Catalog.Event)
    requires Accepted(w.store, w.ackedCatalog, w.ackedOffsets)
    requires w.sys == FoldOf(w.store, w.ackedCatalog, w.ackedOffsets)
    requires OH.LiveStep(w.sys, OH.OnCatalog(e)).Some?
    ensures Accepted(w.store, w.ackedCatalog + [e], w.ackedOffsets)
    ensures OH.LiveStep(w.sys, OH.OnCatalog(e)).value == FoldOf(w.store, w.ackedCatalog + [e], w.ackedOffsets)
    ensures |w.ackedCatalog| < MAX_OFFSET
    ensures Catalog.Transition(CatalogOf(w.ackedCatalog), |w.ackedCatalog|, e).Some?
  {
    hide Catalog.ReplayFrom, O.ReplayFrom, Catalog.Transition, O.Transition, CatalogHistory.Valid, OH.Valid, Accepted;
    AcceptedValid(w.store, w.ackedCatalog, w.ackedOffsets);
    CatalogGrows(w.store, w.ackedCatalog, w.ackedOffsets, e);
  }

  lemma LiveOffsets(w: World, e: O.Event)
    requires Accepted(w.store, w.ackedCatalog, w.ackedOffsets)
    requires w.sys == FoldOf(w.store, w.ackedCatalog, w.ackedOffsets)
    requires OH.LiveStep(w.sys, OH.OnOffsets(e)).Some?
    ensures Accepted(w.store, w.ackedCatalog, w.ackedOffsets + [e])
    ensures OH.LiveStep(w.sys, OH.OnOffsets(e)).value == FoldOf(w.store, w.ackedCatalog, w.ackedOffsets + [e])
    ensures |w.ackedOffsets| < MAX_OFFSET
    ensures O.Transition(OffsetsOf(w.store, w.ackedCatalog, w.ackedOffsets), |w.ackedOffsets|, e,
                         CatalogOf(w.ackedCatalog)).Some?
  {
    hide Catalog.ReplayFrom, O.ReplayFrom, Catalog.Transition, O.Transition, CatalogHistory.Valid, OH.Valid, Accepted;
    AcceptedValid(w.store, w.ackedCatalog, w.ackedOffsets);
    OffsetsGrow(w.store, w.ackedCatalog, w.ackedOffsets, e);
  }

  /** One more catalog record keeps both histories within the counts. */
  lemma CatalogAdmitted(store: Id, c: seq<Catalog.Event>, o: seq<O.Event>, p: seq<O.Event>, e: Catalog.Event)
    requires Admissible(store, c, o) && Accepted(store, c, p) && |c| < MAX_OFFSET
    requires Catalog.Transition(CatalogOf(c), |c|, e).Some?
    requires Accepted(store, c + [e], p) && WithinOperatingLimits(FoldOf(store, c + [e], p))
    ensures Admissible(store, c + [e], o)
  {
    hide Accepted, CatalogOf, OffsetsOf, OC.CountsOk, Catalog.Transition;
    CatalogGrows(store, c, o, e);
  }

  lemma OffsetsAdmitted(store: Id, c: seq<Catalog.Event>, d: seq<Catalog.Event>, o: seq<O.Event>, e: O.Event)
    requires Admissible(store, d, o) && Accepted(store, c, o) && c <= d && |o| < MAX_OFFSET
    requires O.Transition(OffsetsOf(store, c, o), |o|, e, CatalogOf(c)).Some?
    requires Accepted(store, c, o + [e]) && WithinOperatingLimits(FoldOf(store, c, o + [e]))
    ensures Admissible(store, d, o + [e])
  {
    hide Accepted, CatalogOf, OffsetsOf, OC.CountsOk, O.Transition;
    OffsetsGrow(store, c, o, e);
    OffsetsGrowLater(store, c, d, o, e);
  }

  lemma AppendCatalogKeeps(h: Digests, w: World, e: Catalog.Event, outcome: Outcome)
    requires Inv(h, w) && DoAppendCatalog(w, e, outcome).Some?
    ensures Inv(h, DoAppendCatalog(w, e, outcome).value)
  {
    hide Accepted, Represents, OH.LiveStep, FoldOf, BuildOk, WithinOperatingLimits, BehindOk;
    LiveCatalog(w, e);
    if Durable(outcome) {
      CatalogAdmitted(w.store, w.catalog, w.offsets, w.ackedOffsets, e);
      CatalogChanged(h, w.disk, w.store, w.catalog, w.offsets, w.left, [e], 0);
      BehindKept(h, w, [e], 0, [], 0);
    } else {
      assert w.catalog + [] == w.catalog;
      CatalogChanged(h, w.disk, w.store, w.catalog, w.offsets, w.left, [], outcome.kept);
      BehindKept(h, w, [], outcome.kept, [], 0);
    }
    BehindSame(h, w, DoAppendCatalog(w, e, outcome).value);
  }

  lemma AppendOffsetsKeeps(h: Digests, w: World, e: O.Event, outcome: Outcome)
    requires Inv(h, w) && DoAppendOffsets(w, e, outcome).Some?
    ensures Inv(h, DoAppendOffsets(w, e, outcome).value)
  {
    hide Accepted, Represents, OH.LiveStep, FoldOf, BuildOk, WithinOperatingLimits, EmptyStart, Startless,
         CatalogHistory.Valid, OH.Valid, BehindOk;
    assert w.offsets + [] == w.offsets;
    var next := OH.LiveStep(w.sys, OH.OnOffsets(e));
    FoldShape(w.store, w.ackedCatalog, w.ackedOffsets);
    if EmptyStart(w.sys, e) { EmptyStartIs(w.sys, e); }
    if !Durable(outcome) {
      var y := w.left.(offsetsTorn := outcome.kept);
      assert [] + Refuse(y) == [];
      OffsetsChanged(h, w.disk, w.store, w.catalog, w.offsets, w.left, [], y);
      BehindKept(h, w, [], 0, [], outcome.kept);
    } else if next.None? {
      var y := w.left.(refused := Some(e));
      assert [] + Refuse(y) == [e];
      OffsetsChanged(h, w.disk, w.store, w.catalog, w.offsets, w.left, [], y);
      BehindKept(h, w, [], 0, [e], 0);
    } else {
      LiveOffsets(w, e);
      OffsetsAdmitted(w.store, w.ackedCatalog, w.catalog, w.offsets, e);
      assert [e] + Refuse(w.left) == [e];
      OffsetsChanged(h, w.disk, w.store, w.catalog, w.offsets, w.left, [e], w.left);
      BehindKept(h, w, [], 0, [e], 0);
    }
    BehindSame(h, w, DoAppendOffsets(w, e, outcome).value);
  }

  /** Only the disk, the manifests and a growing acknowledged history matter to it. */
  lemma BehindSame(h: Digests, w: World, n: World)
    requires BehindOk(h, w.(disk := n.disk)) && n.store == w.store && n.behind == w.behind
    requires w.ackedCatalog <= n.ackedCatalog && w.ackedOffsets <= n.ackedOffsets
    ensures BehindOk(h, n)
  {
    hide Admissible, Represents;
  }

  // ----------------------------------------------------- building and cleanup

  /** An authority is untouched by changes to other directories. */
  lemma RepresentsElsewhere(h: Digests, d: Disk, n: Disk, m: Option<Manifest>, store: Id,
                            c: seq<Catalog.Event>, o: seq<O.Event>, x: Leftover)
    requires Accepted(store, c, o) && Represents(h, d, m, store, c, o, x)
    requires m.None? ==> n.legacy == d.legacy
    requires m.Some? && m.value.generation in d.dirs ==>
               m.value.generation in n.dirs && n.dirs[m.value.generation] == d.dirs[m.value.generation]
    ensures Represents(h, n, m, store, c, o, x)
  {
    hide Accepted, DirHolds;
  }

  lemma BehindElsewhere(h: Digests, w: World, n: World)
    requires BehindOk(h, w) && n.store == w.store && n.behind == w.behind
    requires n.ackedCatalog == w.ackedCatalog && n.ackedOffsets == w.ackedOffsets
    requires n.disk.active == w.disk.active && n.disk.synced == w.disk.synced && n.disk.legacy == w.disk.legacy
    requires var g := GenerationOf(w.disk.synced);
             g in w.disk.dirs ==> g in n.disk.dirs && n.disk.dirs[g] == w.disk.dirs[g]
    ensures BehindOk(h, n)
  {
    hide Represents, Admissible;
    if w.behind.Some? {
      var b := w.behind.value;
      AdmissibleAccepted(w.store, b.catalog, b.offsets);
      RepresentsElsewhere(h, w.disk, n.disk, w.disk.synced, w.store, b.catalog, b.offsets, NOTHING);
    }
  }

  lemma BeginKeeps(h: Digests, w: World, g: nat, catalogAnchor: Catalog.Anchor, offsetsAnchor: Catalog.Anchor)
    requires Inv(h, w) && DoBegin(w, g, catalogAnchor, offsetsAnchor).Some?
    ensures Inv(h, DoBegin(w, g, catalogAnchor, offsetsAnchor).value)
  {
    hide Accepted, Represents, FoldOf, WithinOperatingLimits, CC.Encode, OC.Encode, CC.Entries, OC.Entries, BehindOk;
    var n := DoBegin(w, g, catalogAnchor, offsetsAnchor).value;
    ManifestGeneration(h, w.disk, w.disk.active, w.store, w.catalog, w.offsets, w.left);
    SyncedGeneration(h, w);
    RepresentsElsewhere(h, w.disk, n.disk, w.disk.active, w.store, w.catalog, w.offsets, w.left);
    BehindElsewhere(h, w, n);
  }

  lemma SyncedGeneration(h: Digests, w: World)
    requires Inv(h, w)
    ensures GenerationOf(w.disk.synced) != 0 ==> GenerationOf(w.disk.synced) in w.disk.dirs
  {
    hide Represents, Accepted, FoldOf, WithinOperatingLimits, OpenOk;
    if w.behind.Some? {
      var b := w.behind.value;
      ManifestGeneration(h, w.disk, w.disk.synced, w.store, b.catalog, b.offsets, NOTHING);
    } else {
      ManifestGeneration(h, w.disk, w.disk.active, w.store, w.catalog, w.offsets, w.left);
    }
  }

  /** The finished directory holds the acknowledged histories, all of them in
      its checkpoints. */
  lemma BuiltDirHolds(h: Digests, w: World, p: Phase)
    requires Inv(h, w) && w.open && w.phase.Building? && w.phase.stage == 5
    requires p == w.phase.(stage := 6) && Encodable(w) && ValidManifest(NewManifest(h, w, p))
    ensures DirHolds(h, NewManifest(h, w, p), w.disk.dirs[p.generation], w.store, w.catalog, w.offsets, w.left)
  {
    hide CC.Encode, OC.Encode, CC.Entries, OC.Entries, Catalog.ReplayFrom, O.ReplayFrom, Represents,
         OC.CountsOk, CatalogHistory.Valid, OH.Valid, BehindOk;
    var c, o := w.catalog, w.offsets;
    AcceptedValid(w.store, c, o);
    assert c[..|c|] == c && o[..|o|] == o;
    assert w.sys == FoldOf(w.store, c, o);
    assert Checkpointed(w.store, c, o);
  }

  lemma AdvanceKeeps(h: Digests, w: World)
    requires Inv(h, w) && DoAdvance(h, w).Some?
    ensures Inv(h, DoAdvance(h, w).value)
  {
    hide Accepted, FoldOf, WithinOperatingLimits, CC.Encode, OC.Encode, CC.Entries, OC.Entries, DirHolds;
    var n := DoAdvance(h, w).value;
    ManifestGeneration(h, w.disk, w.disk.active, w.store, w.catalog, w.offsets, w.left);
    RepresentsElsewhere(h, w.disk, n.disk, w.disk.active, w.store, w.catalog, w.offsets, w.left);
    if w.phase.stage == 5 {
      BuiltDirHolds(h, w, n.phase);
    }
  }

  /** No cleanup step touches the authority in use. */
  lemma RemoveKeeps(h: Digests, w: World, victim: Victim, file: File)
    requires Inv(h, w) && Do(h, w, Remove(victim, file)).Some?
    ensures Inv(h, Do(h, w, Remove(victim, file)).value)
  {
    hide Accepted, Represents, FoldOf, WithinOperatingLimits, BuildOk;
    var n := Do(h, w, Remove(victim, file)).value;
    ManifestGeneration(h, w.disk, w.disk.active, w.store, w.catalog, w.offsets, w.left);
    RepresentsElsewhere(h, w.disk, n.disk, w.disk.active, w.store, w.catalog, w.offsets, w.left);
  }

  lemma PowerLossKeeps(h: Digests, w: World, keepRename: bool, debris: Dir)
    requires Inv(h, w)
    ensures Inv(h, DoPowerLoss(w, keepRename, debris))
    ensures FallsBack(w, keepRename) ==> DoPowerLoss(w, keepRename, debris).left == NOTHING
  {
    hide Accepted, Represents, FoldOf, WithinOperatingLimits, Encodable, NewManifest, BuiltDir;
    var n := DoPowerLoss(w, keepRename, debris);
    ManifestGeneration(h, w.disk, w.disk.active, w.store, w.catalog, w.offsets, w.left);
    RepresentsElsewhere(h, w.disk, n.disk, w.disk.active, w.store, w.catalog, w.offsets, w.left);
    if w.behind.Some? {
      var b := w.behind.value;
      ManifestGeneration(h, w.disk, w.disk.synced, w.store, b.catalog, b.offsets, NOTHING);
      RepresentsElsewhere(h, w.disk, n.disk, w.disk.synced, w.store, b.catalog, b.offsets, NOTHING);
    }
  }

  lemma OpenKeeps(h: Digests, w: World)
    requires Inv(h, w) && Do(h, w, Open).Some?
    ensures Inv(h, Do(h, w, Open).value)
  {
    hide Accepted, Represents, FoldOf, WithinOperatingLimits, BuildOk, Bootstrap, Repaired, BehindOk;
    Boots(h, w.disk, w.store, w.catalog, w.offsets, w.left);
    RepairedHolds(h, w.disk, w.store, w.catalog, w.offsets, w.left);
    BehindKept(h, w, [], 0, [], 0);
    BehindSame(h, w, Do(h, w, Open).value);
  }

  lemma PublishKeeps(h: Digests, w: World)
    requires Inv(h, w) && Do(h, w, Publish).Some?
    ensures Inv(h, Do(h, w, Publish).value)
  {
    hide Accepted, Represents, FoldOf, WithinOperatingLimits, BuiltDir, CC.Encode, OC.Encode, NewCatalogFile,
         NewOffsetsFile;
    assert GenerationOf(w.disk.active) == w.phase.generation;
    RepresentsElsewhere(h, w.disk, w.disk.(synced := w.disk.active), w.disk.active, w.store, w.catalog, w.offsets,
                        w.left);
  }

  lemma StepKeeps(h: Digests, w: World, step: Step)
    requires Inv(h, w) && Do(h, w, step).Some?
    ensures Inv(h, Do(h, w, step).value)
  {
    hide Accepted, Represents, FoldOf, WithinOperatingLimits, Encodable, BuiltDir, NewManifest, Bootstrap,
         DoAppendCatalog, DoAppendOffsets, DoBegin, DoAdvance;
    match step
    case AppendCatalog(e, outcome) => AppendCatalogKeeps(h, w, e, outcome);
    case AppendOffsets(e, outcome) => AppendOffsetsKeeps(h, w, e, outcome);
    case Begin(g, catalogAnchor, offsetsAnchor) => BeginKeeps(h, w, g, catalogAnchor, offsetsAnchor);
    case Advance => AdvanceKeeps(h, w);
    case Publish => PublishKeeps(h, w);
    case Abort =>
    case FailPublish =>
    case Remove(victim, file) => RemoveKeeps(h, w, victim, file);
    case FinishCleanup =>
    case Exit =>
    case PowerLoss(keepRename, debris) => PowerLossKeeps(h, w, keepRename, debris);
    case Open => OpenKeeps(h, w);
  }

  lemma {:induction false} RunKeeps(h: Digests, w: World, steps: seq<Step>, final: World)
    requires Inv(h, w) && Runs(h, w, steps, final)
    ensures Inv(h, final)
    decreases steps
  {
    hide Inv, Do;
    if steps != [] {
      StepKeeps(h, w, steps[0]);
      RunKeeps(h, Do(h, w, steps[0]).value, steps[1..], final);
    }
  }

  // ---------------------------------------------------------------- theorems

  /** A store that has just been created: its logs in place, nothing compacted. */
  function NewStore(init: Catalog.StoreInit): World {
    var events := [Catalog.StoreInitialized(init)];
    var legacy := Dir(None, None, Some(Log(0, init.catalogInitial, events, 0)),
                      Some(Log(0, init.offsetsInitial, [], 0)), None);
    World(Disk(None, None, legacy, map[]), false, OH.System(Catalog.EMPTY, O.Fresh(0)), 0, false, false, Idle,
          init.store, events, [], NOTHING, events, [], None)
  }

  lemma NewStoreOk(h: Digests, init: Catalog.StoreInit)
    requires Catalog.ValidInit(init)
    ensures Inv(h, NewStore(init))
  {
    var w := NewStore(init);
    var e := Catalog.StoreInitialized(init);
    assert w.catalog[1..] == [];
    assert Catalog.ReplayFrom(Catalog.EMPTY, 0, w.catalog) == Catalog.Transition(Catalog.EMPTY, 0, e);
  }

  /** Which steps break system logs that could be opened: a failed append that leaves
      part of a batch header, and an explicit start without keys. Opening is the only
      step that clears what is left, and it needs logs that can be opened; a power
      loss that puts the previous manifest back leaves them behind. */
  lemma BrokenExactly(h: Digests, w: World, step: Step)
    requires Inv(h, w) && Do(h, w, step).Some?
    ensures Bootable(Do(h, w, step).value.left) <==>
            Reverts(w, step) || (Bootable(w.left) && !LeavesShortTail(step) && !LeavesRefused(w, step))
  {
    hide Accepted, Represents, FoldOf, WithinOperatingLimits, Encodable, BuiltDir, NewManifest, Bootstrap,
         EmptyStart, OH.LiveStep, CatalogHistory.Valid, OH.Valid, BuildOk, ValidManifest;
    match step
    case AppendOffsets(e, outcome) =>
      FoldShape(w.store, w.ackedCatalog, w.ackedOffsets);
      if EmptyStart(w.sys, e) { EmptyStartIs(w.sys, e); }
    case Open => Boots(h, w.disk, w.store, w.catalog, w.offsets, w.left);
    case _ =>
  }

  lemma {:induction false} UnbrokenExactly(h: Digests, w: World, steps: seq<Step>, final: World)
    requires Inv(h, w) && Runs(h, w, steps, final)
    ensures Bootable(final.left) <==> Unbroken(h, w, Bootable(w.left), steps)
    decreases steps
  {
    hide Inv, Do, Bootable, LeavesShortTail, LeavesRefused, Reverts;
    if steps != [] {
      BrokenExactly(h, w, steps[0]);
      StepKeeps(h, w, steps[0]);
      UnbrokenExactly(h, Do(h, w, steps[0]).value, steps[1..], final);
    }
  }

  /** Crash anywhere: in every run from a new store, after every step, whichever
      way an unsynced rename falls, restart finds a complete authority, and the
      projections are the fold of the records that authority holds: all acknowledged
      ones plus at most the one record per log whose append had an unknown outcome,
      or, when the previous manifest comes back, those acknowledged before the rename.
      The system logs are refused exactly when some step of the run left part of a
      batch header, or appended an explicit start without keys. */
  lemma {:induction false} CrashAnywhere(h: Digests, init: Catalog.StoreInit, steps: seq<Step>, w: World,
                                         keepRename: bool, debris: Dir)
    requires Catalog.ValidInit(init) && Runs(h, NewStore(init), steps, w)
    ensures w.ackedCatalog <= w.catalog && |w.catalog| <= |w.ackedCatalog| + 1
    ensures w.ackedOffsets <= w.offsets && |w.offsets| <= |w.ackedOffsets| + 1
    ensures var b := Surviving(w, keepRename);
            var found := Bootstrap(h, AfterCrash(w, keepRename, debris));
            && Accepted(w.store, b.catalog, b.offsets)
            && (found.Some? <==> FallsBack(w, keepRename) || Unbroken(h, NewStore(init), true, steps))
            && (found.Some? ==> found.value.sys == FoldOf(w.store, b.catalog, b.offsets))
  {
    hide Accepted, Represents, FoldOf, Bootstrap, Runs, OpenOk, Bootable, Unbroken, Startless;
    NewStoreOk(h, init);
    RunKeeps(h, NewStore(init), steps, w);
    UnbrokenExactly(h, NewStore(init), steps, w);
    NothingBootable();
    PowerLossKeeps(h, w, keepRename, debris);
    var n := DoPowerLoss(w, keepRename, debris);
    Boots(h, n.disk, n.store, n.catalog, n.offsets, n.left);
  }

  lemma NothingBootable()
    ensures Bootable(NOTHING)
  {
  }

  /** Broken system logs never open again, unless a power loss can still put the
      previous manifest back. */
  lemma {:induction false} BrokenForGood(h: Digests, w: World, steps: seq<Step>, final: World)
    requires Inv(h, w) && !Bootable(w.left) && !w.open && w.behind.None? && Runs(h, w, steps, final)
    ensures !final.open && !Bootable(final.left)
    decreases steps
  {
    hide Inv, Do, Bootable;
    if steps != [] {
      StepKeeps(h, w, steps[0]);
      BrokenStep(h, w, steps[0]);
      BrokenForGood(h, Do(h, w, steps[0]).value, steps[1..], final);
    }
  }

  lemma BrokenStep(h: Digests, w: World, step: Step)
    requires Inv(h, w) && !Bootable(w.left) && !w.open && w.behind.None? && Do(h, w, step).Some?
    ensures var n := Do(h, w, step).value; !Bootable(n.left) && !n.open && n.behind.None?
  {
    hide Accepted, Represents, FoldOf, Bootstrap, Startless, OpenOk, DoAppendCatalog, DoAppendOffsets, DoBegin,
         DoAdvance, Bootable, BehindOk;
    Boots(h, w.disk, w.store, w.catalog, w.offsets, w.left);
    ClosedStep(h, w, step);
  }

  lemma ClosedStep(h: Digests, w: World, step: Step)
    requires !w.open && Do(h, w, step).Some?
    ensures step.Open? <==> Do(h, w, step).value.open
    ensures !step.Open? ==> step.Exit? || step.PowerLoss?
  {
    hide Bootstrap, WithinOperatingLimits, Encodable, EmptyStart, OH.LiveStep;
  }

  /** The live state of an open store is the fold of the acknowledged records. */
  lemma {:induction false} LiveIsFold(h: Digests, init: Catalog.StoreInit, steps: seq<Step>, w: World)
    requires Catalog.ValidInit(init) && Runs(h, NewStore(init), steps, w) && w.open
    ensures Accepted(w.store, w.ackedCatalog, w.ackedOffsets)
    ensures w.sys == FoldOf(w.store, w.ackedCatalog, w.ackedOffsets)
  {
    hide Accepted, Represents, FoldOf, Runs, BuildOk;
    NewStoreOk(h, init);
    RunKeeps(h, NewStore(init), steps, w);
  }

  // --------------------------------------------------------- unsettled renames

  /** A failed sync of the active manifest, or a process that ends between the rename
      and the sync, leaves the store unsettled, with nothing to lose yet. */
  lemma Unsettles(h: Digests, w: World, step: Step)
    requires Inv(h, w) && w.open && w.phase.Building? && w.phase.stage == 6
    requires (step.FailPublish? || step.Exit?) && Do(h, w, step).Some?
    ensures var n := Do(h, w, step).value;
            n.disk.active != n.disk.synced && n.behind == Some(Behind(n.ackedCatalog, n.ackedOffsets))
  {
    hide Accepted, Represents, FoldOf, WithinOperatingLimits, BuiltDir, CC.Encode, OC.Encode, NewCatalogFile,
         NewOffsetsFile;
  }

  /** In every run, whether or not the store was reopened on an unsettled rename, the
      active manifest selects all the acknowledged records and the synced one a prefix
      of them. They are the same records exactly when the manifests agree or nothing
      was acknowledged since the rename. */
  lemma {:induction false} SettledExactly(h: Digests, init: Catalog.StoreInit, steps: seq<Step>, w: World, debris: Dir)
    requires Catalog.ValidInit(init) && Runs(h, NewStore(init), steps, w)
    ensures var b := Surviving(w, false);
            && b.catalog <= w.catalog && b.offsets <= w.offsets
            && (w.ackedCatalog <= b.catalog && w.ackedOffsets <= b.offsets <==>
                  w.disk.active == w.disk.synced || b == Behind(w.ackedCatalog, w.ackedOffsets))
            && (w.disk.active != w.disk.synced ==>
                  && Bootstrap(h, AfterCrash(w, false, debris)).Some?
                  && var found := Bootstrap(h, AfterCrash(w, false, debris)).value.sys;
                     found.cat.revision == |b.catalog| && found.offs.revision == |b.offsets|)
  {
    hide Accepted, Represents, FoldOf, Bootstrap, Runs, OpenOk, Bootable, Unbroken, Startless, WithinOperatingLimits;
    NewStoreOk(h, init);
    RunKeeps(h, NewStore(init), steps, w);
    if w.behind.Some? {
      CrashAnywhere(h, init, steps, w, false, debris);
      var b := w.behind.value;
      FoldShape(w.store, b.catalog, b.offsets);
    }
  }

  /** An acknowledged record is lost by exactly one kind of step: a power loss that
      puts the previous manifest back after more was acknowledged. */
  lemma LostExactly(h: Digests, w: World, step: Step)
    requires Inv(h, w) && Do(h, w, step).Some?
    ensures var n := Do(h, w, step).value;
            w.ackedCatalog <= n.ackedCatalog && w.ackedOffsets <= n.ackedOffsets <==> !LosesRecord(w, step)
  {
    hide Accepted, Represents, FoldOf, WithinOperatingLimits, Encodable, BuiltDir, NewManifest, Bootstrap,
         EmptyStart, OH.LiveStep, BuildOk, ValidManifest, RemoveFrom, Repaired;
  }

  const MAX_GENERATION_PROBE: nat := 1024

  /** nextMetadataGeneration: the least unused number above the current one, unless
      too many are used or the counter is exhausted. */
  method FindGeneration(used: set<nat>, current: u64) returns (g: Option<u64>)
    ensures g.Some? ==> NextGeneration(used, current, g.value) && g.value <= current + MAX_GENERATION_PROBE
    ensures g.None? ==> forall k | current < k <= current + MAX_GENERATION_PROBE && k <= MAX_U64 :: k in used
  {
    if current == MAX_U64 { return None; }
    var candidate: u64 := current + 1;
    for attempt := 0 to MAX_GENERATION_PROBE
      invariant candidate == current + 1 + attempt
      invariant forall k | current < k < candidate :: k in used
    {
      if candidate !in used { return Some(candidate); }
      if candidate == MAX_U64 { return None; }
      candidate := candidate + 1;
    }
    return None;
  }
}
