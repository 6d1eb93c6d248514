/** System-log compaction as a crash-prone protocol: a new generation is built
    beside the authority in use, the active manifest is renamed over, and the
    superseded files are removed, with record appends and crashes in between. */
module Compaction {
  import opened Base
  import opened Restart
  import Batches
  import Catalog
  import CC = CatalogCheckpoint
  import GB = GroupBodies
  import O = Offsets
  import OC = OffsetsCheckpoint
  import OH = OffsetsHistory

  // -------------------------------------------------------------------- disk

  /** A system log: its records, and the number of bytes that a failed append left
      of one more batch. */
  datatype Log<E> = Log(base: nat, anchor: Catalog.Anchor, events: seq<E>, torn: nat)

  /** What opening a partition makes of the first `kept` bytes of a batch: a whole
      batch is a record like any other, a part is cut off, and a part too short to
      hold a batch header is refused. */
  datatype Tail = Whole | Cut | Refused

  function TailOf(kept: nat, length: nat): Tail {
    if kept == length then Whole else if Legible(kept) then Cut else Refused
  }

  predicate Legible(torn: nat) { !(0 < torn < Batches.BATCH_HEADER_BYTES) }

  datatype CatalogFile = CatalogFile(generation: nat, store: Id, next: u64, entries: nat, payload: CC.Payload)
  datatype OffsetsFile = OffsetsFile(generation: nat, store: Id, next: u64, entries: nat, payload: OC.Payload)

  datatype Manifest = Manifest(generation: nat, store: Id, catalogNext: u64, offsetsNext: u64,
                               catalogDigest: Hash, offsetsDigest: Hash,
                               catalogAnchor: Catalog.Anchor, offsetsAnchor: Catalog.Anchor)

  /** The digest functions of checkpoint files; the results hold for any. */
  datatype Digests = Digests(catalog: CatalogFile -> Hash, offsets: OffsetsFile -> Hash)

  datatype Dir = Dir(catalogCheckpoint: Option<CatalogFile>, offsetsCheckpoint: Option<OffsetsFile>,
                     catalogLog: Option<Log<Catalog.Event>>, offsetsLog: Option<Log<O.Event>>,
                     manifest: Option<Manifest>)

  const EMPTY_DIR: Dir := Dir(None, None, None, None, None)

  /** `active` is the active manifest as a reader sees it; `synced` is what a
      power loss may put back while a rename has not been synced. */
  datatype Disk = Disk(active: Option<Manifest>, synced: Option<Manifest>, legacy: Dir, dirs: map<nat, Dir>)

  function GenerationOf(m: Option<Manifest>): nat {
    if m.Some? then m.value.generation else 0
  }

  predicate ValidManifest(m: Manifest) {
    && m.generation != 0 && m.store != 0 && m.catalogNext != 0
    && m.catalogDigest != 0 && m.offsetsDigest != 0
    && Catalog.ValidAnchor(m.catalogAnchor) && Catalog.ValidAnchor(m.offsetsAnchor)
  }

  // --------------------------------------------------------------- bootstrap

  datatype Opened = Opened(sys: OH.System, generation: nat)

  ghost function BootstrapLegacy(d: Dir): Option<Opened> {
    if d.catalogLog.None? || d.offsetsLog.None? || d.catalogLog.value.base != 0
        || d.offsetsLog.value.base != 0 then None
    else if !Legible(d.catalogLog.value.torn) || !Legible(d.offsetsLog.value.torn) then None
    else match Catalog.ReplayFrom(Catalog.EMPTY, 0, d.catalogLog.value.events)
      case None => None
      case Some(cat) =>
        if cat.init.None? || cat.init.value.catalogInitial != d.catalogLog.value.anchor
           || cat.init.value.offsetsInitial != d.offsetsLog.value.anchor
        then None
        else match O.ReplayFrom(O.Fresh(Catalog.StoreOf(cat)), 0, d.offsetsLog.value.events, cat)
          case None => None
          case Some(offs) => Some(Opened(OH.System(cat, offs), 0))
  }

  /** The files of a generation belong together and to the active manifest. */
  predicate Selected(h: Digests, m: Manifest, d: Dir) {
    && ValidManifest(m) && d.manifest == Some(m)
    && d.catalogCheckpoint.Some? && h.catalog(d.catalogCheckpoint.value) == m.catalogDigest
    && d.offsetsCheckpoint.Some? && h.offsets(d.offsetsCheckpoint.value) == m.offsetsDigest
    && d.catalogCheckpoint.value.generation == m.generation && d.catalogCheckpoint.value.store == m.store
    && d.catalogCheckpoint.value.next == m.catalogNext
    && d.offsetsCheckpoint.value.generation == m.generation && d.offsetsCheckpoint.value.store == m.store
    && d.offsetsCheckpoint.value.next == m.offsetsNext
    && d.catalogLog.Some? && d.catalogLog.value.base == m.catalogNext && d.catalogLog.value.anchor == m.catalogAnchor
    && d.offsetsLog.Some? && d.offsetsLog.value.base == m.offsetsNext && d.offsetsLog.value.anchor == m.offsetsAnchor
  }

  ghost predicate CanonicalCatalog(f: CatalogFile, store: Id) {
    match CC.Decode(f.payload, f.next, store)
    case None => false
    case Some(s) => s.init.Some? && CC.Encode(s) == Some(f.payload) && CC.Entries(f.payload) == f.entries
  }

  ghost predicate CanonicalOffsets(f: OffsetsFile, store: Id, cat: Catalog.State) {
    match OC.Decode(f.payload, f.next, store, cat)
    case None => false
    case Some(s) => OC.Encode(s) == Some(f.payload) && OC.Entries(f.payload) == f.entries
  }

  ghost function BootstrapGeneration(h: Digests, m: Manifest, d: Dir): Option<Opened> {
    if !Selected(h, m, d) || !CanonicalCatalog(d.catalogCheckpoint.value, m.store) then None
    else if !Legible(d.catalogLog.value.torn) || !Legible(d.offsetsLog.value.torn) then None
    else
      var c, o := d.catalogCheckpoint.value, d.offsetsCheckpoint.value;
      match Recover(c.payload, c.next, o.payload, o.next, m.store, d.catalogLog.value.events, d.offsetsLog.value.events)
      case None => None
      case Some(sys) => if CanonicalOffsets(o, m.store, sys.cat) then Some(Opened(sys, m.generation)) else None
  }

  ghost function Bootstrap(h: Digests, d: Disk): Option<Opened> {
    match d.active
    case None => BootstrapLegacy(d.legacy)
    case Some(m) => if m.generation in d.dirs then BootstrapGeneration(h, m, d.dirs[m.generation]) else None
  }

  // ------------------------------------------------------------------- world

  /** Where a compaction stands. A generation is built in stages: 0 directory,
      1 catalog checkpoint, 2 offsets checkpoint, 3 catalog log, 4 offsets log,
      5 generation manifest, 6 active manifest renamed but not yet synced. */
  datatype Phase =
    | Idle
    | Failed
    | Building(generation: nat, stage: nat, catalogAnchor: Catalog.Anchor, offsetsAnchor: Catalog.Anchor)
    | Cleaning(generation: nat, previous: nat)

  /** What failed appends left behind the durable histories: an offsets record that
      no replay accepts, and parts of batches. */
  datatype Leftover = Leftover(refused: Option<O.Event>, catalogTorn: nat, offsetsTorn: nat)

  const NOTHING: Leftover := Leftover(None, 0, 0)

  /** Whether the store can still be opened. */
  predicate Bootable(x: Leftover) { x.refused.None? && Legible(x.catalogTorn) && Legible(x.offsetsTorn) }

  /** The histories that the synced manifest still selects while the active one has
      been renamed but not synced. */
  datatype Behind = Behind(catalog: seq<Catalog.Event>, offsets: seq<O.Event>)

  /** `catalog` and `offsets` are the histories of the active authority; the
      acknowledged ones are their prefixes, shorter by at most the one record whose
      append ended with an unknown outcome. */
  datatype World = World(disk: Disk, open: bool, sys: OH.System, generation: nat,
                         catalogDown: bool, offsetsDown: bool, phase: Phase, store: Id,
                         catalog: seq<Catalog.Event>, offsets: seq<O.Event>, left: Leftover,
                         ackedCatalog: seq<Catalog.Event>, ackedOffsets: seq<O.Event>, behind: Option<Behind>)

  /** An append is acknowledged, or its write or sync fails and leaves the first
      `kept` bytes of its batch of `length` bytes. */
  datatype Outcome = Acknowledged | Unknown(kept: nat, length: nat)

  const MIN_BATCH: nat := 80

  predicate Possible(outcome: Outcome) {
    outcome.Unknown? ==> outcome.kept <= outcome.length && MIN_BATCH <= outcome.length
  }

  predicate Durable(outcome: Outcome) { outcome.Acknowledged? || TailOf(outcome.kept, outcome.length) == Whole }

  datatype Victim = Legacy | Generation(n: nat)
  datatype File = CatalogCheckpointFile | OffsetsCheckpointFile | CatalogLogFile | OffsetsLogFile | ManifestFile
      | Directory

  datatype Step =
    | AppendCatalog(catalog: Catalog.Event, outcome: Outcome)
    | AppendOffsets(offsets: O.Event, outcome: Outcome)
    | Begin(generation: nat, catalogAnchor: Catalog.Anchor, offsetsAnchor: Catalog.Anchor)
    | Advance
    | Publish
    | Abort
    | FailPublish
    | Remove(victim: Victim, file: File)
    | FinishCleanup
    | Exit
    | PowerLoss(keepRename: bool, debris: Dir)
    | Open

  /** The counts every caller of the append path enforces before it appends. */
  predicate WithinOperatingLimits(s: OH.System) {
    |s.cat.topics| <= Catalog.MAX_TOPIC_PARTITIONS && OC.CountsOk(s.offs)
  }

  /** More records at the end of a log, and then part of a batch. */
  function Changed<E>(l: Option<Log<E>>, more: seq<E>, torn: nat): Option<Log<E>> {
    if l.None? then None else Some(l.value.(events := l.value.events + more, torn := torn))
  }

  function WithDir(d: Disk, g: nat, dir: Dir): Disk {
    if g == 0 then d.(legacy := dir) else d.(dirs := d.dirs[g := dir])
  }

  function DirOf(d: Disk, g: nat): Dir {
    if g == 0 then d.legacy else if g in d.dirs then d.dirs[g] else EMPTY_DIR
  }

  function ChangeCatalog(d: Disk, g: nat, more: seq<Catalog.Event>, torn: nat): Disk {
    var dir := DirOf(d, g);
    WithDir(d, g, dir.(catalogLog := Changed(dir.catalogLog, more, torn)))
  }

  function ChangeOffsets(d: Disk, g: nat, more: seq<O.Event>, torn: nat): Disk {
    var dir := DirOf(d, g);
    WithDir(d, g, dir.(offsetsLog := Changed(dir.offsetsLog, more, torn)))
  }

  /** Opening the two logs cuts off their torn tails. */
  function Repaired(d: Disk, g: nat): Disk {
    ChangeOffsets(ChangeCatalog(d, g, [], 0), g, [], 0)
  }

  /** The one event its caller appends that replay refuses: a group that starts
      explicitly at no key. */
  ghost predicate EmptyStart(s: OH.System, e: O.Event) {
    && e.GroupCreated? && s.offs.revision < MAX_OFFSET
    && GB.CreationChecked(s.offs, s.cat, e.group, GB.EXPLICIT, map[])
    && e == GB.CreatedBody(s.offs.store, s.cat, e.group, GB.EXPLICIT, map[])
  }

  predicate Startless(e: O.Event) { e.GroupCreated? && e.startMode == GB.EXPLICIT && e.starts == [] }

  /** The first unused generation number after the current one. */
  predicate NextGeneration(used: set<nat>, current: nat, g: nat) {
    current < g && g !in used && forall k | current < k < g :: k in used
  }

  /** What the two cleanup passes after publishing `active` may remove: the
      superseded authority, the legacy logs once a generation was superseded,
      and every other generation directory. */
  predicate MayRemove(victim: Victim, active: nat, previous: nat) {
    match victim
    case Legacy => true
    case Generation(n) => n != 0 && (n == previous || n != active)
  }

  predicate IsEmpty(d: Dir) { d == EMPTY_DIR }

  function RemoveFile(d: Dir, f: File): Dir {
    match f
    case CatalogCheckpointFile => d.(catalogCheckpoint := None)
    case OffsetsCheckpointFile => d.(offsetsCheckpoint := None)
    case CatalogLogFile => d.(catalogLog := None)
    case OffsetsLogFile => d.(offsetsLog := None)
    case ManifestFile => d.(manifest := None)
    case Directory => d
  }

  function RemoveFrom(d: Disk, victim: Victim, f: File): Disk {
    match victim
    case Legacy => d.(legacy := RemoveFile(d.legacy, f))
    case Generation(n) =>
      if n !in d.dirs then d
      else if f == Directory then (if IsEmpty(d.dirs[n]) then d.(dirs := d.dirs - {n}) else d)
      else d.(dirs := d.dirs[n := RemoveFile(d.dirs[n], f)])
  }

  // ------------------------------------------------------- a new generation

  ghost function NewCatalogFile(w: World, g: nat): CatalogFile
    requires w.sys.cat.init.Some? && CC.Encode(w.sys.cat).Some?
  {
    var p := CC.Encode(w.sys.cat).value;
    CatalogFile(g, w.store, w.sys.cat.revision, CC.Entries(p), p)
  }

  ghost function NewOffsetsFile(w: World, g: nat): OffsetsFile
    requires OC.Encode(w.sys.offs).Some?
  {
    var p := OC.Encode(w.sys.offs).value;
    OffsetsFile(g, w.store, w.sys.offs.revision, OC.Entries(p), p)
  }

  ghost predicate Encodable(w: World) {
    w.sys.cat.init.Some? && CC.Encode(w.sys.cat).Some? && OC.Encode(w.sys.offs).Some?
  }

  ghost function NewManifest(h: Digests, w: World, p: Phase): Manifest
    requires Encodable(w) && p.Building?
  {
    Manifest(p.generation, w.store, w.sys.cat.revision, w.sys.offs.revision,
             h.catalog(NewCatalogFile(w, p.generation)), h.offsets(NewOffsetsFile(w, p.generation)),
             p.catalogAnchor, p.offsetsAnchor)
  }

  /** The directory under construction at each stage. */
  ghost function BuiltDir(h: Digests, w: World, p: Phase): Dir
    requires Encodable(w) && p.Building?
  {
    var g := p.generation;
    Dir(if p.stage >= 1 then Some(NewCatalogFile(w, g)) else None,
        if p.stage >= 2 then Some(NewOffsetsFile(w, g)) else None,
        if p.stage >= 3 then Some(Log(w.sys.cat.revision, p.catalogAnchor, [], 0)) else None,
        if p.stage >= 4 then Some(Log(w.sys.offs.revision, p.offsetsAnchor, [], 0)) else None,
        if p.stage >= 5 then Some(NewManifest(h, w, p)) else None)
  }

  // ------------------------------------------------------------------- steps

  ghost function DoAppendCatalog(w: World, e: Catalog.Event, outcome: Outcome): Option<World> {
    var next := OH.LiveStep(w.sys, OH.OnCatalog(e));
    if !w.open || w.catalogDown || !(w.phase.Idle? || w.phase.Cleaning?) || !Possible(outcome) then None
    else if next.None? || !WithinOperatingLimits(next.value) then None
    else if !Durable(outcome) then
      Some(w.(disk := ChangeCatalog(w.disk, w.generation, [], outcome.kept),
              left := w.left.(catalogTorn := outcome.kept), catalogDown := true))
    else
      var n := w.(disk := ChangeCatalog(w.disk, w.generation, [e], 0), catalog := w.catalog + [e]);
      if outcome.Unknown? then Some(n.(catalogDown := true))
      else Some(n.(sys := next.value, ackedCatalog := w.ackedCatalog + [e]))
  }

  /** Every appended offsets event is one its caller built: accepted, or an
      explicit start without keys, which is refused once it is durable. */
  ghost function DoAppendOffsets(w: World, e: O.Event, outcome: Outcome): Option<World> {
    var next := OH.LiveStep(w.sys, OH.OnOffsets(e));
    if !w.open || w.offsetsDown || !(w.phase.Idle? || w.phase.Cleaning?) || !Possible(outcome) then None
    else if !EmptyStart(w.sys, e) && (next.None? || !WithinOperatingLimits(next.value)) then None
    else if !Durable(outcome) then
      Some(w.(disk := ChangeOffsets(w.disk, w.generation, [], outcome.kept),
              left := w.left.(offsetsTorn := outcome.kept), offsetsDown := true))
    else if next.None? then
      Some(w.(disk := ChangeOffsets(w.disk, w.generation, [e], 0), left := w.left.(refused := Some(e)),
              offsetsDown := true))
    else
      var n := w.(disk := ChangeOffsets(w.disk, w.generation, [e], 0), offsets := w.offsets + [e]);
      if outcome.Unknown? then Some(n.(offsetsDown := true))
      else Some(n.(sys := next.value, ackedOffsets := w.ackedOffsets + [e]))
  }

  ghost function DoBegin(w: World, g: nat, catalogAnchor: Catalog.Anchor,
                         offsetsAnchor: Catalog.Anchor): Option<World> {
    if !w.open || w.catalogDown || w.offsetsDown || !w.phase.Idle? || !Encodable(w) then None
    else if !NextGeneration(w.disk.dirs.Keys, w.generation, g) then None
    else Some(w.(disk := w.disk.(dirs := w.disk.dirs[g := EMPTY_DIR]),
              phase := Building(g, 0, catalogAnchor, offsetsAnchor)))
  }

  /** One stage of the build. The first one syncs the metadata directory, which
      settles an earlier rename; the last one renames the active manifest. */
  ghost function DoAdvance(h: Digests, w: World): Option<World> {
    if !w.open || !w.phase.Building? || w.phase.stage >= 6 || !Encodable(w) then None
    else
      var next := w.phase.(stage := w.phase.stage + 1);
      if w.phase.stage < 5 then
        Some(w.(disk := w.disk.(synced := w.disk.active,
                                dirs := w.disk.dirs[next.generation := BuiltDir(h, w, next)]),
                phase := next, behind := None))
      else if !ValidManifest(NewManifest(h, w, next)) then None
      else Some(w.(disk := w.disk.(active := Some(NewManifest(h, w, next))), phase := next,
                   behind := Some(Behind(w.catalog, w.offsets))))
  }

  /** What a machine that loses power comes back to: an unsynced rename falls
      either way, and an unpublished directory may hold anything. */
  function AfterCrash(w: World, keepRename: bool, debris: Dir): Disk {
    var active := if keepRename then w.disk.active else w.disk.synced;
    var dirs := if w.phase.Building? && w.phase.stage < 5 then w.disk.dirs[w.phase.generation := debris]
        else w.disk.dirs;
    w.disk.(active := active, synced := active, dirs := dirs)
  }

  predicate FallsBack(w: World, keepRename: bool) { !keepRename && w.behind.Some? }

  /** The histories of the authority that a power loss leaves selected. */
  function Surviving(w: World, keepRename: bool): Behind {
    if FallsBack(w, keepRename) then w.behind.value else Behind(w.catalog, w.offsets)
  }

  function DoPowerLoss(w: World, keepRename: bool, debris: Dir): World {
    var n := w.(disk := AfterCrash(w, keepRename, debris), open := false, phase := Idle, behind := None);
    if !FallsBack(w, keepRename) then n
    else
      var b := w.behind.value;
      n.(catalog := b.catalog, offsets := b.offsets, left := NOTHING, ackedCatalog := b.catalog,
         ackedOffsets := b.offsets)
  }

  ghost function Do(h: Digests, w: World, step: Step): Option<World> {
    match step
    case AppendCatalog(e, outcome) => DoAppendCatalog(w, e, outcome)
    case AppendOffsets(e, outcome) => DoAppendOffsets(w, e, outcome)
    case Begin(g, catalogAnchor, offsetsAnchor) => DoBegin(w, g, catalogAnchor, offsetsAnchor)
    case Advance => DoAdvance(h, w)
    case Publish =>
      if !w.open || !w.phase.Building? || w.phase.stage != 6 then None
      else Some(w.(disk := w.disk.(synced := w.disk.active), generation := w.phase.generation,
                phase := Cleaning(w.phase.generation, w.generation), behind := None))
    case Abort =>
      if !w.open || !w.phase.Building? || w.phase.stage >= 6 then None else Some(w.(phase := Idle))
    case FailPublish =>
      if !w.open || !w.phase.Building? || w.phase.stage < 5 then None
      else Some(w.(phase := Failed, catalogDown := true, offsetsDown := true))
    case Remove(victim, file) =>
      if !w.open || !w.phase.Cleaning? || !MayRemove(victim, w.phase.generation, w.phase.previous) then None
      else Some(w.(disk := RemoveFrom(w.disk, victim, file)))
    case FinishCleanup =>
      if !w.open || !w.phase.Cleaning? then None else Some(w.(phase := Idle))
    case Exit => Some(w.(open := false, phase := Idle))
    case PowerLoss(keepRename, debris) => Some(DoPowerLoss(w, keepRename, debris))
    case Open =>
      if w.open then None
      else match Bootstrap(h, w.disk)
        case None => None
        case Some(found) =>
          Some(w.(disk := Repaired(w.disk, found.generation), left := NOTHING, open := true, sys := found.sys,
                  generation := found.generation, catalogDown := false, offsetsDown := false, phase := Idle,
                  ackedCatalog := w.catalog, ackedOffsets := w.offsets))
  }

  ghost predicate Runs(h: Digests, w: World, steps: seq<Step>, final: World)
    decreases steps
  {
    if steps == [] then w == final
    else Do(h, w, steps[0]).Some? && Runs(h, Do(h, w, steps[0]).value, steps[1..], final)
  }

  // ------------------------------------------------------------ broken stores

  predicate ShortTail(outcome: Outcome) { outcome.Unknown? && 0 < outcome.kept < Batches.BATCH_HEADER_BYTES }

  /** A failed append that leaves part of a batch header. */
  predicate LeavesShortTail(step: Step) {
    match step
    case AppendCatalog(_, outcome) => ShortTail(outcome)
    case AppendOffsets(_, outcome) => ShortTail(outcome)
    case _ => false
  }

  /** An explicit start without keys that reaches the log. */
  ghost predicate LeavesRefused(w: World, step: Step) {
    step.AppendOffsets? && EmptyStart(w.sys, step.offsets) && Durable(step.outcome)
  }

  predicate Reverts(w: World, step: Step) { step.PowerLoss? && FallsBack(w, step.keepRename) }

  /** No step of the run left behind what a restart refuses, or none since a power
      loss put the previous manifest back; `sound` says whether the start is so. */
  ghost predicate Unbroken(h: Digests, w: World, sound: bool, steps: seq<Step>)
    decreases steps
  {
    if steps == [] then sound
    else
      && Do(h, w, steps[0]).Some?
      && Unbroken(h, Do(h, w, steps[0]).value,
                  Reverts(w, steps[0]) || (sound && !LeavesShortTail(steps[0]) && !LeavesRefused(w, steps[0])),
                  steps[1..])
  }

  /** A power loss that takes an acknowledged record with it. */
  predicate LosesRecord(w: World, step: Step) {
    Reverts(w, step) && w.behind.value != Behind(w.ackedCatalog, w.ackedOffsets)
  }

  // -------------------------------------------------------------- invariants

  /** The authority a manifest selects holds exactly the two histories. */
  ghost predicate Represents(h: Digests, d: Disk, m: Option<Manifest>, store: Id,
                             c: seq<Catalog.Event>, o: seq<O.Event>, x: Leftover)
    requires Accepted(store, c, o)
  {
    match m
    case None => LegacyHolds(d.legacy, c, o, x)
    case Some(m) => m.generation in d.dirs && DirHolds(h, m, d.dirs[m.generation], store, c, o, x)
  }

  function Refuse(x: Leftover): seq<O.Event> { if x.refused.Some? then [x.refused.value] else [] }

  predicate LegacyHolds(d: Dir, c: seq<Catalog.Event>, o: seq<O.Event>, x: Leftover) {
    && c != [] && c[0].StoreInitialized?
    && d.catalogLog.Some? && d.catalogLog.value.base == 0 && d.catalogLog.value.anchor == c[0].init.catalogInitial
    && d.catalogLog.value.events == c && d.catalogLog.value.torn == x.catalogTorn
    && d.offsetsLog.Some? && d.offsetsLog.value.base == 0 && d.offsetsLog.value.anchor == c[0].init.offsetsInitial
    && d.offsetsLog.value.events == o + Refuse(x) && d.offsetsLog.value.torn == x.offsetsTorn
  }

  ghost predicate DirHolds(h: Digests, m: Manifest, d: Dir, store: Id, c: seq<Catalog.Event>, o: seq<O.Event>,
                           x: Leftover)
    requires Accepted(store, c, o)
  {
    && m.store == store && m.catalogNext <= |c| && m.offsetsNext <= |o|
    && Selected(h, m, d)
    && Checkpointed(store, c[..m.catalogNext], o[..m.offsetsNext])
    && d.catalogCheckpoint.value.payload == CC.Encode(CatalogOf(c[..m.catalogNext])).value
    && d.catalogCheckpoint.value.entries == CC.Entries(d.catalogCheckpoint.value.payload)
    && d.offsetsCheckpoint.value.payload == OC.Encode(OffsetsOf(store, c[..m.catalogNext], o[..m.offsetsNext])).value
    && d.offsetsCheckpoint.value.entries == OC.Entries(d.offsetsCheckpoint.value.payload)
    && d.catalogLog.value.events == c[m.catalogNext..] && d.catalogLog.value.torn == x.catalogTorn
    && d.offsetsLog.value.events == o[m.offsetsNext..] + Refuse(x) && d.offsetsLog.value.torn == x.offsetsTorn
  }

  ghost predicate BuildOk(h: Digests, w: World)
    requires w.phase.Building?
  {
    var p := w.phase;
    && p.stage <= 6 && p.generation != 0 && p.generation != w.generation && p.generation in w.disk.dirs
    && Encodable(w)
    && !w.catalogDown && !w.offsetsDown
    && w.disk.dirs[p.generation] == BuiltDir(h, w, p)
    && (if p.stage == 6 then
          && w.disk.active == Some(NewManifest(h, w, p)) && ValidManifest(NewManifest(h, w, p))
          && w.behind == Some(Behind(w.catalog, w.offsets))
        else
          && GenerationOf(w.disk.active) == w.generation && p.generation != GenerationOf(w.disk.synced)
          && (p.stage > 0 ==> w.behind.None?))
  }

  ghost predicate OpenOk(h: Digests, w: World)
    requires Accepted(w.store, w.catalog, w.offsets)
  {
    && Accepted(w.store, w.ackedCatalog, w.ackedOffsets)
    && w.sys == FoldOf(w.store, w.ackedCatalog, w.ackedOffsets)
    && WithinOperatingLimits(w.sys)
    && (!w.catalogDown ==> w.ackedCatalog == w.catalog && w.left.catalogTorn == 0)
    && (!w.offsetsDown ==> w.ackedOffsets == w.offsets && w.left.offsetsTorn == 0 && w.left.refused.None?)
    && (w.phase.Building? ==> BuildOk(h, w))
    && (w.phase.Idle? || w.phase.Cleaning? ==> GenerationOf(w.disk.active) == w.generation)
    && (w.phase.Cleaning? ==>
          w.behind.None? && w.phase.generation == w.generation != 0 && w.phase.previous != w.generation)
    && (w.phase.Failed? ==> w.catalogDown && w.offsetsDown)
  }

  ghost function FoldOf(store: Id, c: seq<Catalog.Event>, o: seq<O.Event>): OH.System
    requires Accepted(store, c, o)
  {
    OH.System(CatalogOf(c), OffsetsOf(store, c, o))
  }

  /** Histories that replay, to counts that every append keeps. */
  ghost predicate Admissible(store: Id, c: seq<Catalog.Event>, o: seq<O.Event>) {
    Accepted(store, c, o) && WithinOperatingLimits(FoldOf(store, c, o))
  }

  /** Either the manifests agree, or the synced one selects an older authority that
      holds a prefix of what was acknowledged since. */
  ghost predicate BehindOk(h: Digests, w: World) {
    match w.behind
    case None => w.disk.active == w.disk.synced
    case Some(b) =>
      && GenerationOf(w.disk.active) != GenerationOf(w.disk.synced)
      && b.catalog <= w.ackedCatalog && b.offsets <= w.ackedOffsets
      && Admissible(w.store, b.catalog, b.offsets)
      && Represents(h, w.disk, w.disk.synced, w.store, b.catalog, b.offsets, NOTHING)
  }

  ghost predicate Inv(h: Digests, w: World) {
    && Admissible(w.store, w.catalog, w.offsets)
    && w.ackedCatalog <= w.catalog && |w.catalog| <= |w.ackedCatalog| + 1
    && w.ackedOffsets <= w.offsets && |w.offsets| <= |w.ackedOffsets| + 1
    && Represents(h, w.disk, w.disk.active, w.store, w.catalog, w.offsets, w.left)
    && BehindOk(h, w)
    && (w.left.refused.Some? ==> Startless(w.left.refused.value))
    && (w.open ==> OpenOk(h, w))
    && (!w.open ==> w.phase.Idle?)
  }
}
