/** The whole store: the system logs with their compaction, and below the topics
    directory every partition that was ever created, written, retired or left half
    prepared. */
module Storage {
  import opened Base
  import opened Codec
  import opened Batches
  import opened Segments
  import opened PartitionLog
  import opened SegmentPieces
  import opened Preflight
  import opened PreflightSafety
  import Catalog
  import C = Compaction
  import CS = CompactionSafety
  import E = PartitionEngine
  import R = Retention

  /** The digests of checkpoint files and of segment headers; the results hold for any. */
  datatype Env = Env(digests: C.Digests, hasher: Hasher)

  // -------------------------------------------------------------------- disk

  /** A partition: all the segments ever written to it, the first one in use, those
      whose files were removed, and what a failed append left. A partition that is
      down takes no appends until it is opened again. */
  datatype Part = Part(c: E.Config, all: seq<Seg>, start: nat, gone: set<nat>, debris: Debris, down: bool)

  /** What the append engine holds of it. */
  function StateOf(p: Part): E.State
    requires p.start < |p.all|
  {
    var log := p.all[p.start..];
    E.State(Views(p.c.f, log), EndOf(Last(log)), p.down, Directory(p.c.f, log, p.debris), log, p.debris,
            E.Flatten(p.all[..p.start]))
  }

  /** The partition after the engine's state has become `s`. */
  function Absorb(p: Part, s: E.State): Part
    requires p.start <= |p.all|
  {
    p.(all := p.all[..p.start] + s.log, debris := s.debris, down := s.unavailable)
  }

  /** A topic's directory: its preparation marker and its partitions. */
  datatype Shelf = Shelf(marker: Option<Bytes>, parts: map<u32, Part>)

  function FilesIn(p: Part): seq<File> { if p.all == [] then [] else OnDisk(p.c.f, p.all, p.gone, p.debris) }

  function DirOf(s: Shelf): TopicDir { TopicDir(s.marker, map i | i in s.parts :: FilesIn(s.parts[i])) }

  function Dirs(shelves: map<Id, Shelf>): map<Id, TopicDir> { map id | id in shelves :: DirOf(shelves[id]) }

  /** `busy` is the topic that is being created, which one request does at a time. */
  datatype World = World(sys: C.World, shelves: map<Id, Shelf>, busy: Option<Id>)

  function New(init: Catalog.StoreInit): World { World(CS.NewStore(init), map[], None) }

  /** Opening a store: the system logs, then the check of all topic storage. */
  ghost function Boot(env: Env, disk: C.Disk, shelves: map<Id, Shelf>): Option<C.Opened> {
    match C.Bootstrap(env.digests, disk)
    case None => None
    case Some(found) => if StorageAccepted(env.hasher, found.sys.cat, Dirs(shelves)) then Some(found) else None
  }

  // -------------------------------------------------------------------- steps

  /** `Prepare` makes the directory of a new topic and writes that many bytes of its
      marker, or stops before the marker. `Direct` opens a partition of no catalog
      topic. `Use` appends to a partition, rolls it or opens it again. `Discard`
      removes the file of a retired segment. */
  datatype Step =
    | System(step: C.Step)
    | Prepare(topic: Id, written: Option<nat>)
    | AddPartition(id: Id, options: E.Options)
    | CreateTopic(name: Bytes, config: Catalog.Config, outcome: C.Outcome)
    | Abandon
    | Direct(key: TopicKey, options: E.Options, base: u64, id: Id)
    | Use(key: TopicKey, op: E.Op)
    | Retain(key: TopicKey, n: nat, reason: Catalog.Mask, outcome: C.Outcome)
    | Discard(key: TopicKey, j: nat)

  predicate HasPart(w: World, key: TopicKey) {
    key.topic in w.shelves && key.partition in w.shelves[key.topic].parts
  }

  function PartAt(w: World, key: TopicKey): Part
    requires HasPart(w, key)
  {
    w.shelves[key.topic].parts[key.partition]
  }

  function Put(w: World, key: TopicKey, p: Part): World {
    var shelf := if key.topic in w.shelves then w.shelves[key.topic] else Shelf(None, map[]);
    w.(shelves := w.shelves[key.topic := shelf.(parts := shelf.parts[key.partition := p])])
  }

  predicate InCatalog(cat: Catalog.State, key: TopicKey) {
    key.topic in cat.topics && key.partition < |cat.topics[key.topic].partitions|
  }

  function RetainedStart(cat: Catalog.State, key: TopicKey): u64
    requires InCatalog(cat, key)
  {
    cat.topics[key.topic].partitions[key.partition].retainedL
  }

  predicate UserTopic(topic: Id) {
    topic != 0 && topic != Catalog.CLUSTER_METADATA_TOPIC && topic != Catalog.CONSUMER_OFFSETS_TOPIC
  }

  /** A partition with its first, empty segment. */
  function FreshPart(f: Format, key: TopicKey, options: E.Options, base: u64, id: Id): Part {
    Part(E.Config(f, key.topic, key.partition, options, base),
         [Seg(SegmentHeader(key.topic, key.partition, base, id), [])], 0, {}, Clean, false)
  }

  function Marked(topic: Id, written: Option<nat>): Option<Bytes> {
    match written
    case None => None
    case Some(n) => Some(MarkerOf(topic)[..Min(n, MARKER_BYTES)])
  }

  /** prepareTopicStorage, to the end or as far as it got. */
  function DoPrepare(w: World, topic: Id, written: Option<nat>): Option<World> {
    if !w.sys.open || w.sys.catalogDown || w.busy.Some? || !UserTopic(topic) || topic in w.shelves then None
    else Some(w.(shelves := w.shelves[topic := Shelf(Marked(topic, written), map[])],
                 busy := if written.Some? && written.value >= MARKER_BYTES then Some(topic) else None))
  }

  function DoAddPartition(env: Env, w: World, id: Id, options: E.Options): Option<World> {
    if w.busy.None? || w.busy.value !in w.shelves || id == 0 then None
    else
      var i := |w.shelves[w.busy.value].parts|;
      if i >= Catalog.MAX_TOPIC_PARTITIONS then None
      else
        var key := TopicKey(w.busy.value, i);
        Some(Put(w, key, FreshPart(env.hasher.f, key, options, 0, id)))
  }

  predicate Configured(p: Part, config: Catalog.Config) {
    p.c.options.segmentBytes == config.segmentBytes && p.c.options.batchBytes == config.batchBytes
  }

  predicate Prepared(s: Shelf, config: Catalog.Config) {
    && 0 < |s.parts| <= Catalog.MAX_TOPIC_PARTITIONS
    && forall i: u32 | i < |s.parts| :: i in s.parts && s.parts[i].all != [] && Configured(s.parts[i], config)
  }

  function CreatedParts(h: Hasher, s: Shelf, config: Catalog.Config): seq<Catalog.CreatedPartition>
    requires Prepared(s, config)
  {
    seq(|s.parts|, i requires 0 <= i < |s.parts| =>
      Catalog.CreatedPartition(i, config, AnchorOf(h, s.parts[i].all[0].header)))
  }

  predicate Creatable(w: World, config: Catalog.Config) {
    w.busy.Some? && w.busy.value in w.shelves && Prepared(w.shelves[w.busy.value], config)
  }

  function CreatedEvent(h: Hasher, w: World, name: Bytes, config: Catalog.Config): Catalog.Event
    requires Creatable(w, config)
  {
    var cat, id := w.sys.sys.cat, w.busy.value;
    Catalog.TopicCreated(Catalog.StoreOf(cat), cat.revision, id, name, CreatedParts(h, w.shelves[id], config))
  }

  /** createTopic's event, once the storage is prepared. */
  ghost function DoCreateTopic(env: Env, w: World, name: Bytes, config: Catalog.Config, outcome: C.Outcome)
    : Option<World>
  {
    if !Creatable(w, config) then None
    else match C.Do(env.digests, w.sys, C.AppendCatalog(CreatedEvent(env.hasher, w, name, config), outcome))
      case None => None
      case Some(sys) => Some(w.(sys := sys, busy := None))
  }

  /** OpenPartition on a topic that the catalog does not know. */
  function DoDirect(env: Env, w: World, key: TopicKey, options: E.Options, base: u64, id: Id): Option<World> {
    if !w.sys.open || w.sys.catalogDown || w.busy == Some(key.topic) || !UserTopic(key.topic) || !ValidKey(key)
        || key.topic in w.sys.sys.cat.topics || HasPart(w, key) || base > MAX_OFFSET || id == 0 then None
    else Some(Put(w, key, FreshPart(env.hasher.f, key, options, base, id)))
  }

  /** What an operation of the engine looks at. */
  predicate Ready(s: E.State) {
    && s.files != [] && s.segments != [] && s.log != [] && s.logEnd <= MAX_OFFSET && |s.log| <= |s.files|
    && |s.segments| == |s.log|
  }

  /** Exactly the retired files are gone, so that the others can be opened. */
  predicate Cleaned(p: Part) { p.gone == Below(p.start) }

  function Below(k: nat): (s: set<nat>)
    ensures forall j: nat :: j in s <==> j < k
  {
    if k == 0 then {} else Below(k - 1) + {k - 1}
  }

  function DoUse(w: World, key: TopicKey, op: E.Op): Option<World> {
    if !w.sys.open || !HasPart(w, key) || w.busy == Some(key.topic) || op.Retire? then None
    else
      var p := PartAt(w, key);
      if p.start >= |p.all| || !Ready(StateOf(p)) || (op.Reopen? && !Cleaned(p)) then None
      else Some(Put(w, key, Absorb(p, E.Perform(p.c, StateOf(p), op))))
  }

  /** A partition whose first `n` segments can be retired. */
  predicate Retainable(w: World, key: TopicKey, n: nat) {
    && w.sys.open && InCatalog(w.sys.sys.cat, key) && HasPart(w, key)
    && var p := PartAt(w, key);
       && p.start < |p.all| && !p.down
       && var s := StateOf(p); 0 < n < |s.segments| && AllMeasured(s.segments) && s.logEnd <= MAX_OFFSET
  }

  /** The event that retires the first `n` segments. */
  function AdvanceEvent(h: Hasher, w: World, key: TopicKey, n: nat, reason: Catalog.Mask): Catalog.Event
    requires Retainable(w, key, n)
  {
    var cat, s := w.sys.sys.cat, StateOf(PartAt(w, key));
    Catalog.LogStartAdvanced(Catalog.StoreOf(cat), cat.revision, key, RetainedStart(cat, key), s.segments[n - 1].end,
                             s.logEnd, AnchorOf(h, s.segments[n].header), reason,
                             R.RetiredEvents(PiecesOf(h, s.segments[..n])))
  }

  function AfterRetain(p: Part, n: nat, outcome: C.Outcome): Part {
    if outcome.Acknowledged? then p.(start := p.start + n) else p.(down := true)
  }

  /** retainPartitionAt for any prefix of sealed segments, the planned one among them:
      acknowledged, the partition starts later; of unknown outcome, it stops. */
  ghost function DoRetain(env: Env, w: World, key: TopicKey, n: nat, reason: Catalog.Mask, outcome: C.Outcome)
    : Option<World>
  {
    if !Retainable(w, key, n) then None
    else match C.Do(env.digests, w.sys, C.AppendCatalog(AdvanceEvent(env.hasher, w, key, n, reason), outcome))
      case None => None
      case Some(sys) => Some(Put(w.(sys := sys), key, AfterRetain(PartAt(w, key), n, outcome)))
  }

  /** The catalog whose retired segments are being removed: the live one, or that of
      an open that got past the check of the storage. */
  ghost function CleaningCatalog(env: Env, w: World): Option<Catalog.State> {
    if w.sys.open then Some(w.sys.sys.cat)
    else match Catalog.ReplayFrom(Catalog.EMPTY, 0, w.sys.catalog)
      case None => None
      case Some(cat) => if StorageAccepted(env.hasher, cat, Dirs(w.shelves)) then Some(cat) else None
  }

  ghost function DoDiscard(env: Env, w: World, key: TopicKey, j: nat): Option<World> {
    match CleaningCatalog(env, w)
    case None => None
    case Some(cat) =>
      if !InCatalog(cat, key) || !HasPart(w, key) then None
      else
        var p := PartAt(w, key);
        if j + 1 >= |p.all| || p.all[j].header.base >= RetainedStart(cat, key) then None
        else Some(Put(w, key, p.(gone := p.gone + {j})))
  }

  /** How many segments start below an offset. */
  function IndexOf(all: seq<Seg>, start: u64): nat {
    if all == [] || all[0].header.base >= start then 0 else 1 + IndexOf(all[1..], start)
  }

  /** What opening the store leaves of a catalog partition: its retired files removed,
      and the rest not opened yet. */
  function PlacedPart(p: Part, start: u64): Part {
    var k := IndexOf(p.all, start);
    p.(start := k, gone := p.gone + Below(k), down := true)
  }

  function PlacedShelf(s: Shelf, t: Catalog.Topic): Shelf {
    s.(parts := map i | i in s.parts ::
         if i < |t.partitions| then PlacedPart(s.parts[i], t.partitions[i].retainedL) else s.parts[i])
  }

  function Placed(shelves: map<Id, Shelf>, cat: Catalog.State): map<Id, Shelf> {
    map id | id in shelves :: if id in cat.topics then PlacedShelf(shelves[id], cat.topics[id]) else shelves[id]
  }

  /** A step of the system logs; catalog records are appended by the other steps. */
  ghost function DoSystem(env: Env, w: World, step: C.Step): Option<World> {
    if step.AppendCatalog? then None
    else match C.Do(env.digests, w.sys, step)
      case None => None
      case Some(sys) =>
        if !step.Open? then Some(w.(sys := sys, busy := if sys.open then w.busy else None))
        else if !StorageAccepted(env.hasher, sys.sys.cat, Dirs(w.shelves)) then None
        else Some(World(sys, Placed(w.shelves, sys.sys.cat), None))
  }

  ghost function Do(env: Env, w: World, step: Step): Option<World> {
    match step
    case System(s) => DoSystem(env, w, s)
    case Prepare(topic, written) => DoPrepare(w, topic, written)
    case AddPartition(id, options) => DoAddPartition(env, w, id, options)
    case CreateTopic(name, config, outcome) => DoCreateTopic(env, w, name, config, outcome)
    case Abandon => Some(w.(busy := None))
    case Direct(key, options, base, id) => DoDirect(env, w, key, options, base, id)
    case Use(key, op) => DoUse(w, key, op)
    case Retain(key, n, reason, outcome) => DoRetain(env, w, key, n, reason, outcome)
    case Discard(key, j) => DoDiscard(env, w, key, j)
  }

  ghost predicate Runs(env: Env, w: World, steps: seq<Step>, final: World)
    decreases steps
  {
    if steps == [] then w == final
    else Do(env, w, steps[0]).Some? && Runs(env, Do(env, w, steps[0]).value, steps[1..], final)
  }

  // ------------------------------------------------------- what can be opened

  /** No retained segment was removed, and no tail is 1 to 47 bytes long. */
  predicate PartWhole(p: Part, start: u64) {
    Readable(p.debris) && forall j | j in p.gone && j < |p.all| :: p.all[j].header.base < start
  }

  /** A directory of no catalog topic: its marker is whole, or there is neither a
      marker nor a topic. */
  predicate ShelfWhole(id: Id, s: Shelf, owned: bool) {
    MarkerAccepted(s.marker, id) && (owned ==> s.marker.Some?)
  }

  predicate PartsWhole(cat: Catalog.State, shelves: map<Id, Shelf>) {
    forall id, i | id in cat.topics && id in shelves && 0 <= i < |cat.topics[id].partitions|
        && i in shelves[id].parts ::
      PartWhole(shelves[id].parts[i], cat.topics[id].partitions[i].retainedL)
  }

  predicate ShelvesWhole(cat: Catalog.State, shelves: map<Id, Shelf>) {
    forall id | id in shelves && id !in cat.topics :: ShelfWhole(id, shelves[id], cat.topics != map[])
  }

  predicate StorageWhole(cat: Catalog.State, shelves: map<Id, Shelf>) {
    PartsWhole(cat, shelves) && ShelvesWhole(cat, shelves)
  }

  ghost predicate HistoryWhole(c: seq<Catalog.Event>, shelves: map<Id, Shelf>) {
    match Catalog.ReplayFrom(Catalog.EMPTY, 0, c) case None => false case Some(cat) => StorageWhole(cat, shelves)
  }

  /** The store as it stands can be opened. */
  ghost predicate Whole(w: World) { C.Bootable(w.sys.left) && HistoryWhole(w.sys.catalog, w.shelves) }

  // ----------------------------------------------------------- what breaks it

  /** The history of the catalog has a topic. */
  ghost predicate Owned(w: World) {
    match Catalog.ReplayFrom(Catalog.EMPTY, 0, w.sys.catalog) case None => false case Some(cat) => cat.topics != map[]
  }

  ghost predicate Listed(c: seq<Catalog.Event>, id: Id) {
    match Catalog.ReplayFrom(Catalog.EMPTY, 0, c) case None => false case Some(cat) => id in cat.topics
  }

  /** An append that writes 1 to 47 bytes of its batch and fails. */
  predicate TearsHeader(p: Part, op: E.Op)
    requires p.start < |p.all| && Ready(StateOf(p))
  {
    && op.Append? && op.id != 0 && (op.fault.WriteFails? || op.fault.SyncFails?)
    && 0 < op.fault.kept < BATCH_HEADER_BYTES
    && (match EncodeBatch(p.c.f, op.batch)
        case None => false
        case Some(e) =>
          EncodedShape(p.c.f, op.batch);
          E.AppendStep(p.c, StateOf(p), op.batch, e, op.id, op.fault).1.Unknown?)
  }

  /** The steps after which a store that could be opened cannot be. */
  ghost predicate Breaks(w: World, step: Step) {
    match step
    case System(s) => C.LeavesShortTail(s) || C.LeavesRefused(w.sys, s)
    case Prepare(_, written) => if written.None? then Owned(w) else written.value < MARKER_BYTES
    case CreateTopic(_, _, outcome) =>
      || C.ShortTail(outcome)
      || (C.Durable(outcome) && !Owned(w) && exists id :: id in w.shelves && w.shelves[id].marker.None?)
    case Direct(key, _, _, _) => key.topic !in w.shelves && Owned(w)
    case Use(key, op) =>
      && Listed(w.sys.catalog, key.topic) && HasPart(w, key) && PartAt(w, key).start < |PartAt(w, key).all|
      && Ready(StateOf(PartAt(w, key))) && TearsHeader(PartAt(w, key), op)
    case Retain(_, _, _, outcome) => C.ShortTail(outcome)
    case _ => false
  }

  predicate Reverts(w: World, step: Step) { step.System? && C.Reverts(w.sys, step.step) }

  /** No step of the run broke the store, or none since a power loss put the previous
      manifest back over storage that its catalog still fits. */
  ghost predicate Intact(env: Env, w: World, sound: bool, steps: seq<Step>)
    decreases steps
  {
    if steps == [] then sound
    else
      && Do(env, w, steps[0]).Some?
      && Intact(env, Do(env, w, steps[0]).value,
                if Reverts(w, steps[0]) then HistoryWhole(w.sys.behind.value.catalog, w.shelves)
                else sound && !Breaks(w, steps[0]),
                steps[1..])
  }

  // -------------------------------------------------------------- invariants

  /** The partition as it would be had nothing been retired. */
  function Rooted(p: Part): E.State
    requires p.all != []
  {
    StateOf(p.(start := 0))
  }

  ghost predicate PartOk(p: Part) {
    p.start < |p.all| && (forall j | j in p.gone :: j + 1 < |p.all|) && E.Inv(p.c, Rooted(p))
  }

  ghost predicate PartsOk(shelves: map<Id, Shelf>) {
    forall id, i | id in shelves && i in shelves[id].parts :: PartOk(shelves[id].parts[i])
  }

  /** The catalog and the directory agree on where the partition starts and on what
      was retired before. */
  ghost predicate PartTied(h: Hasher, key: TopicKey, p: Catalog.Partition, retired: map<u64, Catalog.Retired>,
                           q: Part) {
    && q.c.f == h.f && q.c.topic == key.topic && q.c.partition == key.partition && Configured(q, p.config)
    && Bound(h, q.all, p, retired, IndexOf(q.all, p.retainedL))
  }

  ghost predicate TopicTied(h: Hasher, id: Id, t: Catalog.Topic, s: Shelf) {
    && s.marker == Some(MarkerOf(id))
    && (forall i | i in s.parts :: i < |t.partitions|)
    && (forall i | 0 <= i < |t.partitions| ::
          i in s.parts && PartTied(h, TopicKey(id, i), t.partitions[i], Catalog.RetiredOf(t, i), s.parts[i]))
  }

  ghost predicate Tied(h: Hasher, cat: Catalog.State, shelves: map<Id, Shelf>) {
    forall id | id in cat.topics :: id in shelves && TopicTied(h, id, cat.topics[id], shelves[id])
  }

  ghost predicate TiedTo(h: Hasher, c: seq<Catalog.Event>, shelves: map<Id, Shelf>) {
    match Catalog.ReplayFrom(Catalog.EMPTY, 0, c) case None => false case Some(cat) => Tied(h, cat, shelves)
  }

  /** Every catalog that the history went through. */
  ghost predicate HistoryTied(h: Hasher, c: seq<Catalog.Event>, shelves: map<Id, Shelf>) {
    forall n | 0 <= n <= |c| :: TiedTo(h, c[..n], shelves)
  }

  /** An open store uses each partition from where its catalog says it starts. */
  predicate Served(cat: Catalog.State, shelves: map<Id, Shelf>) {
    forall id, i | id in cat.topics && id in shelves && 0 <= i < |cat.topics[id].partitions|
        && i in shelves[id].parts ::
      var p := shelves[id].parts[i];
      p.start == IndexOf(p.all, cat.topics[id].partitions[i].retainedL) && forall j | j in p.gone :: j < p.start
  }

  ghost predicate BusyPart(f: Format, key: TopicKey, p: Part) {
    p.all != [] && p.all[0].header.id != 0 && p == FreshPart(f, key, p.c.options, 0, p.all[0].header.id)
  }

  ghost predicate BusyOk(env: Env, w: World) {
    w.busy.Some? ==>
      var id := w.busy.value;
      && w.sys.open && UserTopic(id) && id in w.shelves && w.shelves[id].marker == Some(MarkerOf(id))
      && !Listed(w.sys.catalog, id)
      && (forall i | i in w.shelves[id].parts ::
            i < |w.shelves[id].parts| && BusyPart(env.hasher.f, TopicKey(id, i), w.shelves[id].parts[i]))
  }

  ghost predicate Inv(env: Env, w: World) {
    && C.Inv(env.digests, w.sys)
    && PartsOk(w.shelves)
    && HistoryTied(env.hasher, w.sys.catalog, w.shelves)
    && (w.sys.open ==> Served(w.sys.sys.cat, w.shelves))
    && BusyOk(env, w)
  }
}
