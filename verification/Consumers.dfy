/** Live consumers over the offsets projection: what Open, Poll, Commit, Close,
    expiry and a restart do, one critical section at a time. */
module Consumers {
  import opened Base
  import opened Offsets
  import opened OffsetsHistory
  import opened GroupBodies
  import Catalog
  import CatalogHistory

  /** The durable records of one partition: offsets `start` up to `end`. */
  datatype Range = Range(start: u64, end: u64)

  predicate Within(r: Range, offset: u64) { r.start <= offset <= r.end }

  /** A Poll runs in three sections: it passes the fence, it reads the log
      without the store lock, and it passes the fence again. */
  datatype Stage = Free | Begun | Fetched(upTo: u64)

  /** A Consumer, or one cursor of a GroupConsumer. `lost` says the handle was
      closed, expired or replaced in the registry. */
  datatype Cursor = Cursor(group: GroupId, key: TopicKey, session: Id, generation: u64,
                           next: u64, delivered: u64, stage: Stage, lost: bool)

  /** Some successful Poll of the group returned this record. */
  datatype Delivery = Delivery(group: GroupId, key: TopicKey, offset: u64)

  /** `durable` is what a replay of the offsets log would give; it runs ahead of
      `offsets` only after an append of unknown outcome. `refused` says the log
      holds a record no replay accepts, `torn` that it ends in part of a batch
      header; with either, the store does not open again, and is `shut`. */
  datatype World = World(cat: Catalog.State, offsets: State, durable: State, unavailable: bool, refused: bool,
                         torn: bool, shut: bool, parts: map<TopicKey, Range>, cursors: seq<Cursor>,
                         delivered: set<Delivery>)

  /** `UnknownTorn` leaves part of a batch header in the offsets log. */
  datatype Outcome = Acked | UnknownDurable | UnknownLost | UnknownTorn | Rejected

  datatype Step =
    | OpenOne(group: GroupId, key: TopicKey, mode: u8, explicit: u64, session: Id, reason: u8,
              created: Outcome, changed: Outcome)
    | OpenGroup(group: GroupId, members: seq<Member>, mode: u8, starts: map<TopicKey, u64>, reason: u8,
                created: Outcome, changed: Outcome)
    | PollBegin(at: nat)
    | PollFetch(at: nat, upTo: u64)
    | PollFinish(at: nat)
    | PollAbort(at: nat)
    | Commit(at: nat, next: u64, outcome: Outcome)
    | Close(at: nat, outcome: Outcome)
    | Expire(at: nat)
    | LogMoves(key: TopicKey, range: Range)
    | CatalogGrows(event: Catalog.Event)
    | Restart

  // ------------------------------------------------------------------ appends

  /** appendOffsetsEventLocked: a full log or a refused admission changes
      nothing, an unknown outcome makes groups unavailable, and so does a record
      the projection refuses. */
  function Append(w: World, e: Event, outcome: Outcome): World {
    if outcome.Rejected? || w.offsets.revision >= MAX_OFFSET then w
    else if outcome.UnknownLost? then w.(unavailable := true)
    else if outcome.UnknownTorn? then w.(unavailable := true, torn := true)
    else match Transition(w.offsets, w.offsets.revision, e, w.cat)
      case None => w.(unavailable := true, refused := true)
      case Some(n) =>
        if outcome.Acked? then w.(offsets := n, durable := n) else w.(durable := n, unavailable := true)
  }

  predicate Appended(w: World, e: Event, outcome: Outcome) {
    outcome.Acked? && w.offsets.revision < MAX_OFFSET && Transition(w.offsets, w.offsets.revision, e, w.cat).Some?
  }

  // --------------------------------------------------------------------- open

  predicate OpenableIn(cat: Catalog.State, parts: map<TopicKey, Range>, key: TopicKey) {
    InCatalog(cat, key) && key in parts
  }

  predicate Openable(w: World, key: TopicKey) { OpenableIn(w.cat, w.parts, key) }

  /** Where an assignment of `key` resumes; a stored explicit start is range
      checked by OpenConsumerGroup only. */
  function ResumeIn(cat: Catalog.State, parts: map<TopicKey, Range>, g: Group, key: TopicKey,
                    checked: bool): Option<u64> {
    if !OpenableIn(cat, parts, key) then None
    else if key in g.progress then
      if Within(parts[key], LatestNext(g.progress[key])) then Some(LatestNext(g.progress[key])) else None
    else if g.startMode == EXPLICIT then
      if key !in g.explicitStarts then None
      else if checked && !Within(parts[key], g.explicitStarts[key]) then None
      else Some(g.explicitStarts[key])
    else Some(if g.startMode == EARLIEST then parts[key].start else parts[key].end)
  }

  function ResumeAt(w: World, g: Group, key: TopicKey, checked: bool): Option<u64> {
    ResumeIn(w.cat, w.parts, g, key, checked)
  }

  /** Every resume position, and 0 for a key that has none. */
  function Resumes(cat: Catalog.State, parts: map<TopicKey, Range>, g: Group, checked: bool): TopicKey -> u64 {
    key => match ResumeIn(cat, parts, g, key, checked) case Some(v) => v case None => 0
  }

  function ResumeOr0(w: World, g: Group, checked: bool): TopicKey -> u64 { Resumes(w.cat, w.parts, g, checked) }

  predicate Resumable(w: World, g: Group, members: seq<Member>, checked: bool) {
    forall k | k in Subscribed(members) :: ResumeAt(w, g, k, checked).Some?
  }

  function NewCursor(group: GroupId, generation: u64, p: Placement): Cursor {
    Cursor(group, p.key, p.owner, generation, p.resume, p.resume, Free, false)
  }

  function NewCursors(group: GroupId, generation: u64, placed: seq<Placement>): seq<Cursor> {
    seq(|placed|, i requires 0 <= i < |placed| => NewCursor(group, generation, placed[i]))
  }

  /** The second half of an open: install the membership as the next generation. */
  ghost function Assign(w: World, group: GroupId, members: seq<Member>, reason: u8, checked: bool,
                        outcome: Outcome): World
    requires group in w.offsets.groups
  {
    var g := w.offsets.groups[group];
    if g.generation == MAX_U64 || !Resumable(w, g, members, checked) then w
    else
      var e := AssignmentBody(w.offsets.store, w.cat, group, g, reason, members, ResumeOr0(w, g, checked));
      var n := Append(w, e, outcome);
      if Appended(w, e, outcome) then n.(cursors := n.cursors + NewCursors(group, e.generation, e.placed)) else n
  }

  /** The assignment was acknowledged and its handles were installed. */
  ghost predicate Assigned(w: World, group: GroupId, members: seq<Member>, reason: u8, checked: bool, outcome: Outcome)
    requires group in w.offsets.groups
  {
    var g := w.offsets.groups[group];
    && g.generation != MAX_U64 && Resumable(w, g, members, checked)
    && Appended(w, AssignmentBody(w.offsets.store, w.cat, group, g, reason, members, ResumeOr0(w, g, checked)), outcome)
  }

  ghost function Create(w: World, group: GroupId, mode: u8, starts: map<TopicKey, u64>, outcome: Outcome): World {
    if group in w.offsets.groups then w
    else if exists k | k in starts :: !Openable(w, k) || !Within(w.parts[k], starts[k]) then w
    else Append(w, CreatedBody(w.offsets.store, w.cat, group, mode, starts), outcome)
  }

  ghost function DoOpenOne(w: World, s: Step): World
    requires s.OpenOne?
  {
    if w.unavailable || !UserKey(s.key) || s.session == 0 || !(EARLIEST <= s.mode <= EXPLICIT) || !Openable(w, s.key)
       || (s.mode != EXPLICIT && s.explicit != 0)
    then w
    else
      var n := Create(w, s.group, s.mode, if s.mode == EXPLICIT then map[s.key := s.explicit] else map[], s.created);
      if s.group !in n.offsets.groups then n
      else
        var g := n.offsets.groups[s.group];
        if g.startMode != s.mode then n
        else if s.key !in g.progress && s.mode == EXPLICIT
                && !(s.key in g.explicitStarts && g.explicitStarts[s.key] == s.explicit) then n
        else Assign(n, s.group, [Member(s.session, [s.key])], s.reason, false, s.changed)
  }

  /** The argument checks of OpenConsumerGroup. */
  predicate Requested(s: Step)
    requires s.OpenGroup?
  {
    && Prepared(s.members) && EARLIEST <= s.mode <= EXPLICIT
    && (forall k | k in s.starts :: UserKey(k))
    && (if s.mode == EXPLICIT then s.starts.Keys == Subscribed(s.members).Keys else s.starts == map[])
  }

  ghost function DoOpenGroup(w: World, s: Step): World
    requires s.OpenGroup?
  {
    if w.unavailable || !Requested(s) then w
    else
      var n := Create(w, s.group, s.mode, s.starts, s.created);
      if s.group !in n.offsets.groups then n
      else
        var g := n.offsets.groups[s.group];
        if g.startMode != s.mode then n
        else if s.mode == EXPLICIT && exists k | k in s.starts ::
            k !in g.explicitStarts || g.explicitStarts[k] != s.starts[k]
        then n
        else Assign(n, s.group, s.members, s.reason, true, s.changed)
  }

  // ---------------------------------------------------------- poll and commit

  /** The assignment fence: the handle still holds the current generation. */
  predicate Fenced(w: World, c: Cursor) {
    && !c.lost && !w.unavailable
    && c.group in w.offsets.groups
    && (var g := w.offsets.groups[c.group];
        g.generation == c.generation && g.instance == w.offsets.store && OwnerIs(g, c))
    && c.key in w.parts
  }

  function Put(w: World, at: nat, c: Cursor): World
    requires at < |w.cursors|
  {
    w.(cursors := w.cursors[at := c])
  }

  function Returned(c: Cursor, upTo: u64): set<Delivery> {
    set o | c.next <= o < upTo :: Delivery(c.group, c.key, o)
  }

  /** A fetch from `next` returns a contiguous run of durable records. */
  function DoPoll(w: World, s: Step): World
    requires s.PollBegin? || s.PollFetch? || s.PollFinish? || s.PollAbort?
  {
    if s.at >= |w.cursors| then w
    else
      var c := w.cursors[s.at];
      match s
      case PollBegin(at) => if c.stage.Free? && Fenced(w, c) then Put(w, at, c.(stage := Begun)) else w
      case PollFetch(at, upTo) =>
        if c.stage.Begun? && c.key in w.parts && Within(w.parts[c.key], c.next) && c.next <= upTo <= w.parts[c.key].end
        then Put(w, at, c.(stage := Fetched(upTo)))
        else w
      case PollFinish(at) =>
        if !c.stage.Fetched? then w
        else if !Fenced(w, c) then Put(w, at, c.(stage := Free))
        else
          Put(w, at, c.(stage := Free, next := c.stage.upTo, delivered := c.stage.upTo))
          .(delivered := w.delivered + Returned(c, c.stage.upTo))
      case PollAbort(at) => Put(w, at, c.(stage := Free))
  }

  function DoCommit(w: World, s: Step): World
    requires s.Commit?
  {
    if s.at >= |w.cursors| then w
    else
      var c := w.cursors[s.at];
      if !c.stage.Free? || !Fenced(w, c) then w
      else
        var g := w.offsets.groups[c.group];
        if c.key !in g.progress then w
        else
          var p := g.progress[c.key];
          if s.next < LatestNext(p) || s.next > c.delivered || s.next > w.parts[c.key].end
             || (p.hasCommit && s.next == LatestNext(p))
          then w
          else
            Append(w, CommitBody(w.offsets.store, w.cat, c.group, c.session, c.generation, c.key, p, s.next), s.outcome)
  }

  /** A commit succeeds when it is acknowledged, or repeats the committed position. */
  predicate Committed(w: World, s: Step)
    requires s.Commit?
  {
    && s.at < |w.cursors| && w.cursors[s.at].stage.Free? && Fenced(w, w.cursors[s.at])
    && (var c := w.cursors[s.at];
        && c.key in w.offsets.groups[c.group].progress
        && (var p := w.offsets.groups[c.group].progress[c.key];
            && LatestNext(p) <= s.next <= c.delivered && s.next <= w.parts[c.key].end
            && ((p.hasCommit && s.next == LatestNext(p))
                || Appended(w, CommitBody(w.offsets.store, w.cat, c.group, c.session, c.generation, c.key, p, s.next),
                            s.outcome))))
  }

  predicate OwnerIs(g: Group, c: Cursor) { c.key in g.owners && g.owners[c.key] == c.session }

  function DoClose(w: World, s: Step): World
    requires s.Close?
  {
    if s.at >= |w.cursors| then w
    else
      var c := w.cursors[s.at];
      var n :=
        if c.lost || w.unavailable || c.group !in w.offsets.groups then w
        else
          var g := w.offsets.groups[c.group];
          if g.generation != c.generation || !OwnerIs(g, c) || g.generation == MAX_U64 then w
          else Append(w, RevocationBody(w.offsets.store, w.cat, c.group, g), s.outcome);
      if s.at < |n.cursors| then Put(n, s.at, c.(lost := true)) else n
  }

  // -------------------------------------------------------------------- steps

  ghost function Do(w: World, s: Step): World {
    if w.shut then w
    else match s
    case OpenOne(_, _, _, _, _, _, _, _) => DoOpenOne(w, s)
    case OpenGroup(_, _, _, _, _, _, _) => DoOpenGroup(w, s)
    case Commit(_, _, _) => DoCommit(w, s)
    case Close(_, _) => DoClose(w, s)
    case Expire(at) => if at < |w.cursors| then Put(w, at, w.cursors[at].(lost := true)) else w
    case LogMoves(key, range) =>
      if range.start <= range.end && (key in w.parts ==>
                                      w.parts[key].start <= range.start && w.parts[key].end <= range.end)
      then w.(parts := w.parts[key := range]) else w
    case CatalogGrows(event) =>
      if w.cat.revision < MAX_OFFSET && Catalog.Transition(w.cat, w.cat.revision, event).Some?
      then w.(cat := Catalog.Transition(w.cat, w.cat.revision, event).value) else w
    case Restart =>
      if w.refused || w.torn then w.(unavailable := true, shut := true, cursors := [])
      else w.(offsets := w.durable, unavailable := false, cursors := [])
    case _ => DoPoll(w, s)
  }

  ghost function Run(w: World, steps: seq<Step>): World
    decreases steps
  {
    if steps == [] then w else Run(Do(w, steps[0]), steps[1..])
  }

  // --------------------------------------------------------------- invariants

  /** The group was handed every offset of the key from `from` up to `to`. */
  ghost predicate AllDelivered(delivered: set<Delivery>, group: GroupId, key: TopicKey, from: u64, to: u64) {
    forall o: u64 | from <= o < to :: Delivery(group, key, o) in delivered
  }

  ghost predicate GroupDelivered(delivered: set<Delivery>, id: GroupId, g: Group) {
    forall k | k in g.progress :: AllDelivered(delivered, id, k, g.progress[k].initialNext, LatestNext(g.progress[k]))
  }

  /** At least once: no committed offset was skipped. */
  ghost predicate NothingSkipped(delivered: set<Delivery>, s: State) {
    forall id | id in s.groups :: GroupDelivered(delivered, id, s.groups[id])
  }

  /** A handle of the current generation was handed everything up to its
      delivery cursor; a handle of an older one stays behind the fence. */
  ghost predicate CursorOk(s: State, delivered: set<Delivery>, c: Cursor) {
    && c.group in s.groups
    && c.generation <= s.groups[c.group].generation
    && c.next == c.delivered
    && (c.stage.Fetched? ==> c.next <= c.stage.upTo)
    && (c.generation == s.groups[c.group].generation && c.key in s.groups[c.group].progress ==>
          AllDelivered(delivered, c.group, c.key, s.groups[c.group].progress[c.key].initialNext, c.delivered))
  }

  ghost predicate CursorsOk(s: State, delivered: set<Delivery>, cursors: seq<Cursor>) {
    forall i | 0 <= i < |cursors| :: CursorOk(s, delivered, cursors[i])
  }

  ghost predicate Sound(w: World, s: State) {
    s.store != 0 && Valid(s, w.cat) && NothingSkipped(w.delivered, s)
  }

  /** Groups stay, and their generations never go back. */
  ghost predicate NoOlder(s: State, t: State) {
    forall id | id in s.groups :: id in t.groups && s.groups[id].generation <= t.groups[id].generation
  }

  ghost predicate Inv(w: World) {
    && CatalogHistory.Valid(w.cat) && w.cat.revision > 0
    && Sound(w, w.offsets) && Sound(w, w.durable)
    && (!w.unavailable ==> w.durable == w.offsets) && NoOlder(w.offsets, w.durable)
    && CursorsOk(w.offsets, w.delivered, w.cursors)
    && (w.shut || w.torn ==> w.unavailable)
  }

  /** An explicit group start that covers no key. */
  ghost predicate EmptyExplicit(w: World, s: Step) {
    && s.OpenGroup? && Requested(s) && s.mode == EXPLICIT && s.starts == map[]
    && !w.unavailable && s.group !in w.offsets.groups && w.offsets.revision < MAX_OFFSET
    && (s.created.Acked? || s.created.UnknownDurable?)
  }
}
