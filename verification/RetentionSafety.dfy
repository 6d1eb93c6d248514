/** A partition and the catalog advance together: appends, rolls, retention passes
    with every outcome, other catalog events and restarts. */
module RetentionSafety {
  import opened Base
  import opened Retention
  import Catalog
  import CatalogHistory

  /** The last one is for the roll before the event: the new segment could not be
      created, or was, but not synced. */
  datatype Outcome = Acked | UnknownDurable | UnknownLost | Rejected | RollFails(published: bool)

  /** `cat` is what replaying the catalog log gives; `pieces` are the segments on
      disk. A partition that is not live serves nothing until a restart. */
  datatype World = World(cat: Catalog.State, key: TopicKey, pieces: seq<Piece>, logEnd: u64, live: bool)

  datatype Step =
    | Append(records: nat, bytes: nat, newest: i64)
    | Roll(anchor: Anchor)
    | Retain(now: i64, drawn: Anchor, outcome: Outcome)
    | Other(event: Catalog.Event)
    | Restart

  predicate KeyIn(cat: Catalog.State, key: TopicKey) {
    ValidKey(key) && key.topic in cat.topics && key.partition < |cat.topics[key.topic].partitions|
  }

  function PartitionOf(cat: Catalog.State, key: TopicKey): Catalog.Partition
    requires KeyIn(cat, key)
  {
    cat.topics[key.topic].partitions[key.partition]
  }

  // -------------------------------------------------------------------- steps

  function Last(pieces: seq<Piece>): Piece
    requires pieces != []
  {
    pieces[|pieces| - 1]
  }

  /** Segment identities are drawn at random; a repeated one is not considered. */
  predicate Fresh(pieces: seq<Piece>, anchor: Anchor) {
    Catalog.ValidAnchor(anchor) && forall i | 0 <= i < |pieces| :: pieces[i].anchor.id != anchor.id
  }

  function Rolled(pieces: seq<Piece>, logEnd: u64, anchor: Anchor): seq<Piece> {
    pieces + [Piece(logEnd, logEnd, HEADER_BYTES, 0, MIN_INT64, anchor)]
  }

  function Grown(p: Piece, records: nat, bytes: nat, newest: i64): Piece
    requires p.end + records <= MAX_OFFSET && p.size + bytes <= MAX_U64
  {
    Piece(p.base, p.end + records, p.size + bytes, p.records + records, if newest > p.maxTime then newest
          else p.maxTime, p.anchor)
  }

  function DoAppend(w: World, s: Step): World
    requires s.Append?
  {
    if !w.live || w.pieces == [] || s.records == 0 then w
    else
      var p := Last(w.pieces);
      if p.end + s.records > MAX_OFFSET || p.size + s.bytes > MAX_U64 then w
      else
        var g := Grown(p, s.records, s.bytes, s.newest);
        w.(pieces := w.pieces[..|w.pieces| - 1] + [g], logEnd := g.end)
  }

  predicate RollDue(w: World, now: i64)
    requires w.pieces != [] && KeyIn(w.cat, w.key)
  {
    Last(w.pieces).records != 0 && NeedsRoll(Last(w.pieces), Total(w.pieces), PartitionOf(w.cat, w.key).config, now)
  }

  /** planRetentionLocked's roll, before it looks for a prefix to retire. */
  function AfterRoll(w: World, s: Step): seq<Piece>
    requires s.Retain? && w.pieces != [] && KeyIn(w.cat, w.key)
  {
    if RollDue(w, s.now) then Rolled(w.pieces, w.logEnd, s.drawn) else w.pieces
  }

  /** retainPartitionAt: plan, append the event, apply it, drop the prefix. A
      refused event would make the partition unavailable. */
  function DoRetain(w: World, s: Step): World
    requires s.Retain?
  {
    if !w.live || !KeyIn(w.cat, w.key) || w.pieces == [] || w.cat.revision >= MAX_OFFSET
        || !Fresh(w.pieces, s.drawn) then w
    else
      var p := PartitionOf(w.cat, w.key);
      if w.pieces[0].base != p.retainedL || w.pieces[0].anchor != p.current then w.(live := false)
      else if Total(w.pieces) > MAX_U64 then w
      else if RollDue(w, s.now) && s.outcome.RollFails? then
        w.(pieces := if s.outcome.published then Rolled(w.pieces, w.logEnd, s.drawn) else w.pieces, live := false)
      else
        var pieces := AfterRoll(w, s);
        if Total(pieces) > MAX_U64 then w.(pieces := pieces)
        else match ProposalOf(pieces, p.config, s.now)
          case None => w.(pieces := pieces)
          case Some(proposal) =>
            if s.outcome.Rejected? || s.outcome.RollFails? then w.(pieces := pieces)
            else if s.outcome.UnknownLost? then w.(pieces := pieces, live := false)
            else
              var e := EventOf(Catalog.StoreOf(w.cat), w.cat.revision, w.key, p.retainedL, w.logEnd, proposal);
              match Catalog.Transition(w.cat, w.cat.revision, e)
              case None => w.(pieces := pieces, live := false)
              case Some(cat) =>
                if s.outcome.Acked? then w.(cat := cat, pieces := proposal.retained)
                else w.(cat := cat, pieces := pieces, live := false)
  }

  /** Segments below the catalog's boundary are deleted before the rest is opened. */
  function Drop(pieces: seq<Piece>, base: u64): seq<Piece> {
    if pieces != [] && pieces[0].base < base then Drop(pieces[1..], base) else pieces
  }

  predicate Elsewhere(e: Catalog.Event, key: TopicKey) { e.LogStartAdvanced? ==> e.key != key }

  function Do(w: World, s: Step): World {
    match s
    case Append(_, _, _) => DoAppend(w, s)
    case Roll(anchor) =>
      if w.live && w.pieces != [] && Last(w.pieces).records != 0 && Fresh(w.pieces, anchor)
      then w.(pieces := Rolled(w.pieces, w.logEnd, anchor)) else w
    case Retain(_, _, _) => DoRetain(w, s)
    case Other(e) =>
      if w.cat.revision < MAX_OFFSET && Elsewhere(e, w.key) && Catalog.Transition(w.cat, w.cat.revision, e).Some?
      then w.(cat := Catalog.Transition(w.cat, w.cat.revision, e).value) else w
    case Restart =>
      if KeyIn(w.cat, w.key) then w.(pieces := Drop(w.pieces, PartitionOf(w.cat, w.key).retainedL), live := true) else w
  }

  function Run(w: World, steps: seq<Step>): World
    decreases steps
  {
    if steps == [] then w else Run(Do(w, steps[0]), steps[1..])
  }

  // ---------------------------------------------------------------- invariant

  /** Some piece on disk is where the catalog says the partition starts. */
  predicate AtBoundary(p: Catalog.Partition, pieces: seq<Piece>, k: nat) {
    k < |pieces| && pieces[k].base == p.retainedL && pieces[k].anchor == p.current
  }

  ghost predicate Inv(w: World) {
    && CatalogHistory.Valid(w.cat) && Catalog.StoreOf(w.cat) != 0 && KeyIn(w.cat, w.key)
    && PiecesOk(w.pieces) && Last(w.pieces).end == w.logEnd
    && PartitionOf(w.cat, w.key).maxRetirementH <= w.logEnd
    && (w.live ==> AtBoundary(PartitionOf(w.cat, w.key), w.pieces, 0))
    && exists k :: AtBoundary(PartitionOf(w.cat, w.key), w.pieces, k)
  }

  lemma RolledOk(pieces: seq<Piece>, logEnd: u64, anchor: Anchor)
    requires PiecesOk(pieces) && Last(pieces).end == logEnd && Last(pieces).records != 0 && Fresh(pieces, anchor)
    ensures PiecesOk(Rolled(pieces, logEnd, anchor))
  {
    var r := Rolled(pieces, logEnd, anchor);
    assert PieceOk(pieces[|pieces| - 1]);
    forall i | 0 < i < |r| ensures Follows(r[i - 1], r[i]) {
      if i < |pieces| { assert Follows(pieces[i - 1], pieces[i]); }
    }
  }

  lemma GrownOk(pieces: seq<Piece>, records: nat, bytes: nat, newest: i64)
    requires PiecesOk(pieces) && records > 0 && Last(pieces).end + records <= MAX_OFFSET
             && Last(pieces).size + bytes <= MAX_U64
    ensures PiecesOk(pieces[..|pieces| - 1] + [Grown(Last(pieces), records, bytes, newest)])
  {
    var r := pieces[..|pieces| - 1] + [Grown(Last(pieces), records, bytes, newest)];
    forall i | 0 < i < |r| ensures Follows(r[i - 1], r[i]) { assert Follows(pieces[i - 1], pieces[i]); }
    forall i | 0 <= i < |r| ensures PieceOk(r[i]) { assert PieceOk(pieces[i]); }
    forall i, j | 0 <= i < j < |r| ensures r[i].anchor.id != r[j].anchor.id {
      assert pieces[i].anchor.id != pieces[j].anchor.id;
    }
  }

  lemma BoundaryKept(p: Catalog.Partition, a: seq<Piece>, b: seq<Piece>, k: nat)
    requires AtBoundary(p, a, k) && |a| <= |b|
    requires forall i | 0 <= i < |a| :: a[i].base == b[i].base && a[i].anchor == b[i].anchor
    ensures AtBoundary(p, b, k)
  {
  }

  lemma AppendKeeps(w: World, s: Step)
    requires Inv(w) && s.Append?
    ensures Inv(DoAppend(w, s))
  {
    hide PiecesOk, CatalogHistory.Valid, KeyIn;
    var n := DoAppend(w, s);
    if n != w {
      GrownOk(w.pieces, s.records, s.bytes, s.newest);
      var p := PartitionOf(w.cat, w.key);
      var k: nat :| AtBoundary(p, w.pieces, k);
      BoundaryKept(p, w.pieces, n.pieces, k);
      if w.live { BoundaryKept(p, w.pieces, n.pieces, 0); }
    }
  }

  lemma RollKeeps(w: World, anchor: Anchor)
    requires Inv(w) && Last(w.pieces).records != 0 && Fresh(w.pieces, anchor)
    ensures Inv(w.(pieces := Rolled(w.pieces, w.logEnd, anchor)))
  {
    hide PiecesOk, CatalogHistory.Valid, KeyIn, Fresh;
    RolledOk(w.pieces, w.logEnd, anchor);
    var p := PartitionOf(w.cat, w.key);
    var r := Rolled(w.pieces, w.logEnd, anchor);
    var k: nat :| AtBoundary(p, w.pieces, k);
    BoundaryKept(p, w.pieces, r, k);
    if w.live { BoundaryKept(p, w.pieces, r, 0); }
  }

  /** The pass itself, once any roll is done: whatever becomes of its event, it is
      never refused, and the boundary stays where the catalog says it is. */
  lemma PassKeeps(w: World, now: i64, outcome: Outcome)
    requires Inv(w) && w.live && w.cat.revision < MAX_OFFSET && Total(w.pieces) <= MAX_U64
    ensures var p := PartitionOf(w.cat, w.key);
            var r := ProposalOf(w.pieces, p.config, now);
            r.Some? ==>
              var e := EventOf(Catalog.StoreOf(w.cat), w.cat.revision, w.key, p.retainedL, w.logEnd, r.value);
              && Catalog.Transition(w.cat, w.cat.revision, e).Some?
              && (var cat := Catalog.Transition(w.cat, w.cat.revision, e).value;
                  Inv(w.(cat := cat, pieces := r.value.retained)) && Inv(w.(cat := cat, live := false)))
  {
    hide PiecesOk, CatalogHistory.Valid, ProposalOf, Catalog.Transition, Catalog.Merge, RetiresPrefix, ReasonIs, Total;
    var p := PartitionOf(w.cat, w.key);
    assert Anchored(p, w.pieces, w.logEnd);
    ProposalAccepted(w.cat, w.key, w.pieces, w.logEnd, now, w.cat.revision);
    ProposalMeans(w.pieces, p.config, now);
    var r := ProposalOf(w.pieces, p.config, now);
    if r.Some? {
      var e := EventOf(Catalog.StoreOf(w.cat), w.cat.revision, w.key, p.retainedL, w.logEnd, r.value);
      CatalogHistory.TransitionValid(w.cat, e);
      Catalog.AdvanceIs(w.cat, w.cat.revision, e);
      var cat := Catalog.Transition(w.cat, w.cat.revision, e).value;
      var q := PartitionOf(cat, w.key);
      assert AtBoundary(q, r.value.retained, 0);
      assert AtBoundary(q, w.pieces, |r.value.retired|);
    }
  }

  lemma RetainKeeps(w: World, s: Step)
    requires Inv(w) && s.Retain?
    ensures Inv(DoRetain(w, s))
  {
    hide PiecesOk, CatalogHistory.Valid, ProposalOf, Catalog.Transition, Fresh, KeyIn, NeedsRoll;
    if w.live && w.cat.revision < MAX_OFFSET && Fresh(w.pieces, s.drawn) && Total(w.pieces) <= MAX_U64 {
      var n := w.(pieces := AfterRoll(w, s));
      if n.pieces != w.pieces { RollKeeps(w, s.drawn); }
      assert Inv(n);
      if Total(n.pieces) <= MAX_U64 { PassKeeps(n, s.now, s.outcome); }
      StoppedKeeps(n);
    }
  }

  lemma StoppedKeeps(w: World)
    requires Inv(w)
    ensures Inv(w.(live := false))
  {
    hide PiecesOk, CatalogHistory.Valid, KeyIn;
  }

  lemma OtherKeeps(w: World, e: Catalog.Event)
    requires Inv(w) && w.cat.revision < MAX_OFFSET && Elsewhere(e, w.key)
    requires Catalog.Transition(w.cat, w.cat.revision, e).Some?
    ensures var cat := Catalog.Transition(w.cat, w.cat.revision, e).value;
            KeyIn(cat, w.key) && PartitionOf(cat, w.key) == PartitionOf(w.cat, w.key) && Inv(w.(cat := cat))
  {
    hide PiecesOk, CatalogHistory.Valid, Catalog.Transition, KeyIn;
    CatalogHistory.TransitionValid(w.cat, e);
    KnownRevision(w.cat, w.key);
    OtherSame(w.cat, w.key, e);
  }

  lemma OtherSame(cat: Catalog.State, key: TopicKey, e: Catalog.Event)
    requires KeyIn(cat, key) && 0 < cat.revision < MAX_OFFSET && Elsewhere(e, key)
    requires Catalog.Transition(cat, cat.revision, e).Some?
    ensures var n := Catalog.Transition(cat, cat.revision, e).value;
            KeyIn(n, key) && PartitionOf(n, key) == PartitionOf(cat, key) && Catalog.StoreOf(n) == Catalog.StoreOf(cat)
  {
    hide Catalog.AdvanceAllowed, Catalog.NewPartitions, Catalog.ValidPayload, Catalog.Merge;
  }

  lemma KnownRevision(cat: Catalog.State, key: TopicKey)
    requires CatalogHistory.Valid(cat) && KeyIn(cat, key)
    ensures cat.revision > 0
  {
    assert CatalogHistory.TopicOk(key.topic, cat.topics[key.topic], cat.revision);
  }

  lemma {:induction false} DropIs(pieces: seq<Piece>, base: u64, k: nat)
    requires PiecesOk(pieces) && k < |pieces| && pieces[k].base == base
    ensures Drop(pieces, base) == pieces[k..]
    decreases pieces
  {
    if k > 0 {
      PiecesIncrease(pieces, 0, k);
      SuffixOk(pieces, 1);
      DropIs(pieces[1..], base, k - 1);
      assert pieces[1..][k - 1..] == pieces[k..];
    }
  }

  lemma RestartKeeps(w: World)
    requires Inv(w)
    ensures Inv(Do(w, Restart))
  {
    hide PiecesOk, CatalogHistory.Valid, KeyIn, Drop;
    var p := PartitionOf(w.cat, w.key);
    var k: nat :| AtBoundary(p, w.pieces, k);
    DropIs(w.pieces, p.retainedL, k);
    if k > 0 { SuffixOk(w.pieces, k); } else { assert w.pieces[0..] == w.pieces; }
    assert AtBoundary(p, w.pieces[k..], 0);
  }

  lemma StepKeeps(w: World, s: Step)
    requires Inv(w)
    ensures Inv(Do(w, s))
  {
    hide Inv, DoAppend, DoRetain, Catalog.Transition, Fresh;
    match s
    case Append(_, _, _) => AppendKeeps(w, s);
    case Roll(anchor) =>
      if w.live && w.pieces != [] && Last(w.pieces).records != 0 && Fresh(w.pieces, anchor) { RollKeeps(w, anchor); }
    case Retain(_, _, _) => RetainKeeps(w, s);
    case Other(e) =>
      if w.cat.revision < MAX_OFFSET && Elsewhere(e, w.key) && Catalog.Transition(w.cat, w.cat.revision, e).Some? {
        OtherKeeps(w, e);
      }
    case Restart => RestartKeeps(w);
  }

  /** Where the runs start: a partition of a topic just created, with its first,
      empty segment. */
  lemma NewPartitionOk(cat: Catalog.State, e: Catalog.Event, key: TopicKey)
    requires CatalogHistory.Valid(cat) && cat.revision < MAX_OFFSET && e.TopicCreated?
    requires Catalog.Transition(cat, cat.revision, e).Some?
    requires key.topic == e.topic && key.partition < |e.partitions|
    ensures Inv(World(Catalog.Transition(cat, cat.revision, e).value, key,
                      [Piece(0, 0, HEADER_BYTES, 0, MIN_INT64, e.partitions[key.partition].initial)], 0, true))
  {
    CatalogHistory.TransitionValid(cat, e);
    var n := Catalog.Transition(cat, cat.revision, e).value;
    assert n.topics[e.topic].partitions[key.partition] ==
           Catalog.NewPartition(e.partitions[key.partition], cat.revision);
    var w := World(n, key, [Piece(0, 0, HEADER_BYTES, 0, MIN_INT64, e.partitions[key.partition].initial)], 0, true);
    assert AtBoundary(PartitionOf(n, key), w.pieces, 0);
  }

  /** In every run the partition's first live segment is the one the catalog names
      as its retained anchor, and no retention event is ever refused. */
  lemma {:induction false} RunKeeps(w: World, steps: seq<Step>)
    requires Inv(w)
    ensures Inv(Run(w, steps))
    decreases steps
  {
    hide Inv, Do;
    if steps != [] {
      StepKeeps(w, steps[0]);
      RunKeeps(Do(w, steps[0]), steps[1..]);
    }
  }

  /** A retention pass on a live, reachable partition stops it only when the
      outcome of its own append is unknown. */
  lemma {:induction false} NeverRefused(w: World, steps: seq<Step>, s: Step)
    requires Inv(w) && s.Retain? && Run(w, steps).live && (s.outcome.Acked? || s.outcome.Rejected?)
    ensures Do(Run(w, steps), s).live
  {
    hide PiecesOk, CatalogHistory.Valid, ProposalOf, Catalog.Transition, Fresh, KeyIn, NeedsRoll, Run;
    RunKeeps(w, steps);
    var v := Run(w, steps);
    if v.cat.revision < MAX_OFFSET && Fresh(v.pieces, s.drawn) && Total(v.pieces) <= MAX_U64 {
      var n := v.(pieces := AfterRoll(v, s));
      if n.pieces != v.pieces { RollKeeps(v, s.drawn); }
      if Total(n.pieces) <= MAX_U64 { PassKeeps(n, s.now, s.outcome); }
    }
  }

  // ------------------------------------------------------------------- object

  /** The fields of a partition that a retention pass reads and writes. */
  class Segments {
    var pieces: seq<Piece>
    var logEnd: u64
    var live: bool

    constructor (pieces: seq<Piece>, logEnd: u64)
      ensures this.pieces == pieces && this.logEnd == logEnd && live
    {
      this.pieces, this.logEnd, live := pieces, logEnd, true;
    }
  }

  /** retiredEvents */
  method ListRetired(pieces: seq<Piece>) returns (events: seq<Catalog.Retired>)
    ensures events == RetiredEvents(pieces)
  {
    events := [];
    for i := 0 to |pieces|
      invariant events == RetiredEvents(pieces)[..i]
    {
      events := events + [Catalog.Retired(pieces[i].base, pieces[i].end, pieces[i].size, pieces[i].anchor)];
    }
  }

  /** retainPartitionAt: the catalog projection and the segment list change
      together, and only after the event is durable. */
  method RetainPartition(projection: Catalog.Projection, log: Segments, key: TopicKey, now: i64, drawn: Anchor,
                         outcome: Outcome)
    requires projection.View().revision < MAX_OFFSET && KeyIn(projection.View(), key) && log.pieces != []
    requires Fresh(log.pieces, drawn) && log.live
    modifies projection, log
    ensures var was := World(old(projection.View()), key, old(log.pieces), old(log.logEnd), true);
            var n := DoRetain(was, Retain(now, drawn, outcome));
            && log.pieces == (if outcome.RollFails? then was.pieces else n.pieces)
            && log.logEnd == n.logEnd && log.live == n.live
            && (!outcome.UnknownDurable? ==> projection.View() == n.cat)
            && (outcome.UnknownDurable? ==> projection.View() == was.cat)
  {
    hide ProposalOf, Catalog.Transition, Fresh, NeedsRoll, Total;
    var p := PartitionOf(projection.View(), key);
    if log.pieces[0].base != p.retainedL || log.pieces[0].anchor != p.current {
      log.live := false;
      return;
    }
    var total := RetainedBytes(log.pieces);
    if total.None? { return; }
    var active := Last(log.pieces);
    ghost var before := log.pieces;
    if active.records != 0 && NeedsRoll(active, total.value, p.config, now) {
      if outcome.RollFails? {
        log.live := false;
        return;
      }
      RolledTotal(before, log.logEnd, drawn);
      log.pieces := Rolled(log.pieces, log.logEnd, drawn);
      if total.value > MAX_U64 - HEADER_BYTES { return; }
      total := Some(total.value + HEADER_BYTES);
    }
    var proposal := Plan(log.pieces, p.config, now, total.value);
    if proposal.None? || outcome.Rejected? || outcome.RollFails? { return; }
    if outcome.UnknownLost? {
      log.live := false;
      return;
    }
    var retired := ListRetired(proposal.value.retired);
    var offset := projection.revision;
    var e := Catalog.LogStartAdvanced(Catalog.StoreOf(projection.View()), offset, key, p.retainedL, proposal.value.newL,
                                      log.logEnd, proposal.value.anchor, proposal.value.reason, retired);
    if outcome.UnknownDurable? {
      log.live := false;
      return;
    }
    var applied := projection.Apply(offset, e);
    if !applied {
      log.live := false;
      return;
    }
    log.pieces := proposal.value.retained;
  }

  lemma {:induction false} RolledTotal(pieces: seq<Piece>, logEnd: u64, anchor: Anchor)
    ensures Total(Rolled(pieces, logEnd, anchor)) == Total(pieces) + HEADER_BYTES
  {
    var r := Rolled(pieces, logEnd, anchor);
    assert r[..|r| - 1] == pieces;
  }
}
