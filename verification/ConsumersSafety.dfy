/** At-least-once delivery over every run of the consumer protocol, and why no
    appended group event is ever refused by the projection. */
module ConsumersSafety {
  import opened Base
  import opened Offsets
  import opened OffsetsHistory
  import opened GroupBodies
  import opened Consumers
  import Catalog
  import CatalogHistory

  // ------------------------------------------------------------------ appends

  /** An accepted event keeps the invariant when its successor skips nothing. */
  lemma AppendKeeps(w: World, e: Event, outcome: Outcome, n: State)
    requires Inv(w) && !w.unavailable
    requires w.offsets.revision < MAX_OFFSET ==>
               && Transition(w.offsets, w.offsets.revision, e, w.cat) == Some(n)
               && NothingSkipped(w.delivered, n) && CursorsOk(n, w.delivered, w.cursors) && NoOlder(w.offsets, n)
    ensures Inv(Append(w, e, outcome)) && (Append(w, e, outcome).refused <==> w.refused)
    ensures NoOlder(w.offsets, Append(w, e, outcome).offsets)
  {
    hide Transition, Valid, NothingSkipped, CursorsOk, CatalogHistory.Valid;
    if w.offsets.revision < MAX_OFFSET {
      TransitionValid(w.offsets, e, w.cat);
    }
  }

  lemma CreateKeeps(w: World, group: GroupId, mode: u8, starts: map<TopicKey, u64>, outcome: Outcome)
    requires Inv(w) && !w.unavailable && CreationChecked(w.offsets, w.cat, group, mode, starts)
    requires !(mode == EXPLICIT && starts == map[])
    ensures var n := Append(w, CreatedBody(w.offsets.store, w.cat, group, mode, starts), outcome);
            Inv(n) && (n.refused <==> w.refused) && NoOlder(w.offsets, n.offsets)
  {
    hide Valid, CatalogHistory.Valid, StartList, Transition;
    if w.offsets.revision < MAX_OFFSET {
      var e := CreatedBody(w.offsets.store, w.cat, group, mode, starts);
      CreatedAccepted(w.offsets, w.cat, group, mode, starts, w.offsets.revision);
      var n := Transition(w.offsets, w.offsets.revision, e, w.cat).value;
      AppendKeeps(w, e, outcome, n);
    }
  }

  // -------------------------------------------------------------- assignments

  lemma AssignedDelivered(g: Group, id: GroupId, e: Event, offset: Offset, delivered: set<Delivery>)
    requires e.AssignmentChanged? && PlacedOk(e.placed, Subscribed(e.members), g.progress)
    requires GroupDelivered(delivered, id, g)
    ensures GroupDelivered(delivered, id, AssignedGroup(g, offset, e))
  {
    hide Subscribed, OwnerMap, KeyLess;
    var n := AssignedGroup(g, offset, e);
    assert forall i | 0 <= i < |e.placed| :: PlacementOk(e.placed[i], Subscribed(e.members), g.progress);
    forall k | k in n.progress
      ensures AllDelivered(delivered, id, k, n.progress[k].initialNext, LatestNext(n.progress[k]))
    {
      NextProgressKeys(g.progress, e.placed, k);
    }
  }

  /** A cursor installed by an assignment starts at the latest position. */
  lemma PlacedCursorOk(g: Group, id: GroupId, e: Event, offset: Offset, delivered: set<Delivery>, i: nat, s: State)
    requires e.AssignmentChanged? && PlacedOk(e.placed, Subscribed(e.members), g.progress) && i < |e.placed|
    requires GroupDelivered(delivered, id, g)
    requires id in s.groups && s.groups[id] == AssignedGroup(g, offset, e)
    ensures CursorOk(s, delivered, NewCursor(id, e.generation, e.placed[i]))
  {
    hide Subscribed, OwnerMap, KeyLess;
    assert PlacementOk(e.placed[i], Subscribed(e.members), g.progress);
    NextProgressAt(g.progress, e.placed, i);
  }

  /** Handles of every earlier generation fall behind the fence. */
  lemma OlderCursorOk(s: State, t: State, id: GroupId, delivered: set<Delivery>, c: Cursor)
    requires CursorOk(s, delivered, c) && id in s.groups && id in t.groups
    requires t.groups == s.groups[id := t.groups[id]]
    requires s.groups[id].generation < t.groups[id].generation
    ensures CursorOk(t, delivered, c)
  {
  }

  lemma ReassignKeeps(w: World, group: GroupId, e: Event, outcome: Outcome, n: State)
    requires Inv(w) && !w.unavailable && group in w.offsets.groups
    requires e.AssignmentChanged? && PlacedOk(e.placed, Subscribed(e.members), w.offsets.groups[group].progress)
    requires w.offsets.groups[group].generation < e.generation
    requires w.offsets.revision < MAX_OFFSET
    requires Transition(w.offsets, w.offsets.revision, e, w.cat) == Some(n)
    requires n.groups == w.offsets.groups[group := AssignedGroup(w.offsets.groups[group], w.offsets.revision, e)]
    ensures Inv(Append(w, e, outcome)) && (Append(w, e, outcome).refused <==> w.refused)
    ensures NoOlder(w.offsets, Append(w, e, outcome).offsets)
    ensures CursorsOk(n, w.delivered, NewCursors(group, e.generation, e.placed))
  {
    hide Valid, CatalogHistory.Valid, Transition, CursorOk, PlacedOk, GroupDelivered;
    var g := w.offsets.groups[group];
    var offset: Offset := w.offsets.revision;
    assert GroupDelivered(w.delivered, group, g);
    AssignedDelivered(g, group, e, offset, w.delivered);
    forall i | 0 <= i < |w.cursors| ensures CursorOk(n, w.delivered, w.cursors[i]) {
      OlderCursorOk(w.offsets, n, group, w.delivered, w.cursors[i]);
    }
    forall i | 0 <= i < |e.placed| ensures CursorOk(n, w.delivered, NewCursor(group, e.generation, e.placed[i])) {
      PlacedCursorOk(g, group, e, offset, w.delivered, i, n);
    }
    AppendKeeps(w, e, outcome, n);
  }

  lemma ResumableCatalogued(w: World, g: Group, members: seq<Member>, checked: bool)
    requires Resumable(w, g, members, checked)
    ensures Catalogued(members, w.cat)
  {
    hide Subscribed, InCatalog;
    forall k | k in Subscribed(members) ensures InCatalog(w.cat, k) {
      assert ResumeAt(w, g, k, checked).Some?;
    }
  }

  lemma AssignKeeps(w: World, group: GroupId, members: seq<Member>, reason: u8, checked: bool, outcome: Outcome)
    requires Inv(w) && !w.unavailable && group in w.offsets.groups && Prepared(members)
    ensures Inv(Assign(w, group, members, reason, checked, outcome))
    ensures Assign(w, group, members, reason, checked, outcome).refused <==> w.refused
    ensures NoOlder(w.offsets, Assign(w, group, members, reason, checked, outcome).offsets)
  {
    hide Valid, CatalogHistory.Valid, Transition, Prepared, Catalogued, Resumable, NothingSkipped, CursorsOk, PlacedOk,
         Placements;
    var g := w.offsets.groups[group];
    if g.generation < MAX_U64 && Resumable(w, g, members, checked) && w.offsets.revision < MAX_OFFSET {
      var start := ResumeOr0(w, g, checked);
      var e := AssignmentBody(w.offsets.store, w.cat, group, g, reason, members, start);
      ResumableCatalogued(w, g, members, checked);
      AssignmentAccepted(w.offsets, w.cat, group, reason, members, start, w.offsets.revision);
      PlacementsOk(g.progress, members, start);
      var n := Transition(w.offsets, w.offsets.revision, e, w.cat).value;
      ReassignKeeps(w, group, e, outcome, n);
      CursorsJoin(n, w.delivered, w.cursors, NewCursors(group, e.generation, e.placed));
    }
  }

  lemma CursorsJoin(s: State, delivered: set<Delivery>, a: seq<Cursor>, b: seq<Cursor>)
    ensures CursorsOk(s, delivered, a) && CursorsOk(s, delivered, b) ==> CursorsOk(s, delivered, a + b)
  {
    hide CursorOk;
  }

  // -------------------------------------------------------------------- opens

  lemma CreateStepKeeps(w: World, group: GroupId, mode: u8, starts: map<TopicKey, u64>, outcome: Outcome)
    requires Inv(w) && !w.unavailable && EARLIEST <= mode <= EXPLICIT
    requires mode != EXPLICIT ==> starts == map[]
    requires forall k | k in starts :: UserKey(k)
    ensures var n := Create(w, group, mode, starts, outcome);
            && Inv(n) && NoOlder(w.offsets, n.offsets)
            && (group in w.offsets.groups ==> group in n.offsets.groups)
            && (group in n.offsets.groups ==> !n.unavailable && (n.refused <==> w.refused))
            && (group !in n.offsets.groups && !w.refused ==>
                  (n.refused <==> mode == EXPLICIT && starts == map[] && w.offsets.revision < MAX_OFFSET
                                  && (outcome.Acked? || outcome.UnknownDurable?)))
  {
    hide Valid, CatalogHistory.Valid, StartList, Transition, NothingSkipped, CursorsOk, UserKey, InCatalog, NoOlder;
    NoOlderSelf(w.offsets);
    if group !in w.offsets.groups && forall k | k in starts :: Openable(w, k) && Within(w.parts[k], starts[k]) {
      if w.offsets.revision < MAX_OFFSET {
        CreatedAccepted(w.offsets, w.cat, group, mode, starts, w.offsets.revision);
      }
      if !(mode == EXPLICIT && starts == map[]) {
        CreateKeeps(w, group, mode, starts, outcome);
      }
    }
  }

  lemma OnePrepared(session: Id, key: TopicKey)
    requires session != 0 && UserKey(key)
    ensures Prepared([Member(session, [key])])
  {
  }

  lemma OpenOneKeeps(w: World, s: Step)
    requires Inv(w) && s.OpenOne?
    ensures NoOlder(w.offsets, DoOpenOne(w, s).offsets)
    ensures Inv(DoOpenOne(w, s)) && (!w.refused ==> !DoOpenOne(w, s).refused)
  {
    hide Inv, Create, Assign, UserKey, Openable, Prepared;
    if !w.unavailable && UserKey(s.key) && s.session != 0 && EARLIEST <= s.mode <= EXPLICIT {
      var starts: map<TopicKey, u64> := if s.mode == EXPLICIT then map[s.key := s.explicit] else map[];
      assert s.mode == EXPLICIT ==> s.key in starts;
      CreateStepKeeps(w, s.group, s.mode, starts, s.created);
      var n := Create(w, s.group, s.mode, starts, s.created);
      if s.group in n.offsets.groups {
        OnePrepared(s.session, s.key);
        AssignKeeps(n, s.group, [Member(s.session, [s.key])], s.reason, false, s.changed);
      }
    }
  }

  lemma OpenGroupKeeps(w: World, s: Step)
    requires Inv(w) && s.OpenGroup?
    ensures NoOlder(w.offsets, DoOpenGroup(w, s).offsets)
    ensures Inv(DoOpenGroup(w, s)) && (!w.refused ==> (DoOpenGroup(w, s).refused <==> EmptyExplicit(w, s)))
  {
    hide Inv, Create, Assign, UserKey, Openable, Prepared, Subscribed;
    if !w.unavailable && Requested(s) {
      CreateStepKeeps(w, s.group, s.mode, s.starts, s.created);
      var n := Create(w, s.group, s.mode, s.starts, s.created);
      if s.group in n.offsets.groups {
        CreateSame(w, s);
        AssignKeeps(n, s.group, s.members, s.reason, true, s.changed);
      }
    }
  }

  lemma CreateSame(w: World, s: Step)
    requires Inv(w) && s.OpenGroup? && Requested(s) && !w.unavailable
    requires s.group in Create(w, s.group, s.mode, s.starts, s.created).offsets.groups
    ensures !EmptyExplicit(w, s)
  {
    hide CatalogHistory.Valid, Transition, NothingSkipped, CursorsOk;
    if EmptyExplicit(w, s) {
      CreatedAccepted(w.offsets, w.cat, s.group, s.mode, s.starts, w.offsets.revision);
    }
  }

  // ---------------------------------------------------- polls, commits, close

  lemma DeliveredGrow(a: set<Delivery>, b: set<Delivery>, s: State, cursors: seq<Cursor>)
    requires a <= b && NothingSkipped(a, s) && CursorsOk(s, a, cursors)
    ensures NothingSkipped(b, s) && CursorsOk(s, b, cursors)
  {
    forall id | id in s.groups ensures GroupDelivered(b, id, s.groups[id]) {
      assert GroupDelivered(a, id, s.groups[id]);
      var g := s.groups[id];
      forall k | k in g.progress ensures AllDelivered(b, id, k, g.progress[k].initialNext, LatestNext(g.progress[k])) {
        assert AllDelivered(a, id, k, g.progress[k].initialNext, LatestNext(g.progress[k]));
      }
    }
    forall i | 0 <= i < |cursors| ensures CursorOk(s, b, cursors[i]) {
      assert CursorOk(s, a, cursors[i]);
    }
  }

  lemma FinishOk(s: State, delivered: set<Delivery>, c: Cursor)
    requires CursorOk(s, delivered, c) && c.stage.Fetched?
    ensures CursorOk(s, delivered + Returned(c, c.stage.upTo),
                     c.(stage := Free, next := c.stage.upTo, delivered := c.stage.upTo))
  {
  }

  lemma PutOk(s: State, delivered: set<Delivery>, cursors: seq<Cursor>, at: nat, c: Cursor)
    requires CursorsOk(s, delivered, cursors) && at < |cursors| && CursorOk(s, delivered, c)
    ensures CursorsOk(s, delivered, cursors[at := c])
  {
    hide CursorOk;
  }

  /** One handle changes, and is still one the invariant allows. */
  lemma PutKeeps(w: World, at: nat, c: Cursor)
    requires Inv(w) && at < |w.cursors| && CursorOk(w.offsets, w.delivered, c)
    ensures Inv(Put(w, at, c))
  {
    hide Valid, CatalogHistory.Valid, NothingSkipped, CursorsOk, CursorOk, NoOlder;
    PutOk(w.offsets, w.delivered, w.cursors, at, c);
  }

  /** More deliveries never hurt. */
  lemma DeliverKeeps(w: World, more: set<Delivery>)
    requires Inv(w)
    ensures Inv(w.(delivered := w.delivered + more))
  {
    hide Valid, CatalogHistory.Valid, NothingSkipped, CursorsOk, NoOlder;
    NoCursors(w);
    DeliveredGrow(w.delivered, w.delivered + more, w.offsets, w.cursors);
    DeliveredGrow(w.delivered, w.delivered + more, w.durable, []);
  }

  /** A poll that passes the fence hands its records out. */
  lemma FinishKeeps(w: World, at: nat)
    requires Inv(w) && at < |w.cursors| && w.cursors[at].stage.Fetched?
    ensures var c := w.cursors[at];
            var n := c.(stage := Free, next := c.stage.upTo, delivered := c.stage.upTo);
            Inv(Put(w, at, n).(delivered := w.delivered + Returned(c, c.stage.upTo)))
  {
    hide Inv, AllDelivered, Returned;
    var c := w.cursors[at];
    var more := Returned(c, c.stage.upTo);
    HandleOk(w, at);
    DeliverKeeps(w, more);
    FinishOk(w.offsets, w.delivered, c);
    PutKeeps(w.(delivered := w.delivered + more), at,
             c.(stage := Free, next := c.stage.upTo, delivered := c.stage.upTo));
  }

  lemma PollKeeps(w: World, s: Step)
    requires Inv(w) && (s.PollBegin? || s.PollFetch? || s.PollFinish? || s.PollAbort?)
    ensures Inv(DoPoll(w, s)) && (DoPoll(w, s).refused <==> w.refused) && DoPoll(w, s).offsets == w.offsets
  {
    hide Inv, Fenced, AllDelivered, Returned;
    if s.at < |w.cursors| {
      var c, n := w.cursors[s.at], DoPoll(w, s);
      HandleOk(w, s.at);
      if s.PollFinish? && c.stage.Fetched? && Fenced(w, c) {
        FinishKeeps(w, s.at);
      } else if n != w {
        PutKeeps(w, s.at, n.cursors[s.at]);
      }
    }
  }

  lemma HandleOk(w: World, at: nat)
    requires Inv(w) && at < |w.cursors|
    ensures CursorOk(w.offsets, w.delivered, w.cursors[at])
  {
    hide Valid, CatalogHistory.Valid, NothingSkipped, CursorOk, NoOlder;
  }

  lemma CursorAt(s: State, delivered: set<Delivery>, cursors: seq<Cursor>, at: nat)
    requires CursorsOk(s, delivered, cursors) && at < |cursors|
    ensures CursorOk(s, delivered, cursors[at])
  {
  }

  lemma CommittedDelivered(g: Group, id: GroupId, e: Event, delivered: set<Delivery>)
    requires e.OffsetCommitted? && e.key in g.progress && GroupDelivered(delivered, id, g)
    requires AllDelivered(delivered, id, e.key, g.progress[e.key].initialNext, e.next)
    ensures GroupDelivered(delivered, id, CommittedGroup(g, e))
  {
  }

  lemma CommittedCursorOk(s: State, t: State, id: GroupId, e: Event, delivered: set<Delivery>, c: Cursor)
    requires CursorOk(s, delivered, c) && id in s.groups && e.OffsetCommitted? && e.key in s.groups[id].progress
    requires t.groups == s.groups[id := CommittedGroup(s.groups[id], e)]
    ensures CursorOk(t, delivered, c)
  {
  }

  lemma CommitKeeps(w: World, s: Step)
    requires Inv(w) && s.Commit?
    ensures NoOlder(w.offsets, DoCommit(w, s).offsets)
    ensures Inv(DoCommit(w, s)) && (DoCommit(w, s).refused <==> w.refused)
  {
    hide Valid, CatalogHistory.Valid, Transition, CursorOk, GroupDelivered;
    if DoCommit(w, s) != w && w.offsets.revision < MAX_OFFSET {
      var c := w.cursors[s.at];
      var g := w.offsets.groups[c.group];
      var e := CommitBody(w.offsets.store, w.cat, c.group, c.session, c.generation, c.key, g.progress[c.key], s.next);
      CommitAccepted(w.offsets, w.cat, c.group, c.session, c.key, s.next, w.offsets.revision);
      var n := Transition(w.offsets, w.offsets.revision, e, w.cat).value;
      assert GroupDelivered(w.delivered, c.group, g);
      DeliveredUpTo(w.offsets, w.delivered, c, s.next);
      CommittedDelivered(g, c.group, e, w.delivered);
      forall i | 0 <= i < |w.cursors| ensures CursorOk(n, w.delivered, w.cursors[i]) {
        CommittedCursorOk(w.offsets, n, c.group, e, w.delivered, w.cursors[i]);
      }
      AppendKeeps(w, e, s.outcome, n);
    }
  }

  lemma DeliveredUpTo(s: State, delivered: set<Delivery>, c: Cursor, next: u64)
    requires CursorOk(s, delivered, c) && c.generation == s.groups[c.group].generation
    requires c.key in s.groups[c.group].progress && next <= c.delivered
    ensures AllDelivered(delivered, c.group, c.key, s.groups[c.group].progress[c.key].initialNext, next)
  {
  }

  lemma RevokeKeeps(w: World, group: GroupId, outcome: Outcome)
    requires Inv(w) && !w.unavailable && group in w.offsets.groups && w.offsets.groups[group].generation < MAX_U64
    ensures var n := Append(w, RevocationBody(w.offsets.store, w.cat, group, w.offsets.groups[group]), outcome);
            && Inv(n) && (n.refused <==> w.refused) && NoOlder(w.offsets, n.offsets) && n.cursors == w.cursors
  {
    hide Valid, CatalogHistory.Valid, Transition, NothingSkipped, CursorsOk, NoOlder, AssignedGroup;
    NoOlderSelf(w.offsets);
    if w.offsets.revision < MAX_OFFSET {
      var e := RevocationBody(w.offsets.store, w.cat, group, w.offsets.groups[group]);
      RevocationAccepted(w.offsets, w.cat, group, w.offsets.revision);
      ReassignKeeps(w, group, e, outcome, Transition(w.offsets, w.offsets.revision, e, w.cat).value);
    }
  }

  lemma LoseKeeps(w: World, at: nat)
    requires Inv(w) && at < |w.cursors|
    ensures Inv(Put(w, at, w.cursors[at].(lost := true)))
  {
    hide Inv;
    HandleOk(w, at);
    PutKeeps(w, at, w.cursors[at].(lost := true));
  }

  lemma CloseKeeps(w: World, s: Step)
    requires Inv(w) && s.Close?
    ensures NoOlder(w.offsets, DoClose(w, s).offsets)
    ensures Inv(DoClose(w, s)) && (DoClose(w, s).refused <==> w.refused)
  {
    hide Inv, Append, NoOlder;
    NoOlderSelf(w.offsets);
    if s.at < |w.cursors| {
      var c := w.cursors[s.at];
      var revokes := !c.lost && !w.unavailable && c.group in w.offsets.groups
                     && w.offsets.groups[c.group].generation == c.generation < MAX_U64
                     && OwnerIs(w.offsets.groups[c.group], c);
      if revokes { RevokeKeeps(w, c.group, s.outcome); }
      LoseKeeps(if revokes then Append(w, RevocationBody(w.offsets.store, w.cat, c.group, w.offsets.groups[c.group]),
                                       s.outcome) else w, s.at);
    }
  }

  // --------------------------------------------------------------- every run

  lemma StepKeeps(w: World, s: Step)
    requires Inv(w)
    ensures Inv(Do(w, s)) && NoOlder(w.offsets, Do(w, s).offsets)
    ensures !w.refused ==> (Do(w, s).refused <==> EmptyExplicit(w, s))
  {
    hide Valid, CatalogHistory.Valid, NothingSkipped, CursorsOk, DoPoll, DoCommit, DoClose, DoOpenOne, DoOpenGroup,
         Catalog.Transition, NoOlder, Requested;
    NoOlderSelf(w.offsets);
    NoOlderSelf(w.durable);
    match s
    case OpenOne(_, _, _, _, _, _, _, _) => OpenOneKeeps(w, s);
    case OpenGroup(_, _, _, _, _, _, _) => OpenGroupKeeps(w, s);
    case Commit(_, _, _) => CommitKeeps(w, s);
    case Close(_, _) => CloseKeeps(w, s);
    case Expire(at) =>
      if at < |w.cursors| { LoseKeeps(w, at); }
    case LogMoves(_, _) =>
    case CatalogGrows(e) =>
      if w.cat.revision < MAX_OFFSET && Catalog.Transition(w.cat, w.cat.revision, e).Some? {
        CatalogHistory.TransitionValid(w.cat, e);
        CatalogHistory.TransitionExtends(w.cat, e);
        var d := Catalog.Transition(w.cat, w.cat.revision, e).value;
        ValidStable(w.offsets, w.cat, d);
        ValidStable(w.durable, w.cat, d);
      }
    case Restart => NoCursors(w);
    case PollBegin(_) => PollKeeps(w, s);
    case PollFetch(_, _) => PollKeeps(w, s);
    case PollFinish(_) => PollKeeps(w, s);
    case PollAbort(_) => PollKeeps(w, s);
  }

  lemma NoOlderSelf(s: State)
    ensures NoOlder(s, s)
  {
  }

  lemma NoCursors(w: World)
    ensures CursorsOk(w.offsets, w.delivered, []) && CursorsOk(w.durable, w.delivered, [])
  {
  }

  lemma {:induction false} RunKeeps(w: World, steps: seq<Step>)
    requires Inv(w)
    ensures Inv(Run(w, steps)) && NoOlder(w.offsets, Run(w, steps).offsets)
    decreases steps
  {
    hide Inv, Do;
    if steps != [] {
      StepKeeps(w, steps[0]);
      RunKeeps(Do(w, steps[0]), steps[1..]);
    }
  }

  /** Fencing is final: once a later assignment exists, no run lets the older
      handle pass the fence again, not even across a restart. */
  lemma {:induction false} FencedOutForGood(w: World, c: Cursor, steps: seq<Step>)
    requires Inv(w) && c.group in w.offsets.groups && c.generation < w.offsets.groups[c.group].generation
    ensures !Fenced(Run(w, steps), c)
  {
    hide Inv, Run;
    RunKeeps(w, steps);
  }

  /** A freshly opened store with no groups. */
  predicate Initial(w: World) {
    && w.offsets == w.durable && w.offsets.groups == map[] && w.offsets.store != 0
    && !w.unavailable && !w.refused && !w.torn && !w.shut && w.cursors == []
  }

  /** At least once: in every run, through fencing, expiry, unknown appends,
      retention and restarts, every offset from a key's recorded baseline up to
      its committed position was returned by a successful Poll of the group. */
  lemma {:induction false} AtLeastOnce(w: World, steps: seq<Step>, id: GroupId, key: TopicKey, offset: u64)
    requires Initial(w) && CatalogHistory.Valid(w.cat) && w.cat.revision > 0
    requires var d := Run(w, steps).durable;
             && id in d.groups && key in d.groups[id].progress
             && d.groups[id].progress[key].initialNext <= offset < LatestNext(d.groups[id].progress[key])
    ensures Delivery(id, key, offset) in Run(w, steps).delivered
  {
    hide Run, CatalogHistory.Valid, Inv, Initial, NoOlder;
    InitialInv(w);
    RunKeeps(w, steps);
    Handed(Run(w, steps), id, key, offset);
  }

  lemma InitialInv(w: World)
    requires Initial(w) && CatalogHistory.Valid(w.cat) && w.cat.revision > 0
    ensures Inv(w)
  {
  }

  lemma Handed(w: World, id: GroupId, key: TopicKey, offset: u64)
    requires Inv(w) && id in w.durable.groups && key in w.durable.groups[id].progress
    requires var p := w.durable.groups[id].progress[key]; p.initialNext <= offset < LatestNext(p)
    ensures Delivery(id, key, offset) in w.delivered
  {
    hide CatalogHistory.Valid, Valid, NoOlder, CursorsOk;
    assert GroupDelivered(w.delivered, id, w.durable.groups[id]);
    var p := w.durable.groups[id].progress[key];
    assert AllDelivered(w.delivered, id, key, p.initialNext, LatestNext(p));
  }

  // ------------------------------------------------- what success establishes

  /** An acknowledged commit inside the delivered prefix moves exactly its key,
      in memory and durably. */
  lemma CommitTakes(w: World, s: Step)
    requires Inv(w) && s.Commit? && s.outcome.Acked? && s.at < |w.cursors| && w.offsets.revision < MAX_OFFSET
    requires w.cursors[s.at].stage.Free? && Fenced(w, w.cursors[s.at])
    requires var c := w.cursors[s.at];
             && c.key in w.offsets.groups[c.group].progress
             && LatestNext(w.offsets.groups[c.group].progress[c.key]) <= s.next <= c.delivered
             && s.next <= w.parts[c.key].end
    ensures var c, n := w.cursors[s.at], Do(w, s);
            && !n.unavailable && n.durable == n.offsets && c.group in n.offsets.groups
            && n.offsets.groups[c.group].progress ==
               w.offsets.groups[c.group].progress[c.key :=
                 Progress(w.offsets.groups[c.group].progress[c.key].initialNext, true, s.next)]
            && (forall id | id in w.offsets.groups && id != c.group ::
                  id in n.offsets.groups && n.offsets.groups[id] == w.offsets.groups[id])
  {
    hide Valid, CatalogHistory.Valid, Transition, CursorsOk, NothingSkipped, NoOlder;
    var c := w.cursors[s.at];
    CommitAccepted(w.offsets, w.cat, c.group, c.session, c.key, s.next, w.offsets.revision);
  }

  /** A poll nobody fences out returns the records it fetched, and no more. */
  lemma PollDelivers(w: World, at: nat, upTo: u64)
    requires Inv(w) && at < |w.cursors| && w.cursors[at].stage.Free? && Fenced(w, w.cursors[at])
    requires var c := w.cursors[at]; Within(w.parts[c.key], c.next) && c.next <= upTo <= w.parts[c.key].end
    ensures var n := Do(Do(Do(w, PollBegin(at)), PollFetch(at, upTo)), PollFinish(at));
            && n.delivered == w.delivered + Returned(w.cursors[at], upTo)
            && n.cursors == w.cursors[at := w.cursors[at].(next := upTo, delivered := upTo)]
  {
    hide Inv, Fenced;
    var c := w.cursors[at];
    FencedOpen(w, c);
    var a := Do(w, PollBegin(at));
    var b := Do(a, PollFetch(at, upTo));
    FencedStage(w, a, c, Begun);
    FencedStage(w, b, c, Fetched(upTo));
  }

  lemma FencedOpen(w: World, c: Cursor)
    requires Inv(w) && Fenced(w, c)
    ensures !w.shut
  {
  }

  lemma FencedStage(w: World, n: World, c: Cursor, stage: Stage)
    requires Fenced(w, c) && n == w.(cursors := n.cursors)
    ensures Fenced(n, c.(stage := stage))
  {
  }

  /** Every handle an acknowledged assignment hands out passes the fence, and one
      is handed out for each subscribed key. */
  lemma {:induction false} AssignFences(w: World, group: GroupId, members: seq<Member>, reason: u8, checked: bool,
                                        k: TopicKey)
    requires Inv(w) && !w.unavailable && group in w.offsets.groups && Prepared(members)
    requires w.offsets.revision < MAX_OFFSET && w.offsets.groups[group].generation < MAX_U64
    requires Resumable(w, w.offsets.groups[group], members, checked) && k in Subscribed(members)
    ensures var n := Assign(w, group, members, reason, checked, Acked);
            exists i :: |w.cursors| <= i < |n.cursors| && n.cursors[i].key == k && Fenced(n, n.cursors[i])
  {
    hide Valid, CatalogHistory.Valid, Transition, Prepared, Catalogued, Resumable, NothingSkipped, CursorsOk,
         Subscribed, NoOlder, Placements, Fenced, AssignedGroup;
    var g := w.offsets.groups[group];
    var start := ResumeOr0(w, g, checked);
    var e := AssignmentBody(w.offsets.store, w.cat, group, g, reason, members, start);
    ResumableCatalogued(w, g, members, checked);
    AssignmentAccepted(w.offsets, w.cat, group, reason, members, start, w.offsets.revision);
    TransitionValid(w.offsets, e, w.cat);
    var i := PlacedAt(g.progress, members, start, k);
    ResumableAt(w, g, members, checked, k);
    var n := Assign(w, group, members, reason, checked, Acked);
    var c := n.cursors[|w.cursors| + i];
    assert c == NewCursor(group, e.generation, e.placed[i]);
    PlacedFenced(n, g, group, e, w.offsets.revision, i);
  }

  lemma PlacedAt(progress: map<TopicKey, Progress>, members: seq<Member>, start: TopicKey -> u64, k: TopicKey)
    returns (i: nat)
    requires k in Subscribed(members)
    ensures i < |Placements(progress, members, start)|
    ensures var p := Placements(progress, members, start)[i]; p.key == k && p.owner == Subscribed(members)[k]
  {
    hide OrderedKeys, Subscribed;
    OrderedKeysAt(members);
    var keys := OrderedKeys(members);
    i :| 0 <= i < |keys| && keys[i] == k;
  }

  lemma PlacedFenced(n: World, g: Group, group: GroupId, e: Event, offset: Offset, i: nat)
    requires !n.unavailable && group in n.offsets.groups && e.AssignmentChanged? && i < |e.placed|
    requires n.offsets.groups[group] == AssignedGroup(g, offset, e) && e.instance == n.offsets.store
    requires e.placed[i].key in Subscribed(e.members) && e.placed[i].owner == Subscribed(e.members)[e.placed[i].key]
    requires e.placed[i].key in n.parts
    ensures Fenced(n, NewCursor(group, e.generation, e.placed[i]))
  {
    hide Subscribed;
  }

  lemma {:induction false} ResumableAt(w: World, g: Group, members: seq<Member>, checked: bool, k: TopicKey)
    requires Resumable(w, g, members, checked) && k in Subscribed(members)
    ensures ResumeAt(w, g, k, checked).Some?
  {
  }

  // ------------------------------------------------------ explicit, but empty

  /** A store whose offsets log no restart accepts: groups stay unavailable, and
      the first restart shuts the store for good. */
  lemma {:induction false} BrokenStays(w: World, steps: seq<Step>)
    requires (w.refused || w.torn) && w.unavailable
    ensures Run(w, steps).unavailable && (w.shut || Restart in steps ==> Run(w, steps).shut)
    decreases steps
  {
    hide Transition, Catalog.Transition;
    if steps != [] {
      var n := Do(w, steps[0]);
      assert Restart in steps ==> steps[0] == Restart || Restart in steps[1..];
      assert w.shut || steps[0] == Restart ==> n.shut;
      BrokenStays(n, steps[1..]);
    }
  }

  /** Whether an appended event is ever refused: exactly when a new group asks
      for explicit starts and subscribes to nothing. From then on groups are
      unavailable in every run, and after a restart the whole store is. */
  lemma {:induction false} RefusedExactly(w: World, s: Step, steps: seq<Step>)
    requires Inv(w) && !w.refused
    ensures Do(w, s).refused <==> EmptyExplicit(w, s)
    ensures EmptyExplicit(w, s) ==>
              Run(Do(w, s), steps).unavailable && (Restart in steps ==> Run(Do(w, s), steps).shut)
  {
    hide Inv, Run, Requested;
    StepKeeps(w, s);
    if EmptyExplicit(w, s) {
      RefusedUnavailable(w, s);
      BrokenStays(Do(w, s), steps);
    }
  }

  lemma RefusedUnavailable(w: World, s: Step)
    requires Inv(w) && EmptyExplicit(w, s)
    ensures Do(w, s).refused && Do(w, s).unavailable
  {
    hide CatalogHistory.Valid, Transition, NothingSkipped, CursorsOk, Requested, Assign;
    assert Requested(s) ==> s.mode == EXPLICIT;
    CreatedAccepted(w.offsets, w.cat, s.group, s.mode, s.starts, w.offsets.revision);
  }

  /** Such a request exists in every new store: one member, no subscriptions. */
  lemma EmptyExplicitExample(w: World)
    requires Initial(w) && CatalogHistory.Valid(w.cat) && w.cat.revision > 0 && w.offsets.revision < MAX_OFFSET
    ensures Do(w, OpenGroup([103], [Member(1, [])], EXPLICIT, map[], 1, Acked, Acked)).refused
  {
    hide CatalogHistory.Valid, Do;
    var s := OpenGroup([103], [Member(1, [])], EXPLICIT, map[], 1, Acked, Acked);
    assert Subscribed([Member(1, [])]) == map[];
    InitialInv(w);
    assert EmptyExplicit(w, s);
    StepKeeps(w, s);
  }
}
