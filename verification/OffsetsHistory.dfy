/** What every reachable offsets projection satisfies, over whole histories. */
module OffsetsHistory {
  import opened Base
  import opened Offsets
  import Catalog
  import CatalogHistory

  // -------------------------------------------------------------- invariants

  predicate ProgressOk(p: Progress) {
    if p.hasCommit then p.initialNext <= p.committedNext else p.committedNext == 0
  }

  /** The position a placement recorded lies between the baseline and the
      latest position of its key. */
  predicate PlacementTracked(a: Placement, progress: map<TopicKey, Progress>) {
    && ValidKey(a.key) && a.owner != 0
    && a.key in progress
    && (if a.action == 1 then a.resume == a.initial == progress[a.key].initialNext
        else a.action == 0 && a.initial == 0
             && progress[a.key].initialNext <= a.resume <= LatestNext(progress[a.key]))
  }

  ghost predicate CreationOk(g: Group, id: GroupId, store: Id, cat: Catalog.State) {
    var b := g.creationBody;
    && b.GroupCreated? && b.group == id && b.store == store
    && 0 < b.catalogNext <= cat.revision
    && ModeOk(b.startMode, b.starts) && StartsOk(b.starts, cat, b.catalogNext)
    && g.startMode == b.startMode && g.explicitStarts == StartMap(b.starts)
  }

  ghost predicate AssignmentOk(g: Group, id: GroupId, store: Id, cat: Catalog.State)
    requires g.assignmentBody.Some?
  {
    var b := g.assignmentBody.value;
    && b.AssignmentChanged? && b.group == id && b.store == store
    && 0 < b.catalogNext <= cat.revision
    && b.instance != 0 && g.instance == b.instance
    && g.generation == b.generation == WrappingSucc(b.expected)
    && MembersOk(b.members, cat, b.catalogNext)
    && g.members == Sessions(b.members)
    && g.owners == Subscribed(b.members) == OwnerMap(b.placed)
    && (forall i | 0 <= i < |b.placed| :: PlacementTracked(b.placed[i], g.progress))
    && (forall i, j | 0 <= i < j < |b.placed| :: KeyLess(b.placed[i].key, b.placed[j].key))
  }

  ghost predicate GroupOk(g: Group, id: GroupId, store: Id, revision: u64, cat: Catalog.State) {
    && g.creationOffset < revision
    && CreationOk(g, id, store, cat)
    && (if g.assignmentBody.Some? then g.assignmentOffset < revision && AssignmentOk(g, id, store, cat)
        else g == NewGroup(g.creationOffset, g.creationBody))
    && (forall k | k in g.progress :: ProgressOk(g.progress[k]) && ValidKey(k) && Known(cat, k, cat.revision))
  }

  ghost predicate Valid(s: State, cat: Catalog.State) {
    forall id | id in s.groups :: GroupOk(s.groups[id], id, s.store, s.revision, cat)
  }

  lemma {:induction false} NextProgressAt(progress: map<TopicKey, Progress>, placed: seq<Placement>, i: nat)
    requires forall i, j | 0 <= i < j < |placed| :: KeyLess(placed[i].key, placed[j].key)
    requires i < |placed| && BaselineOk(progress, placed[i])
    ensures placed[i].key in NextProgress(progress, placed)
    ensures NextProgress(progress, placed)[placed[i].key] ==
            if placed[i].action == 1 then Progress(placed[i].initial, false, 0) else progress[placed[i].key]
  {
    var n := |placed| - 1;
    if i < n {
      NextProgressAt(progress, placed[..n], i);
    } else {
      NextProgressUntouched(progress, placed[..n], placed[n].key);
    }
  }

  lemma {:induction false} NextProgressKeys(progress: map<TopicKey, Progress>, placed: seq<Placement>, key: TopicKey)
    requires forall i, j | 0 <= i < j < |placed| :: KeyLess(placed[i].key, placed[j].key)
    requires forall i | 0 <= i < |placed| :: BaselineOk(progress, placed[i])
    ensures key in progress ==>
            key in NextProgress(progress, placed) && NextProgress(progress, placed)[key] == progress[key]
    ensures key in NextProgress(progress, placed) && key !in progress ==>
              exists i :: 0 <= i < |placed| && placed[i].key == key
                          && NextProgress(progress, placed)[key] == Progress(placed[i].initial, false, 0)
  {
    if i :| 0 <= i < |placed| && placed[i].key == key {
      NextProgressAt(progress, placed, i);
    } else {
      NextProgressUntouched(progress, placed, key);
    }
  }

  lemma {:induction false} SubscribedKnown(members: seq<Member>, cat: Catalog.State, catalogNext: u64, key: TopicKey)
    requires MembersOk(members, cat, catalogNext) && key in Subscribed(members)
    ensures ValidKey(key) && Known(cat, key, catalogNext)
  {
    SubscribedAt(members, key);
    var i :| Subscribes(members, i, key);
    assert SubscriptionsOk(members[i].subscriptions, cat, catalogNext);
  }

  lemma AssignedGroupOk(g: Group, id: GroupId, store: Id, offset: Offset, revision: u64, e: Event, cat: Catalog.State)
    requires GroupOk(g, id, store, revision, cat) && revision <= offset
    requires e.AssignmentChanged? && e.group == id && e.store == store && 0 < e.catalogNext <= cat.revision
    requires AssignmentAllowed(g, e, cat)
    ensures GroupOk(AssignedGroup(g, offset, e), id, store, offset + 1, cat)
  {
    hide MembersOk, Known, StartsOk;
    var n := AssignedGroup(g, offset, e);
    forall i | 0 <= i < |e.placed| ensures PlacementTracked(e.placed[i], n.progress) {
      assert PlacementOk(e.placed[i], Subscribed(e.members), g.progress);
      NextProgressAt(g.progress, e.placed, i);
    }
    forall k | k in n.progress
      ensures ProgressOk(n.progress[k]) && ValidKey(k) && Known(cat, k, cat.revision)
    {
      NextProgressKeys(g.progress, e.placed, k);
      if k !in g.progress {
        var i :| 0 <= i < |e.placed| && e.placed[i].key == k;
        assert PlacementOk(e.placed[i], Subscribed(e.members), g.progress);
        SubscribedKnown(e.members, cat, e.catalogNext, k);
        KnownLater(cat, k, e.catalogNext);
      }
    }
  }

  lemma KnownLater(cat: Catalog.State, key: TopicKey, catalogNext: u64)
    requires Known(cat, key, catalogNext) && catalogNext <= cat.revision
    ensures Known(cat, key, cat.revision)
  {
  }

  lemma CommittedGroupOk(g: Group, id: GroupId, store: Id, offset: Offset, revision: u64, e: Event, cat: Catalog.State)
    requires GroupOk(g, id, store, revision, cat) && revision <= offset
    requires e.OffsetCommitted? && CommitAllowed(g, e, cat)
    ensures GroupOk(CommittedGroup(g, e), id, store, offset + 1, cat)
  {
    hide MembersOk, Known, StartsOk, Subscribed, OwnerMap;
    var n := CommittedGroup(g, e);
    var b := g.assignmentBody.value;
    forall i | 0 <= i < |b.placed| ensures PlacementTracked(b.placed[i], n.progress) {
      assert PlacementTracked(b.placed[i], g.progress);
    }
  }

  /** An accepted record at the log end keeps the projection valid. */
  lemma TransitionValid(s: State, e: Event, cat: Catalog.State)
    requires Valid(s, cat) && s.revision < MAX_OFFSET && Transition(s, s.revision, e, cat).Some?
    ensures Valid(Transition(s, s.revision, e, cat).value, cat)
    ensures Transition(s, s.revision, e, cat).value.revision == s.revision + 1
    ensures Transition(s, s.revision, e, cat).value.store == s.store
  {
    var n := Transition(s, s.revision, e, cat).value;
    var offset: Offset := s.revision;
    hide MembersOk, PlacedOk, StartsOk, Known;
    forall id | id in n.groups ensures GroupOk(n.groups[id], id, n.store, n.revision, cat) {
      if id != e.group {
        assert GroupOk(s.groups[id], id, s.store, s.revision, cat);
      } else if e.AssignmentChanged? {
        AssignedGroupOk(s.groups[id], id, s.store, offset, s.revision, e, cat);
      } else if e.OffsetCommitted? {
        CommittedGroupOk(s.groups[id], id, s.store, offset, s.revision, e, cat);
      }
    }
  }

  // ------------------------------------------------------- catalog stability

  /** What was known at an old revision stays known, and nothing new joins it. */
  lemma KnownStable(c: Catalog.State, d: Catalog.State, key: TopicKey, next: u64)
    requires CatalogHistory.Extends(c, d) && next <= c.revision
    ensures Known(c, key, next) <==> Known(d, key, next)
  {
    if key.topic in c.topics {
      assert CatalogHistory.SameShape(c.topics[key.topic], d.topics[key.topic]);
    }
  }

  lemma StartsStable(c: Catalog.State, d: Catalog.State, starts: seq<Start>, next: u64)
    requires CatalogHistory.Extends(c, d) && next <= c.revision
    ensures StartsOk(starts, c, next) <==> StartsOk(starts, d, next)
  {
    hide Known, CatalogHistory.Extends;
    forall i | 0 <= i < |starts| ensures Known(c, starts[i].key, next) <==> Known(d, starts[i].key, next) {
      KnownStable(c, d, starts[i].key, next);
    }
  }

  lemma SubscriptionsStable(c: Catalog.State, d: Catalog.State, subs: seq<TopicKey>, next: u64)
    requires CatalogHistory.Extends(c, d) && next <= c.revision
    ensures SubscriptionsOk(subs, c, next) <==> SubscriptionsOk(subs, d, next)
  {
    hide Known, CatalogHistory.Extends;
    forall i | 0 <= i < |subs| ensures Known(c, subs[i], next) <==> Known(d, subs[i], next) {
      KnownStable(c, d, subs[i], next);
    }
  }

  lemma MembersStable(c: Catalog.State, d: Catalog.State, members: seq<Member>, next: u64)
    requires CatalogHistory.Extends(c, d) && next <= c.revision
    ensures MembersOk(members, c, next) <==> MembersOk(members, d, next)
  {
    hide SubscriptionsOk, CatalogHistory.Extends;
    forall i | 0 <= i < |members|
      ensures SubscriptionsOk(members[i].subscriptions, c, next) <==> SubscriptionsOk(members[i].subscriptions, d, next)
    {
      SubscriptionsStable(c, d, members[i].subscriptions, next);
    }
  }

  /** Catalog-extension stability: an event that names a revision the catalog has
      reached gets the same verdict and the same next state from every later
      catalog. */
  lemma TransitionStable(s: State, offset: Offset, e: Event, c: Catalog.State, d: Catalog.State)
    requires CatalogHistory.Extends(c, d) && e.catalogNext <= c.revision
    ensures Transition(s, offset, e, c) == Transition(s, offset, e, d)
  {
    hide MembersOk, StartsOk, Known, PlacedOk;
    assert c.revision <= d.revision;
    match e
    case GroupCreated(_, next, _, _, starts) => StartsStable(c, d, starts, next);
    case AssignmentChanged(_, next, _, _, _, _, _, members, _) => MembersStable(c, d, members, next);
    case OffsetCommitted(_, next, _, _, _, _, key, _, _, _) => KnownStable(c, d, key, next);
  }

  /** Validity carries over to every later catalog. */
  lemma ValidStable(s: State, c: Catalog.State, d: Catalog.State)
    requires CatalogHistory.Extends(c, d) && Valid(s, c)
    ensures Valid(s, d)
  {
    hide MembersOk, StartsOk, Known;
    forall id | id in s.groups ensures GroupOk(s.groups[id], id, s.store, s.revision, d) {
      var g := s.groups[id];
      assert GroupOk(g, id, s.store, s.revision, c);
      StartsStable(c, d, g.creationBody.starts, g.creationBody.catalogNext);
      if g.assignmentBody.Some? {
        var b := g.assignmentBody.value;
        MembersStable(c, d, b.members, b.catalogNext);
      }
      forall k | k in g.progress ensures Known(d, k, d.revision) {
        KnownStable(c, d, k, c.revision);
        KnownLater(d, k, c.revision);
      }
    }
  }

  lemma {:induction false} ReplayValid(s: State, events: seq<Event>, cat: Catalog.State)
    requires Valid(s, cat) && ReplayFrom(s, s.revision, events, cat).Some?
    ensures Valid(ReplayFrom(s, s.revision, events, cat).value, cat)
    ensures ReplayFrom(s, s.revision, events, cat).value.revision == s.revision + |events|
    ensures ReplayFrom(s, s.revision, events, cat).value.store == s.store
    decreases events
  {
    hide Transition, Valid;
    if events != [] {
      TransitionValid(s, events[0], cat);
      ReplayValid(Transition(s, s.revision, events[0], cat).value, events[1..], cat);
    }
  }

  // ----------------------------------------------------------- live histories

  datatype SystemEvent = OnCatalog(catalog: Catalog.Event) | OnOffsets(offsets: Event)
  datatype System = System(cat: Catalog.State, offs: State)

  /** Live application: each record is appended at the end of its log and
      applied against the catalog of that moment. */
  function LiveStep(s: System, e: SystemEvent): Option<System> {
    match e
    case OnCatalog(c) =>
      if s.cat.revision >= MAX_OFFSET then None
      else (match Catalog.Transition(s.cat, s.cat.revision, c)
            case None => None
            case Some(n) => Some(s.(cat := n)))
    case OnOffsets(o) =>
      if s.offs.revision >= MAX_OFFSET then None
      else (match Transition(s.offs, s.offs.revision, o, s.cat)
            case None => None
            case Some(n) => Some(s.(offs := n)))
  }

  function Live(s: System, events: seq<SystemEvent>): Option<System>
    decreases events
  {
    if events == [] then Some(s)
    else match LiveStep(s, events[0])
      case None => None
      case Some(n) => Live(n, events[1..])
  }

  function CatalogLog(events: seq<SystemEvent>): seq<Catalog.Event> {
    if events == [] then []
    else (if events[0].OnCatalog? then [events[0].catalog] else []) + CatalogLog(events[1..])
  }

  function OffsetsLog(events: seq<SystemEvent>): seq<Event> {
    if events == [] then []
    else (if events[0].OnOffsets? then [events[0].offsets] else []) + OffsetsLog(events[1..])
  }

  ghost predicate ValidSystem(s: System) {
    CatalogHistory.Valid(s.cat) && Valid(s.offs, s.cat)
  }

  lemma LiveStepValid(s: System, e: SystemEvent)
    requires ValidSystem(s) && LiveStep(s, e).Some?
    ensures ValidSystem(LiveStep(s, e).value)
    ensures CatalogHistory.Extends(s.cat, LiveStep(s, e).value.cat)
    ensures LiveStep(s, e).value.offs.store == s.offs.store
  {
    hide Transition, Valid, Catalog.Transition, CatalogHistory.Valid;
    match e
    case OnCatalog(c) =>
      CatalogHistory.TransitionValid(s.cat, c);
      CatalogHistory.TransitionExtends(s.cat, c);
      ValidStable(s.offs, s.cat, LiveStep(s, e).value.cat);
    case OnOffsets(o) => TransitionValid(s.offs, o, s.cat);
  }

  lemma {:induction false} LiveValid(s: System, events: seq<SystemEvent>)
    requires ValidSystem(s) && Live(s, events).Some?
    ensures ValidSystem(Live(s, events).value)
    ensures CatalogHistory.Extends(s.cat, Live(s, events).value.cat)
    ensures Live(s, events).value.offs.store == s.offs.store
    decreases events
  {
    hide LiveStep, ValidSystem;
    if events != [] {
      var n := LiveStep(s, events[0]).value;
      LiveStepValid(s, events[0]);
      LiveValid(n, events[1..]);
      CatalogHistory.ExtendsTransitive(s.cat, n.cat, Live(s, events).value.cat);
    }
  }

  /** Restart equals live: replaying the whole catalog log first, and then the
      offsets log against the final catalog, rebuilds the live state of every
      interleaved history. */
  lemma {:induction false} RestartEqualsLive(s: System, events: seq<SystemEvent>)
    requires ValidSystem(s) && Live(s, events).Some?
    ensures var final := Live(s, events).value;
            && Catalog.ReplayFrom(s.cat, s.cat.revision, CatalogLog(events)) == Some(final.cat)
            && ReplayFrom(s.offs, s.offs.revision, OffsetsLog(events), final.cat) == Some(final.offs)
    decreases events
  {
    hide ValidSystem, Transition, Catalog.Transition, CatalogHistory.Extends;
    if events != [] {
      var e := events[0];
      var n := LiveStep(s, e).value;
      var final := Live(s, events).value;
      LiveStepValid(s, e);
      RestartEqualsLive(n, events[1..]);
      LiveValid(n, events[1..]);
      LiveStepRevision(s, e);
      if e.OnCatalog? {
        assert OffsetsLog(events) == OffsetsLog(events[1..]);
        PrependCatalog(s.cat, e.catalog, CatalogLog(events[1..]));
      } else {
        assert CatalogLog(events) == CatalogLog(events[1..]);
        CatalogHistory.ExtendsTransitive(s.cat, n.cat, final.cat);
        NamesReachedRevision(s.offs, s.offs.revision, e.offsets, s.cat);
        TransitionStable(s.offs, s.offs.revision, e.offsets, s.cat, final.cat);
        PrependOffsets(s.offs, e.offsets, OffsetsLog(events[1..]), final.cat);
      }
    }
  }

  lemma LiveStepRevision(s: System, e: SystemEvent)
    requires ValidSystem(s) && LiveStep(s, e).Some?
    ensures e.OnCatalog? ==> LiveStep(s, e).value.cat.revision == s.cat.revision + 1
    ensures e.OnOffsets? ==> LiveStep(s, e).value.offs.revision == s.offs.revision + 1
  {
    if e.OnCatalog? {
      CatalogHistory.TransitionValid(s.cat, e.catalog);
    } else {
      TransitionValid(s.offs, e.offsets, s.cat);
    }
  }

  lemma {:induction false} PrependCatalog(s: Catalog.State, e: Catalog.Event, rest: seq<Catalog.Event>)
    requires s.revision < MAX_OFFSET && Catalog.Transition(s, s.revision, e).Some?
    ensures Catalog.ReplayFrom(s, s.revision, [e] + rest) ==
            Catalog.ReplayFrom(Catalog.Transition(s, s.revision, e).value, s.revision + 1, rest)
  {
    hide Catalog.Transition;
    assert ([e] + rest)[0] == e && ([e] + rest)[1..] == rest;
  }

  lemma {:induction false} PrependOffsets(s: State, e: Event, rest: seq<Event>, cat: Catalog.State)
    requires s.revision < MAX_OFFSET && Transition(s, s.revision, e, cat).Some?
    ensures ReplayFrom(s, s.revision, [e] + rest, cat) ==
            ReplayFrom(Transition(s, s.revision, e, cat).value, s.revision + 1, rest, cat)
  {
    hide Transition;
    assert ([e] + rest)[0] == e && ([e] + rest)[1..] == rest;
  }

  lemma NamesReachedRevision(s: State, offset: Offset, e: Event, cat: Catalog.State)
    requires Transition(s, offset, e, cat).Some?
    ensures e.catalogNext <= cat.revision
  {
  }
}
