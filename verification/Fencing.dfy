/** Fencing over whole offsets histories: the projection is what the log's last
    assignment, first baselines and last commits say, and nothing else. */
module Fencing {
  import opened Base
  import opened Offsets
  import opened OffsetsHistory
  import Catalog

  // ------------------------------------------- reading a history, not a state

  predicate Assigns(e: Event, id: GroupId) { e.AssignmentChanged? && e.group == id }

  predicate Commits(e: Event, id: GroupId, key: TopicKey) { e.OffsetCommitted? && e.group == id && e.key == key }

  function Assignments(events: seq<Event>, id: GroupId): nat {
    if events == [] then 0
    else Assignments(events[..|events| - 1], id) + if Assigns(events[|events| - 1], id) then 1 else 0
  }

  function LastAssignment(events: seq<Event>, id: GroupId): (r: Option<Event>)
    ensures r.Some? ==> Assigns(r.value, id)
  {
    if events == [] then None
    else if Assigns(events[|events| - 1], id) then Some(events[|events| - 1])
    else LastAssignment(events[..|events| - 1], id)
  }

  function LastCommit(events: seq<Event>, id: GroupId, key: TopicKey): Option<u64> {
    if events == [] then None
    else if Commits(events[|events| - 1], id, key) then Some(events[|events| - 1].next)
    else LastCommit(events[..|events| - 1], id, key)
  }

  /** The baseline a placement list creates for a key. */
  function Created(placed: seq<Placement>, key: TopicKey): Option<u64> {
    if placed == [] then None
    else
      var last := placed[|placed| - 1];
      if last.key == key && last.action == 1 then Some(last.initial) else Created(placed[..|placed| - 1], key)
  }

  function FirstBaseline(events: seq<Event>, id: GroupId, key: TopicKey): Option<u64> {
    if events == [] then None
    else
      var before := FirstBaseline(events[..|events| - 1], id, key);
      var last := events[|events| - 1];
      if before.Some? then before
      else if Assigns(last, id) then Created(last.placed, key)
      else None
  }

  /** The progress of a key, read off the history alone. */
  function RecordedProgress(events: seq<Event>, id: GroupId, key: TopicKey): Option<Progress> {
    match FirstBaseline(events, id, key)
    case None => None
    case Some(initial) =>
      match LastCommit(events, id, key)
      case None => Some(Progress(initial, false, 0))
      case Some(next) => Some(Progress(initial, true, next))
  }

  // ---------------------------------------------------------------- tracking

  predicate ProgressRecorded(g: Group, events: seq<Event>, id: GroupId, key: TopicKey) {
    && RecordedProgress(events, id, key) == (if key in g.progress then Some(g.progress[key]) else None)
    && (key !in g.progress ==> LastCommit(events, id, key).None?)
  }

  ghost predicate Recorded(g: Group, events: seq<Event>, id: GroupId) {
    && g.generation == Assignments(events, id)
    && g.assignmentBody == LastAssignment(events, id)
    && (g.assignmentBody.Some? ==>
          && g.owners == Subscribed(g.assignmentBody.value.members)
          && g.instance == g.assignmentBody.value.instance)
    && (g.assignmentBody.None? ==> g.owners == map[])
    && forall key :: ProgressRecorded(g, events, id, key)
  }

  /** Nothing in the history concerns a group that does not exist yet. */
  predicate Unmentioned(events: seq<Event>, id: GroupId) {
    forall i | 0 <= i < |events| :: events[i].group != id
  }

  ghost predicate Tracks(s: State, events: seq<Event>) {
    && s.revision == |events| <= MAX_OFFSET
    && (forall id | id in s.groups :: Recorded(s.groups[id], events, id))
    && (forall id | id !in s.groups :: Unmentioned(events, id))
  }

  lemma {:induction false} UnmentionedEmpty(events: seq<Event>, id: GroupId, key: TopicKey)
    requires Unmentioned(events, id)
    ensures Assignments(events, id) == 0 && LastAssignment(events, id) == None
    ensures LastCommit(events, id, key) == None && FirstBaseline(events, id, key) == None
  {
    if events != [] {
      UnmentionedEmpty(events[..|events| - 1], id, key);
    }
  }

  lemma {:induction false} CreatedAt(progress: map<TopicKey, Progress>, placed: seq<Placement>, key: TopicKey)
    requires forall i, j | 0 <= i < j < |placed| :: KeyLess(placed[i].key, placed[j].key)
    requires forall i | 0 <= i < |placed| :: BaselineOk(progress, placed[i])
    ensures key in NextProgress(progress, placed) <==> key in progress || Created(placed, key).Some?
    ensures key in progress ==> Created(placed, key).None? && NextProgress(progress, placed)[key] == progress[key]
    ensures Created(placed, key).Some? ==>
              key !in progress && NextProgress(progress, placed)[key] == Progress(Created(placed, key).value, false, 0)
  {
    if placed != [] {
      CreatedAt(progress, placed[..|placed| - 1], key);
    }
  }

  lemma RecordedAssignedKey(g: Group, events: seq<Event>, e: Event, offset: Offset, key: TopicKey)
    requires e.AssignmentChanged? && ProgressRecorded(g, events, e.group, key)
    requires forall i, j | 0 <= i < j < |e.placed| :: KeyLess(e.placed[i].key, e.placed[j].key)
    requires forall i | 0 <= i < |e.placed| :: BaselineOk(g.progress, e.placed[i])
    ensures ProgressRecorded(AssignedGroup(g, offset, e), events + [e], e.group, key)
  {
    hide NextProgress, Created, BaselineOk, KeyLess;
    assert (events + [e])[..|events|] == events;
    CreatedAt(g.progress, e.placed, key);
  }

  lemma RecordedAssignment(g: Group, events: seq<Event>, e: Event, offset: Offset, cat: Catalog.State)
    requires Recorded(g, events, e.group) && e.AssignmentChanged? && AssignmentAllowed(g, e, cat)
    requires g.generation < MAX_U64
    ensures Recorded(AssignedGroup(g, offset, e), events + [e], e.group)
  {
    hide MembersOk, NextProgress, Created, Subscribed, OwnerMap;
    var n := AssignedGroup(g, offset, e);
    assert (events + [e])[..|events|] == events;
    forall i | 0 <= i < |e.placed| ensures BaselineOk(g.progress, e.placed[i]) {
      assert PlacementOk(e.placed[i], Subscribed(e.members), g.progress);
    }
    forall key ensures ProgressRecorded(n, events + [e], e.group, key) {
      RecordedAssignedKey(g, events, e, offset, key);
    }
  }

  lemma RecordedCommit(g: Group, events: seq<Event>, e: Event, cat: Catalog.State)
    requires Recorded(g, events, e.group) && e.OffsetCommitted? && CommitAllowed(g, e, cat)
    ensures Recorded(CommittedGroup(g, e), events + [e], e.group)
  {
    var n := CommittedGroup(g, e);
    assert (events + [e])[..|events|] == events;
    forall key ensures ProgressRecorded(n, events + [e], e.group, key) {
      assert ProgressRecorded(g, events, e.group, key);
    }
  }

  lemma RecordedElsewhere(g: Group, events: seq<Event>, e: Event, id: GroupId)
    requires Recorded(g, events, id) && e.group != id
    ensures Recorded(g, events + [e], id)
  {
    assert (events + [e])[..|events|] == events;
    forall key ensures ProgressRecorded(g, events + [e], id, key) {
      assert ProgressRecorded(g, events, id, key);
    }
  }

  lemma RecordedCreation(events: seq<Event>, e: Event, offset: Offset)
    requires Unmentioned(events, e.group) && e.GroupCreated?
    ensures Recorded(NewGroup(offset, e), events + [e], e.group)
  {
    assert (events + [e])[..|events|] == events;
    var g := NewGroup(offset, e);
    forall key ensures ProgressRecorded(g, events + [e], e.group, key) {
      UnmentionedEmpty(events, e.group, key);
    }
    UnmentionedEmpty(events, e.group, TopicKey(0, 0));
  }

  lemma {:induction false} AssignmentsBounded(events: seq<Event>, id: GroupId)
    ensures Assignments(events, id) <= |events|
  {
    if events != [] { AssignmentsBounded(events[..|events| - 1], id); }
  }

  lemma TransitionTracks(s: State, events: seq<Event>, e: Event, cat: Catalog.State)
    requires Tracks(s, events) && s.revision < MAX_OFFSET && Transition(s, s.revision, e, cat).Some?
    ensures Tracks(Transition(s, s.revision, e, cat).value, events + [e])
  {
    hide Recorded, MembersOk, PlacedOk, StartsOk, Known;
    var n := Transition(s, s.revision, e, cat).value;
    forall id | id in n.groups ensures Recorded(n.groups[id], events + [e], id) {
      if id != e.group {
        RecordedElsewhere(s.groups[id], events, e, id);
      } else if e.GroupCreated? {
        RecordedCreation(events, e, s.revision);
      } else if e.AssignmentChanged? {
        AssignmentsBounded(events, id);
        GenerationRecorded(s.groups[id], events, id);
        RecordedAssignment(s.groups[id], events, e, s.revision, cat);
      } else {
        RecordedCommit(s.groups[id], events, e, cat);
      }
    }
  }

  lemma {:induction false} GenerationRecorded(g: Group, events: seq<Event>, id: GroupId)
    requires Recorded(g, events, id)
    ensures g.generation == Assignments(events, id)
  {
  }

  /** Every accepted history: each group's generation counts its assignments, its
      owners are the subscriptions of the last one, its baselines never moved,
      and its positions are its last commits. */
  lemma {:induction false} HistoryTracks(store: Id, events: seq<Event>, cat: Catalog.State)
    requires ReplayFrom(Fresh(store), 0, events, cat).Some?
    ensures Tracks(ReplayFrom(Fresh(store), 0, events, cat).value, events)
  {
    if events != [] {
      var n := |events| - 1;
      var front := events[..n];
      assert events == front + [events[n]];
      ReplaySnoc(store, front, events[n], cat);
      HistoryTracks(store, front, cat);
      TransitionTracks(ReplayFrom(Fresh(store), 0, front, cat).value, front, events[n], cat);
    }
  }

  lemma {:induction false} ReplaySnoc(store: Id, front: seq<Event>, last: Event, cat: Catalog.State)
    requires ReplayFrom(Fresh(store), 0, front + [last], cat).Some?
    ensures |front| < MAX_OFFSET
    ensures ReplayFrom(Fresh(store), 0, front, cat).Some?
    ensures var s := ReplayFrom(Fresh(store), 0, front, cat).value;
            && Transition(s, |front|, last, cat).Some?
            && ReplayFrom(Fresh(store), 0, front + [last], cat) == Transition(s, |front|, last, cat)
  {
    hide Transition;
    ReplaySplit(Fresh(store), 0, front, [last], cat);
  }

  /** A commit is accepted only under the token of the group's last assignment,
      and only from the position the history left: its last commit, or the
      baseline when there is none. */
  lemma {:induction false} CommitsAreFenced(store: Id, events: seq<Event>, cat: Catalog.State, j: nat)
    requires ReplayFrom(Fresh(store), 0, events, cat).Some?
    requires j < |events| && events[j].OffsetCommitted?
    ensures var e := events[j];
            var before := events[..j];
            var holder := LastAssignment(before, e.group);
            var position := RecordedProgress(before, e.group, e.key);
            && holder.Some?
            && e.generation == holder.value.generation == Assignments(before, e.group)
            && e.instance == holder.value.instance
            && e.key in Subscribed(holder.value.members) && Subscribed(holder.value.members)[e.key] == e.session
            && position.Some?
            && e.previous == LatestNext(position.value) <= e.next
            && (e.previousKind == 1 <==> position.value.hasCommit)
  {
    var e, before := events[j], events[..j];
    assert events == events[..j + 1] + events[j + 1..];
    ReplaySplit(Fresh(store), 0, events[..j + 1], events[j + 1..], cat);
    assert events[..j + 1] == before + [e];
    ReplaySnoc(store, before, e, cat);
    HistoryTracks(store, before, cat);
    var s := ReplayFrom(Fresh(store), 0, before, cat).value;
    assert e.group in s.groups && CommitAllowed(s.groups[e.group], e, cat);
    assert Recorded(s.groups[e.group], before, e.group);
    assert ProgressRecorded(s.groups[e.group], before, e.group, e.key);
    HolderGeneration(store, before, cat, e.group);
  }

  lemma {:induction false} HolderGeneration(store: Id, events: seq<Event>, cat: Catalog.State, id: GroupId)
    requires ReplayFrom(Fresh(store), 0, events, cat).Some?
    requires LastAssignment(events, id).Some?
    ensures LastAssignment(events, id).value.generation == Assignments(events, id)
    decreases |events|
  {
    var n := |events| - 1;
    var front, e := events[..n], events[n];
    assert events == front + [e];
    ReplaySnoc(store, front, e, cat);
    if Assigns(e, id) {
      HistoryTracks(store, events, cat);
      HistoryTracks(store, front, cat);
      var s := ReplayFrom(Fresh(store), 0, front, cat).value;
      assert Recorded(s.groups[id], front, id);
      AssignmentsBounded(front, id);
    } else {
      HolderGeneration(store, front, cat, id);
    }
  }

  // ------------------------------------------------------- monotone progress

  /** From one projection to a later one: baselines are kept, positions never
      move back, and no group or key disappears. */
  ghost predicate Advances(s: State, n: State) {
    && (forall id | id in s.groups :: id in n.groups && GroupAdvances(s.groups[id], n.groups[id]))
  }

  ghost predicate GroupAdvances(g: Group, h: Group) {
    && h.creationBody == g.creationBody && h.creationOffset == g.creationOffset
    && h.explicitStarts == g.explicitStarts && h.startMode == g.startMode
    && forall k | k in g.progress ::
         && k in h.progress
         && h.progress[k].initialNext == g.progress[k].initialNext
         && LatestNext(g.progress[k]) <= LatestNext(h.progress[k])
  }

  lemma AssignmentAdvances(g: Group, offset: Offset, e: Event, cat: Catalog.State)
    requires e.AssignmentChanged? && AssignmentAllowed(g, e, cat)
    ensures GroupAdvances(g, AssignedGroup(g, offset, e))
  {
    hide MembersOk;
    forall k | k in g.progress
      ensures k in NextProgress(g.progress, e.placed) && NextProgress(g.progress, e.placed)[k] == g.progress[k]
    {
      forall i | 0 <= i < |e.placed| ensures BaselineOk(g.progress, e.placed[i]) {
        assert PlacementOk(e.placed[i], Subscribed(e.members), g.progress);
      }
      NextProgressKeys(g.progress, e.placed, k);
    }
  }

  lemma {:induction false} ReplayAdvances(s: State, offset: nat, events: seq<Event>, cat: Catalog.State)
    requires ReplayFrom(s, offset, events, cat).Some?
    ensures Advances(s, ReplayFrom(s, offset, events, cat).value)
    decreases events
  {
    hide Transition;
    if events != [] {
      var n := Transition(s, offset, events[0], cat).value;
      TransitionAdvances(s, offset, events[0], cat);
      ReplayAdvances(n, offset + 1, events[1..], cat);
      AdvancesTransitive(s, n, ReplayFrom(s, offset, events, cat).value);
    }
  }

  lemma TransitionAdvances(s: State, offset: Offset, e: Event, cat: Catalog.State)
    requires Transition(s, offset, e, cat).Some?
    ensures Advances(s, Transition(s, offset, e, cat).value)
  {
    hide MembersOk, PlacedOk, StartsOk, Known;
    if e.AssignmentChanged? {
      AssignmentAdvances(s.groups[e.group], offset, e, cat);
    }
  }

  lemma AdvancesTransitive(a: State, b: State, c: State)
    requires Advances(a, b) && Advances(b, c)
    ensures Advances(a, c)
  {
    forall id | id in a.groups ensures id in c.groups && GroupAdvances(a.groups[id], c.groups[id]) {
      assert GroupAdvances(a.groups[id], b.groups[id]);
      assert GroupAdvances(b.groups[id], c.groups[id]);
    }
  }

  // ------------------------------------------------------------- generations

  /** From any state a replay adds one generation per assignment, round the 64-bit
      counter, so a generation falls exactly when its count passes the end. */
  lemma {:induction false} ReplayGenerations(s: State, offset: nat, events: seq<Event>, cat: Catalog.State, id: GroupId)
    requires ReplayFrom(s, offset, events, cat).Some? && id in s.groups
    ensures |events| <= MAX_OFFSET && id in ReplayFrom(s, offset, events, cat).value.groups
    ensures var from, to := s.groups[id].generation, ReplayFrom(s, offset, events, cat).value.groups[id].generation;
            var n := Assignments(events, id);
            && to == (if from + n <= MAX_U64 then from + n else from + n - MAX_U64 - 1)
            && (from <= to <==> from + n <= MAX_U64)
    decreases |events|
  {
    hide Transition;
    HistoryBounded(s, offset, events, cat);
    AssignmentsBounded(events, id);
    if events != [] {
      var front, last := events[..|events| - 1], events[|events| - 1];
      assert events == front + [last];
      ReplaySplit(s, offset, front, [last], cat);
      ReplayGenerations(s, offset, front, cat, id);
      AssignmentsBounded(front, id);
      var m := ReplayFrom(s, offset, front, cat).value;
      assert ReplayFrom(s, offset, events, cat) == Transition(m, offset + |front|, last, cat);
      TransitionGeneration(m, offset + |front|, last, cat, id);
    }
  }

  lemma TransitionGeneration(s: State, offset: Offset, e: Event, cat: Catalog.State, id: GroupId)
    requires Transition(s, offset, e, cat).Some? && id in s.groups
    ensures var n := Transition(s, offset, e, cat).value;
            && id in n.groups
            && n.groups[id].generation == if Assigns(e, id) then WrappingSucc(s.groups[id].generation)
               else s.groups[id].generation
  {
    hide MembersOk, PlacedOk, StartsOk, Known;
  }

  /** Over a history from the beginning no count gets that far: generations never
      fall, and they rise with every assignment. */
  lemma {:induction false} GenerationsRise(store: Id, front: seq<Event>, back: seq<Event>, cat: Catalog.State,
                                           id: GroupId)
    requires ReplayFrom(Fresh(store), 0, front + back, cat).Some?
    ensures ReplayFrom(Fresh(store), 0, front, cat).Some?
    ensures var s, n := ReplayFrom(Fresh(store), 0, front, cat).value,
            ReplayFrom(Fresh(store), 0, front + back, cat).value;
            id in s.groups ==>
              id in n.groups && n.groups[id].generation == s.groups[id].generation + Assignments(back, id)
  {
    hide Transition;
    ReplaySplit(Fresh(store), 0, front, back, cat);
    var s := ReplayFrom(Fresh(store), 0, front, cat).value;
    if id in s.groups {
      ReplayGenerations(s, |front|, back, cat, id);
      HistoryTracks(store, front, cat);
      GenerationRecorded(s.groups[id], front, id);
      AssignmentsBounded(front, id);
      AssignmentsBounded(back, id);
      HistoryBounded(Fresh(store), 0, front, cat);
    }
  }

  lemma {:induction false} HistoryBounded(s: State, offset: nat, events: seq<Event>, cat: Catalog.State)
    requires ReplayFrom(s, offset, events, cat).Some?
    ensures events != [] ==> offset + |events| <= MAX_OFFSET
    decreases events
  {
    hide Transition;
    if events != [] {
      HistoryBounded(Transition(s, offset, events[0], cat).value, offset + 1, events[1..], cat);
    }
  }
}
