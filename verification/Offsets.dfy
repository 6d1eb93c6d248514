/** Consumer-group progress: an event-sourced projection of the offsets log. */
module Offsets {
  import opened Base
  import opened Sorting
  import Catalog

  type GroupId = Bytes

  datatype Progress = Progress(initialNext: u64, hasCommit: bool, committedNext: u64)

  function LatestNext(p: Progress): u64 {
    if p.hasCommit then p.committedNext else p.initialNext
  }

  datatype Start = Start(key: TopicKey, next: u64)
  datatype Member = Member(session: Id, subscriptions: seq<TopicKey>)
  datatype Placement = Placement(key: TopicKey, owner: Id, resume: u64, action: u8, initial: u64)

  datatype Event =
    | GroupCreated(store: Id, catalogNext: u64, group: GroupId, startMode: u8, starts: seq<Start>)
    | AssignmentChanged(store: Id, catalogNext: u64, group: GroupId, instance: Id, expected: u64, generation: u64,
                        reason: u8, members: seq<Member>, placed: seq<Placement>)
    | OffsetCommitted(store: Id, catalogNext: u64, group: GroupId, instance: Id, session: Id, generation: u64,
                      key: TopicKey, previousKind: u8, previous: u64, next: u64)

  datatype Group = Group(creationOffset: Offset, creationBody: Event, generation: u64,
                         assignmentOffset: u64, assignmentBody: Option<Event>,
                         owners: map<TopicKey, Id>, members: set<Id>, instance: Id,
                         startMode: u8, explicitStarts: map<TopicKey, u64>, progress: map<TopicKey, Progress>)

  datatype State = State(store: Id, revision: u64, groups: map<GroupId, Group>)

  function Fresh(store: Id): State { State(store, 0, map[]) }

  /** The catalog knew this partition by the revision the event names. */
  predicate Known(cat: Catalog.State, key: TopicKey, catalogNext: u64) {
    && key.topic in cat.topics
    && key.partition < |cat.topics[key.topic].partitions|
    && cat.topics[key.topic].creation + 1 <= catalogNext
  }

  // ------------------------------------------------------------ group bodies

  predicate StartsOk(starts: seq<Start>, cat: Catalog.State, catalogNext: u64) {
    && (forall i | 0 <= i < |starts| :: ValidKey(starts[i].key) && Known(cat, starts[i].key, catalogNext))
    && (forall i, j | 0 <= i < j < |starts| :: KeyLess(starts[i].key, starts[j].key))
  }

  predicate ModeOk(startMode: u8, starts: seq<Start>) {
    && 1 <= startMode <= 3
    && (startMode == 3 <==> starts != [])
  }

  function StartMap(starts: seq<Start>): map<TopicKey, u64> {
    if starts == [] then map[]
    else
      var last := starts[|starts| - 1];
      StartMap(starts[..|starts| - 1])[last.key := last.next]
  }

  // ------------------------------------------------------------- assignments

  predicate SubscriptionsOk(subs: seq<TopicKey>, cat: Catalog.State, catalogNext: u64) {
    && (forall i | 0 <= i < |subs| :: ValidKey(subs[i]) && Known(cat, subs[i], catalogNext))
    && Ascending(subs, KeyLess)
  }

  /** Sessions ascend, every subscription is known, and no key has two owners. */
  predicate MembersOk(members: seq<Member>, cat: Catalog.State, catalogNext: u64) {
    && (forall i | 0 <= i < |members| ::
          members[i].session != 0 && SubscriptionsOk(members[i].subscriptions, cat, catalogNext))
    && (forall i, j | 0 <= i < j < |members| :: members[i].session < members[j].session)
    && (forall i, j | 0 <= i < j < |members| ::
          DisjointKeys(members[i].subscriptions, members[j].subscriptions))
  }

  predicate DisjointKeys(a: seq<TopicKey>, b: seq<TopicKey>) {
    forall k | k in a :: k !in b
  }

  function AddSubscriptions(m: map<TopicKey, Id>, session: Id, subs: seq<TopicKey>): map<TopicKey, Id> {
    if subs == [] then m
    else AddSubscriptions(m, session, subs[..|subs| - 1])[subs[|subs| - 1] := session]
  }

  function Subscribed(members: seq<Member>): map<TopicKey, Id> {
    if members == [] then map[]
    else
      var last := members[|members| - 1];
      AddSubscriptions(Subscribed(members[..|members| - 1]), last.session, last.subscriptions)
  }

  function Sessions(members: seq<Member>): set<Id> {
    set m | m in members :: m.session
  }

  /** A baseline is created once; reusing one resumes at the latest position. */
  predicate BaselineOk(progress: map<TopicKey, Progress>, a: Placement) {
    if a.action == 1 then a.key !in progress && a.initial == a.resume
    else a.action == 0 && a.initial == 0 && a.key in progress && a.resume == LatestNext(progress[a.key])
  }

  function OwnerMap(placed: seq<Placement>): map<TopicKey, Id> {
    if placed == [] then map[]
    else
      var last := placed[|placed| - 1];
      OwnerMap(placed[..|placed| - 1])[last.key := last.owner]
  }

  predicate PlacedOk(placed: seq<Placement>, subscribed: map<TopicKey, Id>, progress: map<TopicKey, Progress>) {
    && (forall i | 0 <= i < |placed| :: PlacementOk(placed[i], subscribed, progress))
    && (forall i, j | 0 <= i < j < |placed| :: KeyLess(placed[i].key, placed[j].key))
    && OwnerMap(placed) == subscribed
  }

  predicate PlacementOk(a: Placement, subscribed: map<TopicKey, Id>, progress: map<TopicKey, Progress>) {
    && ValidKey(a.key) && a.owner != 0
    && a.key in subscribed && subscribed[a.key] == a.owner
    && BaselineOk(progress, a)
  }

  function NextProgress(progress: map<TopicKey, Progress>, placed: seq<Placement>): map<TopicKey, Progress> {
    if placed == [] then progress
    else
      var last := placed[|placed| - 1];
      var before := NextProgress(progress, placed[..|placed| - 1]);
      if last.action == 1 then before[last.key := Progress(last.initial, false, 0)] else before
  }

  predicate AssignmentAllowed(g: Group, e: Event, cat: Catalog.State)
    requires e.AssignmentChanged?
  {
    && e.instance != 0
    && e.expected == g.generation && e.generation == WrappingSucc(e.expected)
    && MembersOk(e.members, cat, e.catalogNext)
    && PlacedOk(e.placed, Subscribed(e.members), g.progress)
  }

  function AssignedGroup(g: Group, offset: Offset, e: Event): Group
    requires e.AssignmentChanged?
  {
    g.(generation := e.generation, assignmentOffset := offset, assignmentBody := Some(e),
    owners := Subscribed(e.members), members := Sessions(e.members), instance := e.instance,
    progress := NextProgress(g.progress, e.placed))
  }

  // ----------------------------------------------------------------- commits

  /** A commit carries the current ownership token and the current position. */
  predicate CommitAllowed(g: Group, e: Event, cat: Catalog.State)
    requires e.OffsetCommitted?
  {
    && e.instance != 0 && e.session != 0 && ValidKey(e.key) && e.previousKind <= 1
    && Known(cat, e.key, e.catalogNext)
    && e.generation == g.generation && e.instance == g.instance
    && e.key in g.progress && e.key in g.owners && g.owners[e.key] == e.session
    && (e.previousKind == 1 <==> g.progress[e.key].hasCommit)
    && e.previous == LatestNext(g.progress[e.key])
    && e.previous <= e.next
  }

  function CommittedGroup(g: Group, e: Event): Group
    requires e.OffsetCommitted? && e.key in g.progress
  {
    g.(progress := g.progress[e.key := g.progress[e.key].(hasCommit := true, committedNext := e.next)])
  }

  // ------------------------------------------------------------- transitions

  function NewGroup(offset: Offset, e: Event): Group
    requires e.GroupCreated?
  {
    Group(offset, e, 0, 0, None, map[], {}, 0, e.startMode, StartMap(e.starts), map[])
  }

  function Transition(s: State, offset: Offset, e: Event, cat: Catalog.State): Option<State> {
    if e.store != s.store || e.catalogNext == 0 || e.catalogNext > cat.revision then None
    else match e
      case GroupCreated(_, catalogNext, group, startMode, starts) =>
        if group in s.groups || !ModeOk(startMode, starts) || !StartsOk(starts, cat, catalogNext) then None
        else Some(s.(groups := s.groups[group := NewGroup(offset, e)], revision := offset + 1))
      case AssignmentChanged(_, _, group, _, _, _, _, _, _) =>
        if group !in s.groups || !AssignmentAllowed(s.groups[group], e, cat) then None
        else Some(s.(groups := s.groups[group := AssignedGroup(s.groups[group], offset, e)], revision := offset + 1))
      case OffsetCommitted(_, _, group, _, _, _, _, _, _, _) =>
        if group !in s.groups || !CommitAllowed(s.groups[group], e, cat) then None
        else Some(s.(groups := s.groups[group := CommittedGroup(s.groups[group], e)], revision := offset + 1))
  }

  function ReplayFrom(s: State, offset: nat, events: seq<Event>, cat: Catalog.State): Option<State>
    decreases events
  {
    if events == [] then Some(s)
    else if offset >= MAX_OFFSET then None
    else match Transition(s, offset, events[0], cat)
      case None => None
      case Some(next) => ReplayFrom(next, offset + 1, events[1..], cat)
  }

  lemma {:induction false} ReplaySplit(s: State, offset: nat, front: seq<Event>, back: seq<Event>, cat: Catalog.State)
    ensures ReplayFrom(s, offset, front + back, cat) ==
            (match ReplayFrom(s, offset, front, cat)
             case None => None
             case Some(m) => ReplayFrom(m, offset + |front|, back, cat))
    decreases front
  {
    hide Transition;
    if front == [] {
      assert front + back == back;
    } else {
      assert (front + back)[0] == front[0] && (front + back)[1..] == front[1..] + back;
      if offset < MAX_OFFSET && Transition(s, offset, front[0], cat).Some? {
        ReplaySplit(Transition(s, offset, front[0], cat).value, offset + 1, front[1..], back, cat);
      }
    }
  }

  // -------------------------------------------------- facts about body maps

  predicate Subscribes(members: seq<Member>, i: int, key: TopicKey) {
    0 <= i < |members| && key in members[i].subscriptions
  }

  lemma {:induction false} AddSubscriptionsAt(m: map<TopicKey, Id>, session: Id, subs: seq<TopicKey>, key: TopicKey)
    ensures key in AddSubscriptions(m, session, subs) <==> key in m || key in subs
    ensures key in AddSubscriptions(m, session, subs) ==>
              AddSubscriptions(m, session, subs)[key] == if key in subs then session else m[key]
  {
    if subs != [] {
      AddSubscriptionsAt(m, session, subs[..|subs| - 1], key);
      assert subs == subs[..|subs| - 1] + [subs[|subs| - 1]];
    }
  }

  /** The subscription map holds exactly the subscribed keys. */
  lemma {:induction false} SubscribedAt(members: seq<Member>, key: TopicKey)
    ensures key in Subscribed(members) <==> exists i :: Subscribes(members, i, key)
  {
    if members != [] {
      var n := |members| - 1;
      var front := members[..n];
      SubscribedAt(front, key);
      AddSubscriptionsAt(Subscribed(front), members[n].session, members[n].subscriptions, key);
      if key in Subscribed(members) {
        if key in members[n].subscriptions {
          assert Subscribes(members, n, key);
        } else {
          var i :| Subscribes(front, i, key);
          assert Subscribes(members, i, key);
        }
      }
      if i :| Subscribes(members, i, key) {
        if i < n { assert Subscribes(front, i, key); }
      }
    }
  }

  lemma {:induction false} OwnerMapAt(placed: seq<Placement>, i: nat)
    requires forall i, j | 0 <= i < j < |placed| :: KeyLess(placed[i].key, placed[j].key)
    requires i < |placed|
    ensures placed[i].key in OwnerMap(placed) && OwnerMap(placed)[placed[i].key] == placed[i].owner
  {
    if i < |placed| - 1 {
      OwnerMapAt(placed[..|placed| - 1], i);
    }
  }

  lemma {:induction false} OwnerMapKeys(placed: seq<Placement>, key: TopicKey)
    ensures key in OwnerMap(placed) <==> exists i :: 0 <= i < |placed| && placed[i].key == key
  {
    if placed != [] {
      var n := |placed| - 1;
      OwnerMapKeys(placed[..n], key);
      if key in OwnerMap(placed[..n]) {
        var i :| 0 <= i < n && placed[..n][i].key == key;
        assert placed[i].key == key;
      }
      if i :| 0 <= i < |placed| && placed[i].key == key {
        if i < n { assert placed[..n][i].key == key; }
      }
    }
  }

  // -------------------------------------------------------------- projection

  /** The explicit starts of a GroupCreated body, read in order. */
  method ReadStarts(starts: seq<Start>, cat: Catalog.State, catalogNext: u64)
    returns (ok: bool, explicit: map<TopicKey, u64>)
    ensures ok <==> StartsOk(starts, cat, catalogNext)
    ensures ok ==> explicit == StartMap(starts)
  {
    explicit := map[];
    for i := 0 to |starts|
      invariant StartsOk(starts[..i], cat, catalogNext)
      invariant explicit == StartMap(starts[..i])
    {
      var key := starts[i].key;
      if !ValidKey(key) { return false, map[]; }
      if i > 0 && !KeyLess(starts[i - 1].key, key) { return false, map[]; }
      if !Known(cat, key, catalogNext) { return false, map[]; }
      explicit := explicit[key := starts[i].next];
      assert starts[..i + 1][..i] == starts[..i];
    }
    assert starts[..|starts|] == starts;
    ok := true;
  }

  predicate Unowned(subs: seq<TopicKey>, owned: map<TopicKey, Id>) {
    forall k | k in subs :: k !in owned
  }

  /** One member's subscriptions, added to those of the members before it. */
  method ReadSubscriptions(subs: seq<TopicKey>, session: Id, earlier: map<TopicKey, Id>,
                           cat: Catalog.State, catalogNext: u64)
    returns (ok: bool, subscribed: map<TopicKey, Id>)
    ensures ok <==> SubscriptionsOk(subs, cat, catalogNext) && Unowned(subs, earlier)
    ensures ok ==> subscribed == AddSubscriptions(earlier, session, subs)
  {
    hide Known, ValidKey;
    subscribed := earlier;
    for j := 0 to |subs|
      invariant SubscriptionsOk(subs[..j], cat, catalogNext)
      invariant subscribed == AddSubscriptions(earlier, session, subs[..j])
      invariant Unowned(subs[..j], earlier)
    {
      var key := subs[j];
      if !ValidKey(key) || !Known(cat, key, catalogNext) { return false, map[]; }
      if j > 0 && !KeyLess(subs[j - 1], key) { return false, map[]; }
      AddSubscriptionsAt(earlier, session, subs[..j], key);
      if key in subscribed { return false, map[]; }
      subscribed := subscribed[key := session];
      assert subs[..j + 1] == subs[..j] + [key];
    }
    assert subs[..|subs|] == subs;
    ok := true;
  }

  /** What the scan demands of one member, given the members before it. */
  predicate MemberOk(members: seq<Member>, i: nat, cat: Catalog.State, catalogNext: u64)
    requires i < |members|
  {
    && members[i].session != 0
    && (i > 0 ==> members[i - 1].session < members[i].session)
    && SubscriptionsOk(members[i].subscriptions, cat, catalogNext)
    && Unowned(members[i].subscriptions, Subscribed(members[..i]))
  }

  lemma NoMembersOk(members: seq<Member>, cat: Catalog.State, catalogNext: u64)
    ensures MembersOk(members[..0], cat, catalogNext)
  {
  }

  lemma MembersOkStep(members: seq<Member>, i: nat, cat: Catalog.State, catalogNext: u64)
    requires i < |members| && MembersOk(members[..i], cat, catalogNext)
    ensures MemberOk(members, i, cat, catalogNext) ==> MembersOk(members[..i + 1], cat, catalogNext)
    ensures MembersOk(members, cat, catalogNext) ==> MemberOk(members, i, cat, catalogNext)
  {
    hide SubscriptionsOk, Subscribed;
    UnownedIsDisjoint(members, i);
    if MemberOk(members, i, cat, catalogNext) {
      assert forall k | 0 <= k < i :: members[k].session < members[i].session;
    }
  }

  /** The members of an assignment body: sessions and their subscriptions. */
  method ReadMembers(members: seq<Member>, cat: Catalog.State, catalogNext: u64)
    returns (ok: bool, sessions: set<Id>, subscribed: map<TopicKey, Id>)
    ensures ok <==> MembersOk(members, cat, catalogNext)
    ensures ok ==> sessions == Sessions(members) && subscribed == Subscribed(members)
  {
    hide MembersOk, SubscriptionsOk;
    sessions, subscribed := {}, map[];
    NoMembersOk(members, cat, catalogNext);
    for i := 0 to |members|
      invariant MembersOk(members[..i], cat, catalogNext)
      invariant sessions == Sessions(members[..i])
      invariant subscribed == Subscribed(members[..i])
    {
      var member := members[i];
      MembersOkStep(members, i, cat, catalogNext);
      if member.session == 0 { return false, {}, map[]; }
      if i > 0 && members[i - 1].session >= member.session { return false, {}, map[]; }
      sessions := sessions + {member.session};
      ok, subscribed := ReadSubscriptions(member.subscriptions, member.session, subscribed, cat, catalogNext);
      if !ok { return false, {}, map[]; }
      assert members[..i + 1] == members[..i] + [member];
    }
    assert members[..|members|] == members;
    ok := true;
  }

  /** A member's keys are unowned exactly when no earlier member has one. */
  lemma UnownedIsDisjoint(members: seq<Member>, i: nat)
    requires i < |members|
    ensures Unowned(members[i].subscriptions, Subscribed(members[..i])) <==>
            forall k | 0 <= k < i :: DisjointKeys(members[k].subscriptions, members[i].subscriptions)
  {
    if Unowned(members[i].subscriptions, Subscribed(members[..i])) {
      forall k | 0 <= k < i ensures DisjointKeys(members[k].subscriptions, members[i].subscriptions) {
        NotShared(members, i, k, Subscribed(members[..i]));
      }
    } else {
      var key :| key in members[i].subscriptions && key in Subscribed(members[..i]);
      SharedKey(members, i, key);
    }
  }

  lemma SharedKey(members: seq<Member>, i: nat, key: TopicKey)
    requires i < |members| && key in members[i].subscriptions && key in Subscribed(members[..i])
    ensures exists k :: 0 <= k < i && !DisjointKeys(members[k].subscriptions, members[i].subscriptions)
  {
    SubscribedAt(members[..i], key);
    var k :| Subscribes(members[..i], k, key);
    assert !DisjointKeys(members[k].subscriptions, members[i].subscriptions);
  }

  lemma NotShared(members: seq<Member>, i: nat, k: nat, earlier: map<TopicKey, Id>)
    requires k < i < |members| && earlier == Subscribed(members[..i])
    requires forall key | key in members[i].subscriptions :: key !in earlier
    ensures DisjointKeys(members[k].subscriptions, members[i].subscriptions)
  {
    forall key | key in members[k].subscriptions ensures key !in members[i].subscriptions {
      SubscribedAt(members[..i], key);
      assert Subscribes(members[..i], k, key);
    }
  }

  lemma SubMapOfSameSize(a: map<TopicKey, Id>, b: map<TopicKey, Id>)
    requires forall k | k in a :: k in b && a[k] == b[k]
    ensures |a| == |b| <==> a == b
  {
    assert a.Keys <= b.Keys;
    if |a| == |b| {
      SubsetOfSameSize(a.Keys, b.Keys);
    }
  }

  lemma {:induction false} SubsetOfSameSize(a: set<TopicKey>, b: set<TopicKey>)
    requires a <= b && |a| == |b|
    ensures a == b
  {
    if a != b {
      var x :| x in b && x !in a;
      assert |b| == |b - {x}| + 1;
      SubsetSize(a, b - {x});
    }
  }

  lemma {:induction false} NextProgressUntouched(progress: map<TopicKey, Progress>, placed: seq<Placement>,
                                                 key: TopicKey)
    requires forall i | 0 <= i < |placed| :: placed[i].key != key
    ensures key in NextProgress(progress, placed) <==> key in progress
    ensures key in progress ==> NextProgress(progress, placed)[key] == progress[key]
  {
    if placed != [] {
      NextProgressUntouched(progress, placed[..|placed| - 1], key);
    }
  }

  /** The assignments of an assignment body, checked against the subscriptions
      and the running progress, with coverage decided by counting. */
  method ReadPlaced(placed: seq<Placement>, subscribed: map<TopicKey, Id>, before: map<TopicKey, Progress>)
    returns (ok: bool, owners: map<TopicKey, Id>, progress: map<TopicKey, Progress>)
    ensures ok <==> PlacedOk(placed, subscribed, before)
    ensures ok ==> owners == subscribed && progress == NextProgress(before, placed)
  {
    hide ValidKey, LatestNext;
    owners, progress := map[], before;
    for i := 0 to |placed|
      invariant forall k | 0 <= k < i :: PlacementOk(placed[k], subscribed, before)
      invariant forall j, k | 0 <= j < k < i :: KeyLess(placed[j].key, placed[k].key)
      invariant owners == OwnerMap(placed[..i])
      invariant progress == NextProgress(before, placed[..i])
      invariant forall k | k in owners :: k in subscribed && owners[k] == subscribed[k]
    {
      var a := placed[i];
      if !ValidKey(a.key) { return false, map[], map[]; }
      if i > 0 && !KeyLess(placed[i - 1].key, a.key) { return false, map[], map[]; }
      if a.owner == 0 || a.key !in subscribed || subscribed[a.key] != a.owner { return false, map[], map[]; }
      if a.action > 1 { return false, map[], map[]; }
      NextProgressUntouched(before, placed[..i], a.key);
      if a.action == 1 {
        if a.key in progress || a.initial != a.resume { return false, map[], map[]; }
        progress := progress[a.key := Progress(a.initial, false, 0)];
      } else if a.initial != 0 || a.key !in progress || a.resume != LatestNext(progress[a.key]) {
        return false, map[], map[];
      }
      owners := owners[a.key := a.owner];
      assert placed[..i + 1][..i] == placed[..i];
    }
    assert placed[..|placed|] == placed;
    SubMapOfSameSize(owners, subscribed);
    ok := |owners| == |subscribed|;
  }

  /** The live projection, updated in place by one record at a time. */
  class Projection {
    const store: Id
    var revision: u64
    var groups: map<GroupId, Group>

    function View(): State reads this {
      State(store, revision, groups)
    }

    constructor (id: Id)
      ensures View() == Fresh(id)
    {
      store, revision, groups := id, 0, map[];
    }

    /** Accepts exactly the events the transition function accepts, and leaves
        the projection alone when it refuses one. */
    method Apply(offset: Offset, e: Event, cat: Catalog.State) returns (ok: bool)
      modifies this
      ensures ok <==> Transition(old(View()), offset, e, cat).Some?
      ensures View() == if ok then Transition(old(View()), offset, e, cat).value else old(View())
    {
      if e.store != store { return false; }
      if e.catalogNext == 0 || e.catalogNext > cat.revision { return false; }
      match e {
        case GroupCreated(_, catalogNext, id, startMode, starts) =>
          if id in groups || startMode < 1 || startMode > 3 { return false; }
          if ((startMode == 1 || startMode == 2) && |starts| != 0)
              || (startMode == 3 && |starts| == 0) { return false; }
          var accepted, explicit := ReadStarts(starts, cat, catalogNext);
          if !accepted { return false; }
          groups := groups[id := Group(offset, e, 0, 0, None, map[], {}, 0, startMode, explicit, map[])];
          revision := offset + 1;
          return true;
        case AssignmentChanged(_, catalogNext, id, instance, expected, generation, _, members, placed) =>
          if id !in groups { return false; }
          var group := groups[id];
          if instance == 0 || expected != group.generation || generation != WrappingSucc(expected) { return false; }
          var membersRead, sessions, subscribed := ReadMembers(members, cat, catalogNext);
          if !membersRead { return false; }
          var placedRead, owners, progress := ReadPlaced(placed, subscribed, group.progress);
          if !placedRead { return false; }
          groups := groups[id := group.(progress := progress, generation := generation, assignmentOffset := offset,
          assignmentBody := Some(e), owners := owners, members := sessions, instance := instance)];
          revision := offset + 1;
          return true;
        case OffsetCommitted(_, catalogNext, id, instance, session, generation, key, previousKind, previous, next) =>
          if id !in groups { return false; }
          var group := groups[id];
          if instance == 0 || session == 0 || !ValidKey(key) || previousKind > 1 { return false; }
          if !Known(cat, key, catalogNext) { return false; }
          if generation != group.generation || key !in group.progress || key !in group.owners ||
            group.owners[key] != session || instance != group.instance { return false; }
          var progress := group.progress[key];
          if previousKind == 0 {
            if progress.hasCommit || previous != progress.initialNext { return false; }
          } else if !progress.hasCommit || previous != progress.committedNext {
            return false;
          }
          if next < previous { return false; }
          progress := progress.(hasCommit := true, committedNext := next);
          groups := groups[id := group.(progress := group.progress[key := progress])];
          revision := offset + 1;
          return true;
      }
    }

    /** Applies every record of a log that starts at `base`. */
    method Replay(base: nat, log: seq<Event>, cat: Catalog.State) returns (ok: bool)
      requires base + |log| <= MAX_OFFSET
      modifies this
      ensures ok <==> ReplayFrom(old(View()), base, log, cat).Some?
      ensures ok ==> View() == ReplayFrom(old(View()), base, log, cat).value
    {
      hide Transition;
      for i := 0 to |log|
        invariant ReplayFrom(old(View()), base, log, cat) == ReplayFrom(View(), base + i, log[i..], cat)
      {
        assert log[i..][0] == log[i] && log[i..][1..] == log[i + 1..];
        var accepted := Apply(base + i, log[i], cat);
        if !accepted { return false; }
      }
      return true;
    }
  }
}
