/** The event bodies the consumer API builds, and why the projection accepts
    every one of them. */
module GroupBodies {
  import opened Base
  import opened Sorting
  import opened Offsets
  import opened OffsetsHistory
  import Catalog
  import CatalogHistory

  const EARLIEST: u8 := 1
  const EXPLICIT: u8 := 3

  /** A subscription may not name a system log. */
  predicate UserKey(key: TopicKey) {
    && ValidKey(key)
    && key.topic != Catalog.CLUSTER_METADATA_TOPIC && key.topic != Catalog.CONSUMER_OFFSETS_TOPIC
  }

  predicate InCatalog(cat: Catalog.State, key: TopicKey) {
    key.topic in cat.topics && key.partition < |cat.topics[key.topic].partitions|
  }

  lemma InCatalogKnown(cat: Catalog.State, key: TopicKey)
    requires CatalogHistory.Valid(cat) && InCatalog(cat, key)
    ensures Known(cat, key, cat.revision) && cat.revision > 0
  {
    assert CatalogHistory.TopicOk(key.topic, cat.topics[key.topic], cat.revision);
  }

  // ------------------------------------------------------------ prepared members

  /** Members carry distinct nonzero sessions in ascending order, and canonical,
      disjoint subscriptions. */
  predicate Prepared(members: seq<Member>) {
    && (forall i | 0 <= i < |members| :: members[i].session != 0 && Ascending(members[i].subscriptions, KeyLess))
    && (forall i, k | 0 <= i < |members| && k in members[i].subscriptions :: UserKey(k))
    && (forall i, j | 0 <= i < j < |members| ::
          members[i].session < members[j].session && DisjointKeys(members[i].subscriptions, members[j].subscriptions))
  }

  predicate Catalogued(members: seq<Member>, cat: Catalog.State) {
    forall k | k in Subscribed(members) :: InCatalog(cat, k)
  }

  lemma PreparedMembersOk(members: seq<Member>, cat: Catalog.State)
    requires CatalogHistory.Valid(cat) && Prepared(members) && Catalogued(members, cat)
    ensures MembersOk(members, cat, cat.revision)
  {
    hide CatalogHistory.Valid, Known, InCatalog, KeyLess, Subscribed;
    forall i | 0 <= i < |members| ensures SubscriptionsOk(members[i].subscriptions, cat, cat.revision) {
      var subs := members[i].subscriptions;
      forall a | 0 <= a < |subs| ensures ValidKey(subs[a]) && Known(cat, subs[a], cat.revision) {
        assert subs[a] in members[i].subscriptions && UserKey(subs[a]);
        assert Subscribes(members, i, subs[a]);
        SubscribedAt(members, subs[a]);
        InCatalogKnown(cat, subs[a]);
      }
    }
  }

  // --------------------------------------------------------------- placements

  /** Where a key resumes: its latest position, or a baseline created there. */
  function PlacementFor(progress: map<TopicKey, Progress>, key: TopicKey, owner: Id, start: u64): Placement {
    if key in progress then Placement(key, owner, LatestNext(progress[key]), 0, 0)
    else Placement(key, owner, start, 1, start)
  }

  ghost function OrderedKeys(members: seq<Member>): (keys: seq<TopicKey>)
    ensures forall i | 0 <= i < |keys| :: keys[i] in Subscribed(members)
  {
    KeyOrder();
    var keys := Listing(Subscribed(members).Keys, KeyLess);
    assert forall i | 0 <= i < |keys| :: keys[i] in keys;
    keys
  }

  lemma {:induction false} OrderedKeysAt(members: seq<Member>)
    ensures forall i, j | 0 <= i < j < |OrderedKeys(members)| ::
            KeyLess(OrderedKeys(members)[i], OrderedKeys(members)[j])
    ensures forall k :: k in OrderedKeys(members) <==> k in Subscribed(members)
  {
    KeyOrder();
  }

  ghost function Placements(progress: map<TopicKey, Progress>, members: seq<Member>,
                            start: TopicKey -> u64): seq<Placement>
  {
    var keys := OrderedKeys(members);
    seq(|keys|, i requires 0 <= i < |keys| =>
      PlacementFor(progress, keys[i], Subscribed(members)[keys[i]], start(keys[i])))
  }

  lemma {:induction false} SubscribedOwner(members: seq<Member>, key: TopicKey)
    requires Prepared(members) && key in Subscribed(members)
    ensures UserKey(key) && Subscribed(members)[key] != 0
  {
    SubscribedAt(members, key);
    var i :| Subscribes(members, i, key);
    SubscribedSession(members, key);
  }

  lemma {:induction false} SubscribedSession(members: seq<Member>, key: TopicKey)
    requires key in Subscribed(members)
    requires forall i | 0 <= i < |members| :: members[i].session != 0
    ensures Subscribed(members)[key] != 0
  {
    var n := |members| - 1;
    AddSubscriptionsAt(Subscribed(members[..n]), members[n].session, members[n].subscriptions, key);
    if key !in members[n].subscriptions {
      SubscribedSession(members[..n], key);
    }
  }

  /** The ordered placements cover exactly the subscriptions. */
  lemma {:induction false} PlacementsOk(progress: map<TopicKey, Progress>, members: seq<Member>, start: TopicKey -> u64)
    requires Prepared(members)
    ensures PlacedOk(Placements(progress, members, start), Subscribed(members), progress)
  {
    hide Prepared, OrderedKeys, Subscribed, OwnerMap, KeyLess;
    OrderedKeysAt(members);
    var keys, placed, subscribed := OrderedKeys(members), Placements(progress, members, start), Subscribed(members);
    forall i | 0 <= i < |placed| ensures PlacementOk(placed[i], subscribed, progress) {
      SubscribedOwner(members, keys[i]);
    }
    forall k
      ensures k in OwnerMap(placed) <==> k in subscribed
      ensures k in subscribed ==> OwnerMap(placed)[k] == subscribed[k]
    {
      OwnerMapKeys(placed, k);
      if k in subscribed {
        assert k in keys;
        var i :| 0 <= i < |keys| && keys[i] == k;
        assert placed[i].key == k;
        OwnerMapAt(placed, i);
      }
      if i :| 0 <= i < |placed| && placed[i].key == k {
        assert keys[i] in keys;
      }
    }
  }

  // ------------------------------------------------------------------- bodies

  ghost function StartList(starts: map<TopicKey, u64>): seq<Start> {
    KeyOrder();
    var keys := Listing(starts.Keys, KeyLess);
    seq(|keys|, i requires 0 <= i < |keys| => assert keys[i] in keys; Start(keys[i], starts[keys[i]]))
  }

  ghost function CreatedBody(store: Id, cat: Catalog.State, group: GroupId, mode: u8,
                             starts: map<TopicKey, u64>): Event {
    GroupCreated(store, cat.revision, group, mode, StartList(starts))
  }

  ghost function AssignmentBody(store: Id, cat: Catalog.State, group: GroupId, g: Group, reason: u8,
                                members: seq<Member>, start: TopicKey -> u64): Event
  {
    AssignmentChanged(store, cat.revision, group, store, g.generation, WrappingSucc(g.generation), reason,
                      members, Placements(g.progress, members, start))
  }

  function RevocationBody(store: Id, cat: Catalog.State, group: GroupId, g: Group): Event {
    AssignmentChanged(store, cat.revision, group, store, g.generation, WrappingSucc(g.generation), 2, [], [])
  }

  function CommitBody(store: Id, cat: Catalog.State, group: GroupId, session: Id, generation: u64, key: TopicKey,
                      p: Progress, next: u64): Event
  {
    if p.hasCommit then OffsetCommitted(store, cat.revision, group, store, session, generation, key, 1, p.committedNext,
                                        next)
    else OffsetCommitted(store, cat.revision, group, store, session, generation, key, 0, p.initialNext, next)
  }

  // ------------------------------------------------------------ accepted bodies

  /** What OpenConsumer and OpenConsumerGroup have checked before they create a
      group: the mode is legal, and explicit starts, present only in explicit
      mode, name catalogued partitions. */
  predicate CreationChecked(s: State, cat: Catalog.State, group: GroupId, mode: u8, starts: map<TopicKey, u64>) {
    && s.store != 0 && cat.revision > 0 && group !in s.groups
    && EARLIEST <= mode <= EXPLICIT
    && (mode != EXPLICIT ==> starts == map[])
    && forall k | k in starts :: UserKey(k) && InCatalog(cat, k)
  }

  /** A GroupCreated body built under those checks is accepted unless the start
      is explicit and covers no key: that request passes every check of the
      caller, is appended, and is then refused. */
  lemma CreatedAccepted(s: State, cat: Catalog.State, group: GroupId, mode: u8, starts: map<TopicKey, u64>,
                        offset: Offset)
    requires CatalogHistory.Valid(cat) && CreationChecked(s, cat, group, mode, starts)
    ensures Transition(s, offset, CreatedBody(s.store, cat, group, mode, starts), cat).Some? <==>
            !(mode == EXPLICIT && starts == map[])
    ensures !(mode == EXPLICIT && starts == map[]) ==>
              Transition(s, offset, CreatedBody(s.store, cat, group, mode, starts), cat).value.groups ==
              s.groups[group := NewGroup(offset, CreatedBody(s.store, cat, group, mode, starts))]
  {
    hide CatalogHistory.Valid, Known, InCatalog, StrictTotal, Listing;
    StartListOk(cat, starts);
  }

  lemma StartListOk(cat: Catalog.State, starts: map<TopicKey, u64>)
    requires CatalogHistory.Valid(cat)
    requires forall k | k in starts :: UserKey(k) && InCatalog(cat, k)
    ensures StartsOk(StartList(starts), cat, cat.revision)
    ensures StartList(starts) == [] <==> starts == map[]
  {
    hide CatalogHistory.Valid, Known, InCatalog;
    KeyOrder();
    var keys := Listing(starts.Keys, KeyLess);
    forall i | 0 <= i < |keys| ensures ValidKey(keys[i]) && Known(cat, keys[i], cat.revision) {
      assert keys[i] in keys;
      InCatalogKnown(cat, keys[i]);
    }
    if keys == [] {
      assert forall k :: k !in starts;
    } else {
      assert keys[0] in keys;
    }
  }

  /** Every assignment body built from prepared members is accepted. */
  lemma AssignmentAccepted(s: State, cat: Catalog.State, group: GroupId, reason: u8, members: seq<Member>,
                           start: TopicKey -> u64, offset: Offset)
    requires CatalogHistory.Valid(cat) && cat.revision > 0 && s.store != 0 && group in s.groups
    requires Prepared(members) && Catalogued(members, cat)
    ensures var e := AssignmentBody(s.store, cat, group, s.groups[group], reason, members, start);
            && Transition(s, offset, e, cat).Some?
            && Transition(s, offset, e, cat).value.groups ==
               s.groups[group := AssignedGroup(s.groups[group], offset, e)]
  {
    hide CatalogHistory.Valid, MembersOk, PlacedOk, Prepared, Catalogued, Subscribed;
    PreparedMembersOk(members, cat);
    PlacementsOk(s.groups[group].progress, members, start);
  }

  lemma RevocationAccepted(s: State, cat: Catalog.State, group: GroupId, offset: Offset)
    requires cat.revision > 0 && s.store != 0 && group in s.groups
    ensures var e := RevocationBody(s.store, cat, group, s.groups[group]);
            && Transition(s, offset, e, cat).Some?
            && Transition(s, offset, e, cat).value.groups ==
               s.groups[group := AssignedGroup(s.groups[group], offset, e)]
  {
  }

  /** Every commit body built under the fence and the position checks is accepted. */
  lemma CommitAccepted(s: State, cat: Catalog.State, group: GroupId, session: Id, key: TopicKey, next: u64,
                       offset: Offset)
    requires CatalogHistory.Valid(cat) && Valid(s, cat) && s.store != 0 && group in s.groups
    requires var g := s.groups[group];
             && g.instance == s.store && key in g.owners && g.owners[key] == session
             && key in g.progress && LatestNext(g.progress[key]) <= next
    ensures var g := s.groups[group];
            var e := CommitBody(s.store, cat, group, session, g.generation, key, g.progress[key], next);
            && Transition(s, offset, e, cat).Some?
            && Transition(s, offset, e, cat).value.groups == s.groups[group := CommittedGroup(g, e)]
  {
    hide CatalogHistory.Valid, MembersOk, Subscribed, OwnerMap, StartsOk;
    var g := s.groups[group];
    assert GroupOk(g, group, s.store, s.revision, cat);
    OwnerSession(g, group, s.store, cat, key);
  }

  lemma OwnerSession(g: Group, id: GroupId, store: Id, cat: Catalog.State, key: TopicKey)
    requires g.assignmentBody.Some? && AssignmentOk(g, id, store, cat) && key in g.owners
    ensures g.owners[key] != 0
  {
    SubscribedSession(g.assignmentBody.value.members, key);
  }

  /** Owned keys have a baseline, so a fenced handle always finds its progress. */
  lemma OwnersHaveProgress(s: State, cat: Catalog.State, group: GroupId, key: TopicKey)
    requires Valid(s, cat) && group in s.groups && key in s.groups[group].owners
    ensures key in s.groups[group].progress && s.groups[group].owners[key] != 0
  {
    var g := s.groups[group];
    assert GroupOk(g, group, s.store, s.revision, cat);
    assert g.assignmentBody.Some?;
    var placed := g.assignmentBody.value.placed;
    OwnerMapKeys(placed, key);
    var i :| 0 <= i < |placed| && placed[i].key == key;
    assert PlacementTracked(placed[i], g.progress);
    OwnerSession(g, group, s.store, cat, key);
  }
}
