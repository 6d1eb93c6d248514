/** What every reachable catalog satisfies, over whole histories. */
module CatalogHistory {
  import opened Base
  import opened Catalog

  // ------------------------------------------------------- retired inventory

  predicate Covers(m: map<u64, Retired>, b: u64, o: int) {
    b in m && b <= o < m[b].end
  }

  ghost predicate Held(m: map<u64, Retired>, o: int) {
    exists b :: Covers(m, b, o)
  }

  /** The retired segments partition [0, l): each lies inside it, no two overlap,
      and every offset below l belongs to one of them. */
  ghost predicate Tiles(m: map<u64, Retired>, l: u64) {
    && (forall b | b in m :: m[b].base == b && b < m[b].end <= l)
    && (forall a, b | a in m && b in m && a < b :: m[a].end <= b)
    && (forall o | 0 <= o < l :: Held(m, o))
  }

  lemma TilesExtend(m: map<u64, Retired>, l: u64, r: Retired)
    requires Tiles(m, l) && r.base == l && l < r.end
    ensures Tiles(m[l := r], r.end)
  {
    var n := m[l := r];
    forall o | 0 <= o < r.end ensures Held(n, o) {
      if o < l {
        assert Held(m, o);
        var b :| Covers(m, b, o);
        assert Covers(n, b, o);
      } else {
        assert Covers(n, l, o);
      }
    }
  }

  lemma {:induction false} MergeTiles(m: map<u64, Retired>, retired: seq<Retired>, from: u64, to: u64)
    requires Tiles(m, from) && Spans(retired, from, to)
    ensures Tiles(Merge(m, retired), to)
    ensures retired != [] ==> Merge(m, retired) != map[]
    decreases retired
  {
    if retired != [] {
      TilesExtend(m, from, retired[0]);
      MergeTiles(m[retired[0].base := retired[0]], retired[1..], retired[0].end, to);
      if retired[1..] == [] {
        assert from in Merge(m, retired);
      }
    }
  }

  /** Exactly one retired segment holds each offset below the boundary. */
  lemma TilesOnce(m: map<u64, Retired>, l: u64, o: nat)
    requires Tiles(m, l) && o < l
    ensures exists b :: Covers(m, b, o) && forall a :: Covers(m, a, o) ==> a == b
  {
    assert Held(m, o);
    var b :| Covers(m, b, o);
    assert forall a :: Covers(m, a, o) ==> a == b;
  }

  // -------------------------------------------------------------- invariants

  ghost predicate InventoryOk(m: map<u64, Retired>, l: u64) {
    Tiles(m, l) && forall b | b in m :: ValidAnchor(m[b].anchor)
  }

  ghost predicate PartitionOk(t: Topic, i: nat, revision: u64)
    requires i < |t.partitions| && |t.partitions| <= MAX_TOPIC_PARTITIONS
  {
    var p := t.partitions[i];
    && p.partition == i
    && ValidAnchor(p.initial) && ValidAnchor(p.current)
    && p.retainedL <= p.maxRetirementH
    && p.boundaryNext <= revision
    && InventoryOk(RetiredOf(t, i), p.retainedL)
    && (i in t.retired ==> t.retired[i] != map[])
  }

  ghost predicate TopicOk(id: Id, t: Topic, revision: u64) {
    && t.id == id && id != 0
    && t.creation < revision
    && 0 < |t.partitions| <= MAX_TOPIC_PARTITIONS
    && (forall i | 0 <= i < |t.partitions| :: PartitionOk(t, i, revision))
    && (forall i | i in t.retired :: i < |t.partitions|)
  }

  ghost predicate NamesOk(byName: map<Bytes, Id>, topics: map<Id, Topic>) {
    && (forall n | n in byName :: byName[n] in topics && topics[byName[n]].name == n)
    && (forall id | id in topics :: topics[id].name in byName && byName[topics[id].name] == id)
  }

  ghost predicate Valid(s: State) {
    && (s.init.None? <==> s.revision == 0)
    && (s.init.None? ==> s == EMPTY)
    && (s.init.Some? ==> ValidInit(s.init.value))
    && NamesOk(s.byName, s.topics)
    && (forall id | id in s.topics :: TopicOk(id, s.topics[id], s.revision))
  }

  lemma NewTopicOk(topic: Id, name: Bytes, parts: seq<CreatedPartition>, offset: Offset)
    requires topic != 0 && 0 < |parts| <= MAX_TOPIC_PARTITIONS
    requires forall i | 0 <= i < |parts| :: parts[i].partition == i && ValidAnchor(parts[i].initial)
    ensures TopicOk(topic, Topic(topic, name, NewPartitions(parts, offset), map[], offset), offset + 1)
  {
    var t := Topic(topic, name, NewPartitions(parts, offset), map[], offset);
    var revision := offset + 1;
    forall i | 0 <= i < |t.partitions| ensures PartitionOk(t, i, revision) {
      assert t.partitions[i] == NewPartition(parts[i], offset);
      assert RetiredOf(t, i) == map[];
    }
  }

  lemma TopicOkMonotone(id: Id, t: Topic, r: u64, r': u64)
    requires TopicOk(id, t, r) && r <= r'
    ensures TopicOk(id, t, r')
  {
    forall i | 0 <= i < |t.partitions| ensures PartitionOk(t, i, r') {
      assert PartitionOk(t, i, r);
    }
  }

  lemma {:induction false} MergeAnchors(m: map<u64, Retired>, retired: seq<Retired>)
    requires forall b | b in m :: ValidAnchor(m[b].anchor)
    requires forall i | 0 <= i < |retired| :: ValidAnchor(retired[i].anchor)
    ensures forall b | b in Merge(m, retired) :: ValidAnchor(Merge(m, retired)[b].anchor)
    decreases retired
  {
    if retired != [] {
      var n := m[retired[0].base := retired[0]];
      assert forall b | b in n :: ValidAnchor(n[b].anchor);
      MergeAnchors(n, retired[1..]);
    }
  }

  lemma AdvancedTopicOk(id: Id, t: Topic, e: Event, offset: Offset, revision: u64)
    requires TopicOk(id, t, revision) && revision <= offset
    requires e.LogStartAdvanced? && ValidPayload(e) && e.key.partition < |t.partitions|
    requires AdvanceAllowed(t.partitions[e.key.partition], e)
    ensures TopicOk(id, AdvancedTopic(t, e, offset), offset + 1)
  {
    var k := e.key.partition;
    var n := AdvancedTopic(t, e, offset);
    assert PartitionOk(t, k, revision);
    MergeTiles(RetiredOf(t, k), e.retired, e.oldL, e.newL);
    MergeAnchors(RetiredOf(t, k), e.retired);
    var next := offset + 1;
    forall i | 0 <= i < |n.partitions| ensures PartitionOk(n, i, next) {
      assert PartitionOk(t, i, revision);
      if i != k {
        assert RetiredOf(n, i) == RetiredOf(t, i);
      }
    }
  }

  /** An accepted record at the log end keeps the catalog valid and makes the
      revision the new log end. */
  lemma TransitionValid(s: State, e: Event)
    requires Valid(s) && s.revision < MAX_OFFSET && Transition(s, s.revision, e).Some?
    ensures Valid(Transition(s, s.revision, e).value)
    ensures Transition(s, s.revision, e).value.revision == s.revision + 1
  {
    hide TopicOk, NamesOk, AdvanceAllowed, NewPartitions, AdvancedTopic;
    NamesKept(s, e);
    TopicsKept(s, e);
  }

  lemma NamesKept(s: State, e: Event)
    requires Valid(s) && s.revision < MAX_OFFSET && Transition(s, s.revision, e).Some?
    ensures NamesOk(Transition(s, s.revision, e).value.byName, Transition(s, s.revision, e).value.topics)
  {
    hide TopicOk, AdvanceAllowed, NewPartitions;
  }

  lemma TopicsKept(s: State, e: Event)
    requires Valid(s) && s.revision < MAX_OFFSET && Transition(s, s.revision, e).Some?
    ensures var n := Transition(s, s.revision, e).value;
            n.revision == s.revision + 1 && forall id | id in n.topics :: TopicOk(id, n.topics[id], n.revision)
  {
    hide TopicOk, NamesOk, AdvanceAllowed, NewPartitions, AdvancedTopic;
    var n := Transition(s, s.revision, e).value;
    var offset: Offset := s.revision;
    if e.TopicCreated? {
      NewTopicOk(e.topic, e.name, e.partitions, offset);
    } else if e.LogStartAdvanced? {
      AdvancedTopicOk(e.key.topic, s.topics[e.key.topic], e, offset, s.revision);
    }
    forall id | id in n.topics ensures TopicOk(id, n.topics[id], n.revision) {
      if id in s.topics && n.topics[id] == s.topics[id] {
        TopicOkMonotone(id, s.topics[id], s.revision, n.revision);
      }
    }
  }

  // ---------------------------------------------------------- catalog growth

  /** `d` continues `c`: nothing it knew has moved, and what is new was created
      at or after its revision. */
  ghost predicate Extends(c: State, d: State) {
    && c.revision <= d.revision
    && (c.init.Some? ==> d.init == c.init)
    && (forall id | id in c.topics :: id in d.topics && SameShape(c.topics[id], d.topics[id]))
    && (forall id | id in d.topics && id !in c.topics :: c.revision <= d.topics[id].creation)
  }

  predicate SameShape(t: Topic, u: Topic) {
    && u.creation == t.creation && u.name == t.name && |u.partitions| == |t.partitions|
    && forall i | 0 <= i < |t.partitions| ::
         u.partitions[i].config == t.partitions[i].config && t.partitions[i].retainedL <= u.partitions[i].retainedL
  }

  /** Every TopicCreated event built under createTopic's checks is accepted. */
  lemma TopicAccepted(s: State, topic: Id, name: Bytes, parts: seq<CreatedPartition>)
    requires Valid(s) && 0 < s.revision < MAX_OFFSET && name !in s.byName && topic !in s.topics
    requires topic != 0 && topic != CLUSTER_METADATA_TOPIC && topic != CONSUMER_OFFSETS_TOPIC
    requires 0 < |parts| <= MAX_TOPIC_PARTITIONS
    requires forall i | 0 <= i < |parts| :: parts[i].partition == i && ValidAnchor(parts[i].initial)
    ensures Transition(s, s.revision, TopicCreated(StoreOf(s), s.revision, topic, name, parts)).Some?
  {
  }

  lemma TransitionExtends(s: State, e: Event)
    requires s.revision < MAX_OFFSET && Transition(s, s.revision, e).Some? && Valid(s)
    ensures Extends(s, Transition(s, s.revision, e).value)
  {
  }

  lemma ExtendsTransitive(a: State, b: State, c: State)
    requires Extends(a, b) && Extends(b, c)
    ensures Extends(a, c)
  {
    forall id | id in a.topics ensures id in c.topics && SameShape(a.topics[id], c.topics[id]) {
      assert SameShape(a.topics[id], b.topics[id]) && SameShape(b.topics[id], c.topics[id]);
    }
  }

  /** Every accepted history: the catalog is valid, its revision is the log end,
      and it extends every earlier catalog. */
  lemma {:induction false} ReplayValid(s: State, events: seq<Event>)
    requires Valid(s) && ReplayFrom(s, s.revision, events).Some?
    ensures Valid(ReplayFrom(s, s.revision, events).value)
    ensures ReplayFrom(s, s.revision, events).value.revision == s.revision + |events|
    ensures Extends(s, ReplayFrom(s, s.revision, events).value)
    decreases events
  {
    hide Transition, Valid;
    if events != [] {
      var n := Transition(s, s.revision, events[0]).value;
      TransitionValid(s, events[0]);
      TransitionExtends(s, events[0]);
      ReplayValid(n, events[1..]);
      ExtendsTransitive(s, n, ReplayFrom(s, s.revision, events).value);
    }
  }

  lemma EmptyValid()
    ensures Valid(EMPTY)
  {
  }

  /** Over all histories the retired inventory of a partition tiles [0, L). */
  lemma {:induction false} RetiredInventoryTiles(events: seq<Event>, id: Id, i: u32)
    requires ReplayFrom(EMPTY, 0, events).Some?
    requires id in ReplayFrom(EMPTY, 0, events).value.topics
    requires i < |ReplayFrom(EMPTY, 0, events).value.topics[id].partitions|
    ensures var t := ReplayFrom(EMPTY, 0, events).value.topics[id];
            Tiles(RetiredOf(t, i), t.partitions[i].retainedL)
  {
    ReplayValid(EMPTY, events);
    var t := ReplayFrom(EMPTY, 0, events).value.topics[id];
    assert TopicOk(id, t, ReplayFrom(EMPTY, 0, events).value.revision);
    assert PartitionOk(t, i, ReplayFrom(EMPTY, 0, events).value.revision);
  }
}
