/** The topic catalog: an event-sourced projection of the cluster-metadata log. */
module Catalog {
  import opened Base

  const MAX_TOPIC_PARTITIONS: int := 65_536
  const CLUSTER_METADATA_TOPIC: Id := 1
  const CONSUMER_OFFSETS_TOPIC: Id := 2

  /** A segment identity: its random identifier and the digest of its header. */
  datatype Anchor = Anchor(id: Id, hash: Hash)

  predicate ValidAnchor(a: Anchor) { a.id != 0 && a.hash != 0 }

  /** Retention reasons; bits other than these two are refused when decoding. */
  datatype Mask = Mask(time: bool, size: bool)

  predicate NoReason(m: Mask) { !m.time && !m.size }

  predicate WithinMask(reason: Mask, policy: Mask) {
    (reason.time ==> policy.time) && (reason.size ==> policy.size)
  }

  /** The part of a partition configuration that retention and preflight read. */
  datatype Settings = Settings(mask: Mask, retentionMillis: u64, retentionBytes: u64, maxSegmentAgeMillis: u64,
                               batchBytes: u32, segmentBytes: u64)

  /** A validated configuration: every segment has room for a header and a batch. */
  type Config = s: Settings | s.segmentBytes >= 72 + s.batchBytes witness Settings(Mask(false, false), 0, 0, 0, 0, 72)

  datatype StoreInit = StoreInit(store: Id, catalogInitial: Anchor, offsetsInitial: Anchor,
                                 catalogConfig: Config, offsetsConfig: Config)

  datatype CreatedPartition = CreatedPartition(partition: u32, config: Config, initial: Anchor)

  datatype Retired = Retired(base: u64, end: u64, bytes: u64, anchor: Anchor)

  datatype Event =
    | StoreInitialized(init: StoreInit)
    | TopicCreated(store: Id, expectedNext: u64, topic: Id, name: Bytes, partitions: seq<CreatedPartition>)
    | LogStartAdvanced(store: Id, expectedNext: u64, key: TopicKey, oldL: u64, newL: u64, durableEnd: u64,
                       anchor: Anchor, reason: Mask, retired: seq<Retired>)

  datatype Partition = Partition(partition: u32, config: Config, initial: Anchor, retainedL: u64,
                                 current: Anchor, boundaryNext: u64, maxRetirementH: u64)

  datatype Topic = Topic(id: Id, name: Bytes, partitions: seq<Partition>,
                         retired: map<u32, map<u64, Retired>>, creation: u64)

  datatype State = State(init: Option<StoreInit>, revision: u64, byName: map<Bytes, Id>, topics: map<Id, Topic>)

  const EMPTY: State := State(None, 0, map[], map[])

  function StoreOf(s: State): Id {
    if s.init.Some? then s.init.value.store else 0
  }

  function RetiredOf(t: Topic, partition: u32): map<u64, Retired> {
    if partition in t.retired then t.retired[partition] else map[]
  }

  // ---------------------------------------------------------------- payloads

  predicate ValidInit(init: StoreInit) {
    init.store != 0 && ValidAnchor(init.catalogInitial) && ValidAnchor(init.offsetsInitial)
  }

  /** What the payload decoders accept, before the projection is consulted. */
  predicate ValidPayload(e: Event) {
    match e
    case StoreInitialized(init) => ValidInit(init)
    case TopicCreated(store, _, topic, _, parts) =>
      && store != 0
      && topic != 0 && topic != CLUSTER_METADATA_TOPIC && topic != CONSUMER_OFFSETS_TOPIC
      && 0 < |parts| <= MAX_TOPIC_PARTITIONS
      && forall i | 0 <= i < |parts| :: parts[i].partition == i && ValidAnchor(parts[i].initial)
    case LogStartAdvanced(store, _, key, oldL, newL, durableEnd, anchor, reason, retired) =>
      && store != 0 && ValidKey(key) && ValidAnchor(anchor) && !NoReason(reason)
      && 0 < |retired| <= MAX_TOPIC_PARTITIONS
      && (forall i | 0 <= i < |retired| :: retired[i].base < retired[i].end && ValidAnchor(retired[i].anchor))
      && (forall i | 0 < i < |retired| :: retired[i - 1].base < retired[i].base)
      && oldL < newL <= durableEnd
  }

  // ------------------------------------------------------------- transitions

  /** The retired segments follow one another from `from` exactly to `to`. */
  predicate Spans(retired: seq<Retired>, from: u64, to: u64) {
    if retired == [] then from == to
    else
      && retired[0].base == from
      && retired[0].base < retired[0].end <= to
      && retired[0].bytes != 0
      && Spans(retired[1..], retired[0].end, to)
  }

  predicate FreshIdentities(retired: seq<Retired>, successor: Id) {
    && (forall i, j | 0 <= i < j < |retired| :: retired[i].anchor.id != retired[j].anchor.id)
    && (forall i | 0 <= i < |retired| :: retired[i].anchor.id != successor)
  }

  /** When the projection accepts a retention event for the partition it names. */
  predicate AdvanceAllowed(p: Partition, e: Event)
    requires e.LogStartAdvanced?
  {
    && p.retainedL == e.oldL
    && e.oldL < e.newL <= e.durableEnd
    && WithinMask(e.reason, p.config.mask) && !NoReason(e.reason)
    && p.maxRetirementH <= e.durableEnd
    && e.retired != []
    && e.retired[0].anchor == p.current
    && Spans(e.retired, e.oldL, e.newL)
    && FreshIdentities(e.retired, e.anchor.id)
  }

  function Merge(inventory: map<u64, Retired>, retired: seq<Retired>): map<u64, Retired>
    decreases retired
  {
    if retired == [] then inventory
    else Merge(inventory[retired[0].base := retired[0]], retired[1..])
  }

  function NewPartition(created: CreatedPartition, offset: Offset): Partition {
    Partition(created.partition, created.config, created.initial, 0, created.initial, offset + 1, 0)
  }

  function NewPartitions(created: seq<CreatedPartition>, offset: Offset): seq<Partition> {
    seq(|created|, i requires 0 <= i < |created| => NewPartition(created[i], offset))
  }

  function AdvancedPartition(p: Partition, e: Event, offset: Offset): Partition
    requires e.LogStartAdvanced?
  {
    p.(retainedL := e.newL, current := e.anchor, boundaryNext := offset + 1,
    maxRetirementH := Max(p.maxRetirementH, e.durableEnd))
  }

  function AdvancedTopic(t: Topic, e: Event, offset: Offset): Topic
    requires e.LogStartAdvanced? && e.key.partition < |t.partitions|
  {
    var i := e.key.partition;
    t.(partitions := t.partitions[i := AdvancedPartition(t.partitions[i], e, offset)],
    retired := t.retired[i := Merge(RetiredOf(t, i), e.retired)])
  }

  /** The state an accepted event leads to; None when the event is corrupt here. */
  function Transition(s: State, offset: Offset, e: Event): Option<State> {
    if !ValidPayload(e) then None
    else match e
      case StoreInitialized(init) =>
        if offset != 0 || s.revision != 0 then None
        else Some(s.(init := Option.Some(init), revision := 1))
      case TopicCreated(store, expectedNext, topic, name, parts) =>
        if s.revision == 0 || store != StoreOf(s) || expectedNext != offset || name in s.byName || topic in s.topics
        then None
        else
          var t := Topic(topic, name, NewPartitions(parts, offset), map[], offset);
          Some(s.(byName := s.byName[name := topic], topics := s.topics[topic := t], revision := offset + 1))
      case LogStartAdvanced(store, expectedNext, key, _, _, _, _, _, _) =>
        if store != StoreOf(s) || expectedNext != offset || key.topic !in s.topics then None
        else
          var t := s.topics[key.topic];
          if key.partition >= |t.partitions| || !AdvanceAllowed(t.partitions[key.partition], e) then None
          else Some(s.(topics := s.topics[key.topic := AdvancedTopic(t, e, offset)], revision := offset + 1))
  }

  /** What an accepted retention event changes: the one partition it names. */
  lemma AdvanceIs(s: State, offset: Offset, e: Event)
    requires e.LogStartAdvanced? && Transition(s, offset, e).Some?
    ensures e.key.topic in s.topics && e.key.partition < |s.topics[e.key.topic].partitions|
    ensures Transition(s, offset, e).value ==
            s.(topics := s.topics[e.key.topic := AdvancedTopic(s.topics[e.key.topic], e, offset)],
               revision := offset + 1)
  {
    hide AdvanceAllowed, AdvancedTopic;
  }

  /** Applying the records from `offset` on; None as soon as one is refused. */
  function ReplayFrom(s: State, offset: nat, events: seq<Event>): Option<State>
    decreases events
  {
    if events == [] then Some(s)
    else if offset >= MAX_OFFSET then None
    else match Transition(s, offset, events[0])
      case None => None
      case Some(next) => ReplayFrom(next, offset + 1, events[1..])
  }

  /** Replaying a log is replaying a prefix and then the rest. */
  lemma {:induction false} ReplaySplit(s: State, offset: nat, front: seq<Event>, back: seq<Event>)
    ensures ReplayFrom(s, offset, front + back) ==
            (match ReplayFrom(s, offset, front)
             case None => None
             case Some(m) => ReplayFrom(m, offset + |front|, back))
    decreases front
  {
    hide Transition;
    if front == [] {
      assert front + back == back;
    } else {
      assert (front + back)[0] == front[0] && (front + back)[1..] == front[1..] + back;
      if offset < MAX_OFFSET && Transition(s, offset, front[0]).Some? {
        ReplaySplit(Transition(s, offset, front[0]).value, offset + 1, front[1..], back);
      }
    }
  }

  // -------------------------------------------------------------- projection

  /** The live projection, updated in place by one record at a time. Topics are
      held once, by identifier; the name index points at them. */
  class Projection {
    var init: Option<StoreInit>
    var revision: u64
    var byName: map<Bytes, Id>
    var topics: map<Id, Topic>

    function View(): State reads this {
      State(init, revision, byName, topics)
    }

    constructor ()
      ensures View() == EMPTY
    {
      init, revision, byName, topics := None, 0, map[], map[];
    }

    /** Accepts exactly the events the transition function accepts, and leaves
        the projection alone when it refuses one. */
    method Apply(offset: Offset, e: Event) returns (ok: bool)
      modifies this
      ensures ok <==> Transition(old(View()), offset, e).Some?
      ensures View() == if ok then Transition(old(View()), offset, e).value else old(View())
    {
      if !ValidPayload(e) { return false; }
      match e {
        case StoreInitialized(event) =>
          if offset != 0 || revision != 0 { return false; }
          init := Some(event);
          revision := 1;
          return true;
        case TopicCreated(store, expectedNext, topic, name, parts) =>
          if revision == 0 || store != StoreOf(View()) || expectedNext != offset { return false; }
          if name in byName || topic in topics { return false; }
          var partitions: seq<Partition> := [];
          for i := 0 to |parts|
            invariant partitions == NewPartitions(parts, offset)[..i]
          {
            partitions := partitions + [NewPartition(parts[i], offset)];
          }
          assert partitions == NewPartitions(parts, offset);
          byName := byName[name := topic];
          topics := topics[topic := Topic(topic, name, partitions, map[], offset)];
          revision := offset + 1;
          return true;
        case LogStartAdvanced(store, expectedNext, key, oldL, newL, durableEnd, anchor, reason, retired) =>
          if store != StoreOf(View()) || expectedNext != offset { return false; }
          if key.topic !in topics || key.partition >= |topics[key.topic].partitions| { return false; }
          var t := topics[key.topic];
          var p := t.partitions[key.partition];
          if p.retainedL != oldL || newL <= oldL || newL > durableEnd { return false; }
          if !WithinMask(reason, p.config.mask) || NoReason(reason) { return false; }
          if durableEnd < p.maxRetirementH { return false; }
          if |retired| == 0 || retired[0].base != oldL || retired[0].anchor != p.current { return false; }
          var spans := CheckRetired(retired, oldL, newL, anchor.id);
          if !spans { return false; }
          var inventory: map<u64, Retired> := RetiredOf(t, key.partition);
          for i := 0 to |retired|
            invariant Merge(inventory, retired[i..]) == Merge(RetiredOf(t, key.partition), retired)
          {
            assert retired[i..][1..] == retired[i + 1..];
            inventory := inventory[retired[i].base := retired[i]];
          }
          p := p.(retainedL := newL, current := anchor, boundaryNext := offset + 1);
          if durableEnd > p.maxRetirementH {
            p := p.(maxRetirementH := durableEnd);
          }
          topics := topics[key.topic := t.(partitions := t.partitions[key.partition := p],
          retired := t.retired[key.partition := inventory])];
          revision := offset + 1;
          return true;
      }
    }

    /** A whole log, which must begin with the store's initialization. */
    method ReplayAll(log: seq<Event>) returns (ok: bool)
      requires View() == EMPTY && |log| <= MAX_OFFSET
      modifies this
      ensures ok <==> ReplayFrom(EMPTY, 0, log).Some? && ReplayFrom(EMPTY, 0, log).value.init.Some?
      ensures ok ==> View() == ReplayFrom(EMPTY, 0, log).value
    {
      hide Transition;
      ok := Replay(0, log);
      ok := ok && revision != 0;
      if ReplayFrom(EMPTY, 0, log).Some? { Started(EMPTY, 0, log); }
    }

    /** Applies every record of a log that starts at `base`. */
    method Replay(base: nat, log: seq<Event>) returns (ok: bool)
      requires base + |log| <= MAX_OFFSET
      modifies this
      ensures ok <==> ReplayFrom(old(View()), base, log).Some?
      ensures ok ==> View() == ReplayFrom(old(View()), base, log).value
    {
      hide Transition;
      for i := 0 to |log|
        invariant ReplayFrom(old(View()), base, log) == ReplayFrom(View(), base + i, log[i..])
      {
        assert log[i..][0] == log[i] && log[i..][1..] == log[i + 1..];
        var accepted := Apply(base + i, log[i]);
        if !accepted { return false; }
      }
      return true;
    }
  }

  /** A catalog is initialized exactly when its revision is not zero. */
  lemma {:induction false} Started(s: State, offset: nat, log: seq<Event>)
    requires (s.init.Some? <==> s.revision != 0) && ReplayFrom(s, offset, log).Some?
    ensures ReplayFrom(s, offset, log).value.init.Some? <==> ReplayFrom(s, offset, log).value.revision != 0
    decreases log
  {
    if log != [] { Started(Transition(s, offset, log[0]).value, offset + 1, log[1..]); }
  }

  lemma {:induction false} SpansAppend(retired: seq<Retired>, from: u64, middle: u64, to: u64, next: Retired)
    requires Spans(retired, from, middle) && middle <= to
    requires next.base == middle && next.base < next.end <= to && next.bytes != 0
    ensures Spans(retired + [next], from, next.end)
  {
    if retired == [] {
      assert (retired + [next])[1..] == [];
    } else {
      assert (retired + [next])[0] == retired[0];
      assert (retired + [next])[1..] == retired[1..] + [next];
      SpansAppend(retired[1..], retired[0].end, middle, to, next);
    }
  }

  lemma {:induction false} SpansAt(retired: seq<Retired>, from: u64, to: u64, i: nat)
    requires Spans(retired, from, to) && i < |retired|
    ensures from <= retired[i].base < retired[i].end <= to && retired[i].bytes != 0
    ensures retired[i].base == (if i == 0 then from else retired[i - 1].end)
    ensures i + 1 == |retired| ==> retired[i].end == to
  {
    if i > 0 {
      SpansAt(retired[1..], retired[0].end, to, i - 1);
    } else if |retired| == 1 {
      assert retired[1..] == [];
    }
  }

  /** The scan of a retirement list: consecutive extents, no identity repeated,
      the successor not among them. */
  method CheckRetired(retired: seq<Retired>, from: u64, to: u64, successor: Id) returns (ok: bool)
    requires from <= to
    ensures ok <==> Spans(retired, from, to) && FreshIdentities(retired, successor)
  {
    var cursor := from;
    var seen: set<Id> := {};
    for i := 0 to |retired|
      invariant from <= cursor <= to
      invariant Spans(retired[..i], from, cursor)
      invariant cursor == if i == 0 then from else retired[i - 1].end
      invariant seen == set r | r in retired[..i] :: r.anchor.id
      invariant FreshIdentities(retired[..i], successor)
    {
      var r := retired[i];
      assert retired[..i + 1] == retired[..i] + [r];
      if r.base != cursor || r.base >= r.end || r.end > to || r.bytes == 0 {
        if Spans(retired, from, to) { SpansAt(retired, from, to, i); }
        return false;
      }
      if r.anchor.id in seen {
        var q :| q in retired[..i] && q.anchor.id == r.anchor.id;
        return false;
      }
      if r.anchor.id == successor { return false; }
      SpansAppend(retired[..i], from, cursor, to, r);
      cursor := r.end;
      seen := seen + {r.anchor.id};
      assert forall q | q in retired[..i] :: q.anchor.id in seen;
      forall k | 0 <= k < i ensures retired[k].anchor.id != r.anchor.id {
        assert retired[k] in retired[..i];
      }
    }
    assert retired[..|retired|] == retired;
    if cursor != to {
      if Spans(retired, from, to) && retired != [] { SpansAt(retired, from, to, |retired| - 1); }
      return false;
    }
    return true;
  }
}
