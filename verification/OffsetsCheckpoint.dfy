/** The offsets checkpoint: a canonical listing of a projection, and its reader. */
module OffsetsCheckpoint {
  import opened Base
  import opened Sorting
  import opened Offsets
  import opened OffsetsHistory
  import Catalog
  import CC = CatalogCheckpoint

  const MAX_COUNT: int := Catalog.MAX_TOPIC_PARTITIONS

  datatype ProgressEntry = ProgressEntry(key: TopicKey, progress: Progress)
  datatype GroupEntry = GroupEntry(creationOffset: Offset, creationBody: Event, generation: u64,
                                   assignmentOffset: u64, assignmentBody: Option<Event>,
                                   progress: seq<ProgressEntry>)
  type Payload = seq<GroupEntry>

  // ------------------------------------------------------------------ limits

  function SubscriptionCount(members: seq<Member>): nat {
    if members == [] then 0
    else SubscriptionCount(members[..|members| - 1]) + |members[|members| - 1].subscriptions|
  }

  function BodyEntries(e: Event): nat {
    match e
    case GroupCreated(_, _, _, _, starts) => |starts|
    case AssignmentChanged(_, _, _, _, _, _, _, members, placed) => |members| + SubscriptionCount(members) + |placed|
    case _ => 0
  }

  function BodyBytes(e: Event): nat {
    match e
    case GroupCreated(_, _, group, _, starts) => 36 + |group| + 28 * |starts|
    case AssignmentChanged(_, _, group, _, _, _, _, members, placed) =>
      72 + |group| + 20 * |members| + 20 * SubscriptionCount(members) + 56 * |placed|
    case _ => 0
  }

  function EntryCount(g: GroupEntry): nat {
    1 + BodyEntries(g.creationBody) + |g.progress|
    + if g.assignmentBody.Some? then BodyEntries(g.assignmentBody.value) else 0
  }

  function EntryBytes(g: GroupEntry): nat {
    36 + BodyBytes(g.creationBody) + 40 * |g.progress|
    + if g.assignmentBody.Some? then BodyBytes(g.assignmentBody.value) else 0
  }

  function Entries(p: Payload): nat {
    if p == [] then 0 else Entries(p[..|p| - 1]) + EntryCount(p[|p| - 1])
  }

  function PayloadBytes(p: Payload): nat {
    if p == [] then 4 else PayloadBytes(p[..|p| - 1]) + EntryBytes(p[|p| - 1])
  }

  // ---------------------------------------------------------------- encoding

  ghost function KeyList(progress: map<TopicKey, Progress>): (keys: seq<TopicKey>)
    ensures forall i | 0 <= i < |keys| :: keys[i] in progress
  {
    KeyOrder();
    var keys := Listing(progress.Keys, KeyLess);
    assert forall i | 0 <= i < |keys| :: keys[i] in keys;
    keys
  }

  ghost function ProgressList(progress: map<TopicKey, Progress>): seq<ProgressEntry> {
    var keys := KeyList(progress);
    seq(|keys|, i requires 0 <= i < |keys| => ProgressEntry(keys[i], progress[keys[i]]))
  }

  ghost function EntryOf(g: Group): GroupEntry {
    GroupEntry(g.creationOffset, g.creationBody, g.generation, g.assignmentOffset, g.assignmentBody,
               ProgressList(g.progress))
  }

  ghost function GroupIds(s: State): (ids: seq<GroupId>)
    ensures forall i | 0 <= i < |ids| :: ids[i] in s.groups
  {
    GroupOrder();
    var ids := Listing(s.groups.Keys, BytesLess);
    assert forall i | 0 <= i < |ids| :: ids[i] in ids;
    ids
  }

  ghost function GroupList(s: State): Payload {
    var ids := GroupIds(s);
    seq(|ids|, i requires 0 <= i < |ids| => EntryOf(s.groups[ids[i]]))
  }

  ghost function Encode(s: State): Option<Payload> {
    var p := GroupList(s);
    if Entries(p) <= CC.MAX_ENTRIES && PayloadBytes(p) <= CC.MAX_PAYLOAD then Some(p) else None
  }

  // ---------------------------------------------------------------- decoding

  predicate ProgressEntryOk(e: ProgressEntry, cat: Catalog.State) {
    ValidKey(e.key) && ProgressOk(e.progress) && Known(cat, e.key, cat.revision)
  }

  predicate ProgressListOk(entries: seq<ProgressEntry>, cat: Catalog.State) {
    && (forall i | 0 <= i < |entries| :: ProgressEntryOk(entries[i], cat))
    && (forall i, j | 0 <= i < j < |entries| :: entries[i].key != entries[j].key)
  }

  function ProgressMap(entries: seq<ProgressEntry>): map<TopicKey, Progress> {
    if entries == [] then map[]
    else
      var last := entries[|entries| - 1];
      ProgressMap(entries[..|entries| - 1])[last.key := last.progress]
  }

  /** The reader asks less of a stored assignment than live application does: it
      re-checks identity, knowledge, single ownership, coverage and the baseline
      window, but not the order of members. */
  predicate StoredSubscriptionsOk(subs: seq<TopicKey>, cat: Catalog.State, catalogNext: u64) {
    && |subs| <= MAX_COUNT
    && (forall i | 0 <= i < |subs| :: ValidKey(subs[i]) && Known(cat, subs[i], catalogNext))
    && (forall i, j | 0 <= i < j < |subs| :: subs[i] != subs[j])
  }

  predicate StoredMembersOk(members: seq<Member>, cat: Catalog.State, catalogNext: u64) {
    && (forall i | 0 <= i < |members| ::
          members[i].session != 0 && StoredSubscriptionsOk(members[i].subscriptions, cat, catalogNext))
    && (forall i, j | 0 <= i < j < |members| ::
          DisjointKeys(members[i].subscriptions, members[j].subscriptions))
  }

  predicate StoredPlacementOk(a: Placement, subscribed: map<TopicKey, Id>, progress: map<TopicKey, Progress>) {
    PlacementTracked(a, progress) && a.key in subscribed && subscribed[a.key] == a.owner
  }

  predicate StoredPlacedOk(placed: seq<Placement>, subscribed: map<TopicKey, Id>, progress: map<TopicKey, Progress>) {
    && (forall i | 0 <= i < |placed| :: StoredPlacementOk(placed[i], subscribed, progress))
    && OwnerMap(placed) == subscribed
  }

  predicate StoredAssignmentOk(b: Event, id: GroupId, generation: u64, progress: map<TopicKey, Progress>,
                               cat: Catalog.State, store: Id)
  {
    && b.AssignmentChanged? && b.store == store && b.group == id
    && 0 < b.catalogNext <= cat.revision
    && b.instance != 0
    && b.generation == generation == WrappingSucc(b.expected)
    && |b.members| <= MAX_COUNT && StoredMembersOk(b.members, cat, b.catalogNext)
    && |b.placed| <= MAX_COUNT && StoredPlacedOk(b.placed, Subscribed(b.members), progress)
  }

  predicate EntryOk(e: GroupEntry, next: u64, cat: Catalog.State, store: Id) {
    && e.creationOffset < next
    && (e.assignmentOffset < next || e.assignmentOffset == 0)
    && |e.progress| <= MAX_COUNT && ProgressListOk(e.progress, cat)
    && e.creationBody.GroupCreated?
    && (if e.assignmentBody.Some?
        then StoredAssignmentOk(e.assignmentBody.value, e.creationBody.group, e.generation,
                                ProgressMap(e.progress), cat, store)
        else e.generation == 0 && e.assignmentOffset == 0)
  }

  /** One group entry: its creation record is applied again, and the rest of the
      group is put back around it. */
  function DecodeGroup(s: State, e: GroupEntry, next: u64, cat: Catalog.State): Option<State> {
    if !EntryOk(e, next, cat, s.store) then None
    else match Transition(s, e.creationOffset, e.creationBody, cat)
      case None => None
      case Some(n) =>
        var id := e.creationBody.group;
        assert id in n.groups;
        var g := n.groups[id].(progress := ProgressMap(e.progress));
        var restored :=
          if e.assignmentBody.None? then g
          else
            var b := e.assignmentBody.value;
            g.(generation := e.generation, assignmentOffset := e.assignmentOffset, assignmentBody := Some(b),
            owners := Subscribed(b.members), members := Sessions(b.members), instance := b.instance);
        Some(n.(groups := n.groups[id := restored]))
  }

  function DecodeGroups(s: State, entries: seq<GroupEntry>, next: u64, cat: Catalog.State): Option<State> {
    if entries == [] then Some(s)
    else match DecodeGroups(s, entries[..|entries| - 1], next, cat)
      case None => None
      case Some(m) => DecodeGroup(m, entries[|entries| - 1], next, cat)
  }

  function Decode(p: Payload, next: u64, store: Id, cat: Catalog.State): Option<State> {
    if |p| > MAX_COUNT then None
    else match DecodeGroups(Fresh(store), p, next, cat)
      case None => None
      case Some(s) => Some(s.(revision := next))
  }

  // -------------------------------------------------------------- round trip

  /** The reader's counting limits, which the writer does not enforce. */
  predicate AssignmentCountsOk(b: Event)
    requires b.AssignmentChanged?
  {
    && |b.members| <= MAX_COUNT && |b.placed| <= MAX_COUNT
    && forall i | 0 <= i < |b.members| :: |b.members[i].subscriptions| <= MAX_COUNT
  }

  predicate GroupCountsOk(g: Group) {
    && |g.progress| <= MAX_COUNT
    && (g.assignmentBody.Some? && g.assignmentBody.value.AssignmentChanged? ==>
        AssignmentCountsOk(g.assignmentBody.value))
  }

  predicate CountsOk(s: State) {
    && |s.groups| <= MAX_COUNT
    && forall id | id in s.groups :: GroupCountsOk(s.groups[id])
  }

  lemma {:induction false} ProgressMapAt(entries: seq<ProgressEntry>, key: TopicKey)
    requires forall i, j | 0 <= i < j < |entries| :: entries[i].key != entries[j].key
    ensures key in ProgressMap(entries) <==> exists i :: 0 <= i < |entries| && entries[i].key == key
    ensures forall i | 0 <= i < |entries| && entries[i].key == key :: ProgressMap(entries)[key] == entries[i].progress
  {
    if entries != [] {
      var n := |entries| - 1;
      ProgressMapAt(entries[..n], key);
      assert forall i | 0 <= i < n :: entries[..n][i] == entries[i];
    }
  }

  lemma KeyListAt(progress: map<TopicKey, Progress>)
    ensures |KeyList(progress)| == |progress|
    ensures forall i, j | 0 <= i < j < |KeyList(progress)| :: KeyList(progress)[i] != KeyList(progress)[j]
    ensures forall k | k in progress :: exists i :: 0 <= i < |KeyList(progress)| && KeyList(progress)[i] == k
  {
    KeyOrder();
    var keys := Listing(progress.Keys, KeyLess);
    AscendingLength(keys, progress.Keys, KeyLess);
    forall i, j | 0 <= i < j < |keys| ensures keys[i] != keys[j] {
      assert KeyLess(keys[i], keys[j]);
    }
    forall k | k in progress ensures exists i :: 0 <= i < |keys| && keys[i] == k {
      assert k in keys;
    }
  }

  lemma ProgressRoundTrip(progress: map<TopicKey, Progress>, cat: Catalog.State)
    requires forall k | k in progress :: ProgressOk(progress[k]) && ValidKey(k) && Known(cat, k, cat.revision)
    ensures ProgressListOk(ProgressList(progress), cat)
    ensures |ProgressList(progress)| == |progress|
    ensures ProgressMap(ProgressList(progress)) == progress
  {
    hide KeyList, ProgressMap, Known;
    KeyListAt(progress);
    var keys, list := KeyList(progress), ProgressList(progress);
    forall k
      ensures k in ProgressMap(list) <==> k in progress
      ensures k in progress ==> ProgressMap(list)[k] == progress[k]
    {
      ProgressMapAt(list, k);
      if k in progress {
        var i :| 0 <= i < |keys| && keys[i] == k;
        assert list[i].key == k;
      }
    }
  }

  lemma MembersStored(members: seq<Member>, cat: Catalog.State, catalogNext: u64)
    requires MembersOk(members, cat, catalogNext)
    ensures StoredMembersOk(members, cat, catalogNext) <==>
            forall i | 0 <= i < |members| :: |members[i].subscriptions| <= MAX_COUNT
  {
    hide Known;
    forall i | 0 <= i < |members|
      ensures StoredSubscriptionsOk(members[i].subscriptions, cat, catalogNext) <==>
              |members[i].subscriptions| <= MAX_COUNT
    {
      var subs := members[i].subscriptions;
      assert SubscriptionsOk(subs, cat, catalogNext);
      forall j, k | 0 <= j < k < |subs| ensures subs[j] != subs[k] {
        assert KeyLess(subs[j], subs[k]);
      }
    }
  }

  /** A reachable group's last assignment passes every check of the reader that
      is not a count. */
  lemma AssignmentStored(g: Group, id: GroupId, store: Id, cat: Catalog.State)
    requires g.assignmentBody.Some? && AssignmentOk(g, id, store, cat)
    ensures StoredAssignmentOk(g.assignmentBody.value, id, g.generation, g.progress, cat, store) <==>
            AssignmentCountsOk(g.assignmentBody.value)
  {
    hide MembersOk, StoredMembersOk, Subscribed, OwnerMap;
    var b := g.assignmentBody.value;
    MembersStored(b.members, cat, b.catalogNext);
    forall i | 0 <= i < |b.placed| ensures StoredPlacementOk(b.placed[i], Subscribed(b.members), g.progress) {
      assert PlacementTracked(b.placed[i], g.progress);
      OwnerMapAt(b.placed, i);
    }
  }

  lemma EntryStored(g: Group, id: GroupId, store: Id, revision: u64, cat: Catalog.State)
    requires GroupOk(g, id, store, revision, cat)
    ensures EntryOk(EntryOf(g), revision, cat, store) <==> GroupCountsOk(g)
  {
    hide ProgressList, ProgressMap, ProgressListOk, AssignmentOk, StoredAssignmentOk, AssignmentCountsOk;
    ProgressRoundTrip(g.progress, cat);
    if g.assignmentBody.Some? {
      AssignmentStored(g, id, store, cat);
      AssignmentShape(g, id, store, cat);
    }
  }

  lemma AssignmentShape(g: Group, id: GroupId, store: Id, cat: Catalog.State)
    requires g.assignmentBody.Some? && AssignmentOk(g, id, store, cat)
    ensures g.assignmentBody.value.AssignmentChanged?
    ensures g.owners == Subscribed(g.assignmentBody.value.members)
    ensures g.members == Sessions(g.assignmentBody.value.members)
    ensures g.instance == g.assignmentBody.value.instance
  {
  }

  /** Decoding the entry of a reachable group restores the group. */
  lemma GroupRoundTrip(s: State, g: Group, id: GroupId, revision: u64, cat: Catalog.State)
    requires GroupOk(g, id, s.store, revision, cat) && id !in s.groups
    ensures DecodeGroup(s, EntryOf(g), revision, cat).Some? <==> GroupCountsOk(g)
    ensures GroupCountsOk(g) ==>
              var n := DecodeGroup(s, EntryOf(g), revision, cat).value;
              n.groups == s.groups[id := g] && n.store == s.store
  {
    hide ProgressList, ProgressMap, EntryOk, AssignmentOk, GroupCountsOk, StartsOk, ProgressOk;
    EntryStored(g, id, s.store, revision, cat);
    ProgressRoundTrip(g.progress, cat);
    if g.assignmentBody.Some? {
      AssignmentShape(g, id, s.store, cat);
    }
    CreationReplays(s, g, id, revision, cat);
  }

  lemma CreationReplays(s: State, g: Group, id: GroupId, revision: u64, cat: Catalog.State)
    requires GroupOk(g, id, s.store, revision, cat) && id !in s.groups
    ensures var n := Transition(s, g.creationOffset, g.creationBody, cat);
            && n.Some? && n.value.store == s.store
            && n.value.groups == s.groups[id := NewGroup(g.creationOffset, g.creationBody)]
    ensures NewGroup(g.creationOffset, g.creationBody).startMode == g.startMode
    ensures NewGroup(g.creationOffset, g.creationBody).explicitStarts == g.explicitStarts
  {
    hide AssignmentOk, Known;
  }

  lemma GroupIdsAt(s: State)
    ensures |GroupIds(s)| == |s.groups|
    ensures forall i, j | 0 <= i < j < |GroupIds(s)| :: GroupIds(s)[i] != GroupIds(s)[j]
    ensures forall id | id in s.groups :: exists i :: 0 <= i < |GroupIds(s)| && GroupIds(s)[i] == id
  {
    GroupOrder();
    hide BytesLess;
    var ids := Listing(s.groups.Keys, BytesLess);
    AscendingLength(ids, s.groups.Keys, BytesLess);
    forall i, j | 0 <= i < j < |ids| ensures ids[i] != ids[j] {
      assert BytesLess(ids[i], ids[j]);
    }
    forall id | id in s.groups ensures exists i :: 0 <= i < |ids| && ids[i] == id {
      assert id in ids;
    }
  }

  ghost predicate PrefixRestored(m: State, s: State, n: nat)
    requires n <= |GroupIds(s)|
  {
    && m.store == s.store
    && (forall id :: id in m.groups <==> id in GroupIds(s)[..n])
    && (forall id | id in m.groups :: id in s.groups && m.groups[id] == s.groups[id])
  }

  lemma {:induction false} PrefixRoundTrip(s: State, n: nat, cat: Catalog.State)
    requires Valid(s, cat) && n <= |GroupIds(s)|
    ensures DecodeGroups(Fresh(s.store), GroupList(s)[..n], s.revision, cat).Some? <==>
            forall i | 0 <= i < n :: GroupCountsOk(s.groups[GroupIds(s)[i]])
    ensures DecodeGroups(Fresh(s.store), GroupList(s)[..n], s.revision, cat).Some? ==>
              PrefixRestored(DecodeGroups(Fresh(s.store), GroupList(s)[..n], s.revision, cat).value, s, n)
  {
    hide DecodeGroup, GroupCountsOk, GroupIds, GroupOk, EntryOf, Valid, PrefixRestored;
    if n == 0 {
      NothingRestored(s);
    } else {
      PrefixRoundTrip(s, n - 1, cat);
      var ids, list := GroupIds(s), GroupList(s);
      assert list[..n][..n - 1] == list[..n - 1];
      var before := DecodeGroups(Fresh(s.store), list[..n - 1], s.revision, cat);
      if before.Some? {
        var m, id := before.value, ids[n - 1];
        GroupValid(s, id, cat);
        NotRestored(m, s, n);
        GroupRoundTrip(m, s.groups[id], id, s.revision, cat);
        if GroupCountsOk(s.groups[id]) { MoreRestored(m, DecodeGroup(m, list[n - 1], s.revision, cat).value, s, n); }
      }
    }
  }

  lemma GroupValid(s: State, id: GroupId, cat: Catalog.State)
    requires Valid(s, cat) && id in s.groups
    ensures GroupOk(s.groups[id], id, s.store, s.revision, cat)
  {
    hide GroupOk;
  }

  lemma NothingRestored(s: State)
    ensures PrefixRestored(Fresh(s.store), s, 0)
  {
  }

  lemma NotRestored(m: State, s: State, n: nat)
    requires 0 < n <= |GroupIds(s)| && PrefixRestored(m, s, n - 1)
    ensures m.store == s.store && GroupIds(s)[n - 1] !in m.groups
  {
    hide GroupIds;
    GroupIdsAt(s);
  }

  lemma MoreRestored(m: State, next: State, s: State, n: nat)
    requires 0 < n <= |GroupIds(s)| && PrefixRestored(m, s, n - 1) && next.store == s.store
    requires var id := GroupIds(s)[n - 1]; next.groups == m.groups[id := s.groups[id]]
    ensures PrefixRestored(next, s, n)
  {
    hide GroupIds;
    assert GroupIds(s)[..n] == GroupIds(s)[..n - 1] + [GroupIds(s)[n - 1]];
  }

  /** Decoding the checkpoint of a reachable projection gives the projection
      back, exactly when the reader's counting limits are met. */
  lemma RoundTrip(s: State, cat: Catalog.State)
    requires Valid(s, cat) && Encode(s).Some?
    ensures Decode(Encode(s).value, s.revision, s.store, cat) == if CountsOk(s) then Some(s) else None
  {
    hide GroupCountsOk, GroupIds, DecodeGroups, Valid, Entries, PayloadBytes, EntryOf;
    var n := |GroupIds(s)|;
    assert GroupList(s)[..n] == GroupList(s);
    PrefixRoundTrip(s, n, cat);
    GroupIdsAt(s);
    assert (forall i | 0 <= i < n :: GroupCountsOk(s.groups[GroupIds(s)[i]])) <==>
      (forall id | id in s.groups :: GroupCountsOk(s.groups[id])) by {
      if forall i | 0 <= i < n :: GroupCountsOk(s.groups[GroupIds(s)[i]]) {
        forall id | id in s.groups ensures GroupCountsOk(s.groups[id]) {
          var i :| 0 <= i < n && GroupIds(s)[i] == id;
        }
      }
    }
    var m := DecodeGroups(Fresh(s.store), GroupList(s), s.revision, cat);
    if m.Some? {
      assert GroupIds(s)[..n] == GroupIds(s);
      assert m.value.groups == s.groups;
    }
  }

  // ------------------------------------------------------------- the writer

  method CountSubscriptions(members: seq<Member>) returns (count: nat)
    ensures count == SubscriptionCount(members)
  {
    count := 0;
    for i := 0 to |members|
      invariant count == SubscriptionCount(members[..i])
    {
      count := count + |members[i].subscriptions|;
      assert members[..i + 1][..i] == members[..i];
    }
    assert members[..|members|] == members;
  }

  /** Entries and bytes of one body, counted by walking it. */
  method CountBody(e: Event) returns (entries: nat, bytes: nat)
    ensures entries == BodyEntries(e) && bytes == BodyBytes(e)
  {
    match e {
      case GroupCreated(_, _, group, _, starts) =>
        entries, bytes := |starts|, 36 + |group| + 28 * |starts|;
      case AssignmentChanged(_, _, group, _, _, _, _, members, placed) =>
        var subscriptions := CountSubscriptions(members);
        entries := |members| + subscriptions + |placed|;
        bytes := 72 + |group| + 20 * |members| + 20 * subscriptions + 56 * |placed|;
      case OffsetCommitted(_, _, _, _, _, _, _, _, _, _) =>
        entries, bytes := 0, 0;
    }
  }

  lemma KeyOrderListing(progress: map<TopicKey, Progress>, keys: seq<TopicKey>)
    requires StrictTotal(KeyLess) && keys == Listing(progress.Keys, KeyLess)
    ensures keys == KeyList(progress)
  {
  }

  method EncodeProgress(progress: map<TopicKey, Progress>) returns (list: seq<ProgressEntry>)
    ensures list == ProgressList(progress)
  {
    hide StrictTotal, Listing, KeyList, KeyLess;
    KeyOrder();
    var keys := Sort(progress.Keys, KeyLess);
    KeyOrderListing(progress, keys);
    list := [];
    for i := 0 to |keys|
      invariant list == ProgressList(progress)[..i]
    {
      list := list + [ProgressEntry(keys[i], progress[keys[i]])];
    }
  }

  method EncodeGroup(g: Group) returns (e: GroupEntry, entries: nat, bytes: nat)
    ensures e == EntryOf(g) && entries == EntryCount(e) && bytes == EntryBytes(e)
  {
    hide ProgressList;
    var list := EncodeProgress(g.progress);
    e := GroupEntry(g.creationOffset, g.creationBody, g.generation, g.assignmentOffset, g.assignmentBody, list);
    var bodyEntries, bodyBytes := CountBody(g.creationBody);
    entries, bytes := 1 + bodyEntries + |list|, 36 + bodyBytes + 40 * |list|;
    if g.assignmentBody.Some? {
      bodyEntries, bodyBytes := CountBody(g.assignmentBody.value);
      entries, bytes := entries + bodyEntries, bytes + bodyBytes;
    }
  }

  lemma {:induction false} LimitsMonotone(p: Payload, i: nat)
    requires i <= |p|
    ensures Entries(p[..i]) <= Entries(p) && PayloadBytes(p[..i]) <= PayloadBytes(p)
    decreases |p|
  {
    if i < |p| {
      var front := p[..|p| - 1];
      assert p[..i] == front[..i];
      LimitsMonotone(front, i);
    } else {
      assert p[..i] == p;
    }
  }

  lemma GroupOrderListing(s: State, ids: seq<GroupId>)
    requires StrictTotal(BytesLess) && ids == Listing(s.groups.Keys, BytesLess)
    ensures ids == GroupIds(s)
  {
  }

  lemma {:induction false} GroupListAt(s: State)
    ensures |GroupList(s)| == |GroupIds(s)| && Entries([]) == 0 && PayloadBytes([]) == 4
    ensures forall i | 0 <= i < |GroupIds(s)| :: GroupList(s)[i] == EntryOf(s.groups[GroupIds(s)[i]])
  {
    hide GroupIds, EntryOf;
  }

  lemma {:induction false} PayloadNext(p: Payload, e: GroupEntry)
    ensures Entries(p + [e]) == Entries(p) + EntryCount(e) && PayloadBytes(p + [e]) == PayloadBytes(p) + EntryBytes(e)
  {
    hide EntryCount, EntryBytes;
    assert (p + [e])[..|p|] == p;
  }

  /** The writer: sort, list, count, and stop once a limit is passed. */
  method EncodePayload(s: State) returns (r: Option<Payload>)
    ensures r == Encode(s)
  {
    hide StrictTotal, Listing, EntryOf, EntryCount, EntryBytes, BytesLess, GroupIds, GroupList, Entries, PayloadBytes;
    GroupOrder();
    var ids := Sort(s.groups.Keys, BytesLess);
    GroupOrderListing(s, ids);
    var p: Payload := [];
    var entries, bytes := 0, 4;
    GroupListAt(s);
    for i := 0 to |ids|
      invariant p == GroupList(s)[..i]
      invariant entries == Entries(p) && bytes == PayloadBytes(p)
      invariant entries <= CC.MAX_ENTRIES && bytes <= CC.MAX_PAYLOAD
    {
      var e, addEntries, addBytes := EncodeGroup(s.groups[ids[i]]);
      PayloadNext(p, e);
      p, entries, bytes := p + [e], entries + addEntries, bytes + addBytes;
      assert p == GroupList(s)[..i + 1];
      if entries > CC.MAX_ENTRIES || bytes > CC.MAX_PAYLOAD {
        LimitsMonotone(GroupList(s), i + 1);
        return None;
      }
    }
    assert p == GroupList(s);
    return Some(p);
  }

  // ------------------------------------------------------------- the reader

  method ReadProgress(entries: seq<ProgressEntry>, cat: Catalog.State)
    returns (ok: bool, progress: map<TopicKey, Progress>)
    ensures ok <==> ProgressListOk(entries, cat)
    ensures ok ==> progress == ProgressMap(entries)
  {
    hide Known;
    progress := map[];
    for i := 0 to |entries|
      invariant ProgressListOk(entries[..i], cat)
      invariant progress == ProgressMap(entries[..i])
    {
      var e := entries[i];
      ProgressMapAt(entries[..i], e.key);
      if !ValidKey(e.key) { return false, map[]; }
      if !e.progress.hasCommit && e.progress.committedNext != 0 { return false, map[]; }
      if e.progress.hasCommit && e.progress.committedNext < e.progress.initialNext { return false, map[]; }
      if !Known(cat, e.key, cat.revision) { return false, map[]; }
      if e.key in progress {
        var k :| 0 <= k < i && entries[..i][k].key == e.key;
        assert entries[k].key == entries[i].key;
        return false, map[];
      }
      progress := progress[e.key := e.progress];
      assert entries[..i + 1][..i] == entries[..i];
    }
    assert entries[..|entries|] == entries;
    ok := true;
  }

  method ReadStoredSubscriptions(subs: seq<TopicKey>, session: Id, earlier: map<TopicKey, Id>,
                                 cat: Catalog.State, catalogNext: u64)
    returns (ok: bool, subscribed: map<TopicKey, Id>)
    ensures ok <==> StoredSubscriptionsOk(subs, cat, catalogNext) && Unowned(subs, earlier)
    ensures ok ==> subscribed == AddSubscriptions(earlier, session, subs)
  {
    hide Known, ValidKey;
    subscribed := earlier;
    if |subs| > MAX_COUNT { return false, map[]; }
    for j := 0 to |subs|
      invariant StoredSubscriptionsOk(subs[..j], cat, catalogNext)
      invariant subscribed == AddSubscriptions(earlier, session, subs[..j])
      invariant Unowned(subs[..j], earlier)
    {
      var key := subs[j];
      if !ValidKey(key) || !Known(cat, key, catalogNext) { return false, map[]; }
      AddSubscriptionsAt(earlier, session, subs[..j], key);
      if key in subscribed { return false, map[]; }
      subscribed := subscribed[key := session];
      assert subs[..j + 1] == subs[..j] + [key];
    }
    assert subs[..|subs|] == subs;
    ok := true;
  }

  predicate StoredMemberOk(members: seq<Member>, i: nat, cat: Catalog.State, catalogNext: u64)
    requires i < |members|
  {
    && members[i].session != 0
    && StoredSubscriptionsOk(members[i].subscriptions, cat, catalogNext)
    && Unowned(members[i].subscriptions, Subscribed(members[..i]))
  }

  lemma NoStoredMembersOk(members: seq<Member>, cat: Catalog.State, catalogNext: u64)
    ensures StoredMembersOk(members[..0], cat, catalogNext)
  {
  }

  lemma StoredMembersOkStep(members: seq<Member>, i: nat, cat: Catalog.State, catalogNext: u64)
    requires i < |members| && StoredMembersOk(members[..i], cat, catalogNext)
    ensures StoredMemberOk(members, i, cat, catalogNext) ==> StoredMembersOk(members[..i + 1], cat, catalogNext)
    ensures StoredMembersOk(members, cat, catalogNext) ==> StoredMemberOk(members, i, cat, catalogNext)
  {
    hide StoredSubscriptionsOk, Subscribed;
    UnownedIsDisjoint(members, i);
  }

  method ReadStoredMembers(members: seq<Member>, cat: Catalog.State, catalogNext: u64)
    returns (ok: bool, sessions: set<Id>, subscribed: map<TopicKey, Id>)
    ensures ok <==> StoredMembersOk(members, cat, catalogNext)
    ensures ok ==> sessions == Sessions(members) && subscribed == Subscribed(members)
  {
    hide StoredMembersOk, StoredSubscriptionsOk;
    sessions, subscribed := {}, map[];
    NoStoredMembersOk(members, cat, catalogNext);
    for i := 0 to |members|
      invariant StoredMembersOk(members[..i], cat, catalogNext)
      invariant sessions == Sessions(members[..i])
      invariant subscribed == Subscribed(members[..i])
    {
      var member := members[i];
      StoredMembersOkStep(members, i, cat, catalogNext);
      if member.session == 0 { return false, {}, map[]; }
      sessions := sessions + {member.session};
      ok, subscribed := ReadStoredSubscriptions(member.subscriptions, member.session, subscribed, cat, catalogNext);
      if !ok { return false, {}, map[]; }
      assert members[..i + 1] == members[..i] + [member];
    }
    assert members[..|members|] == members;
    ok := true;
  }

  method ReadStoredPlaced(placed: seq<Placement>, subscribed: map<TopicKey, Id>, progress: map<TopicKey, Progress>)
    returns (ok: bool)
    ensures ok <==> StoredPlacedOk(placed, subscribed, progress)
  {
    hide ValidKey, LatestNext;
    var owners: map<TopicKey, Id> := map[];
    for i := 0 to |placed|
      invariant forall k | 0 <= k < i :: StoredPlacementOk(placed[k], subscribed, progress)
      invariant owners == OwnerMap(placed[..i])
      invariant forall k | k in owners :: k in subscribed && owners[k] == subscribed[k]
    {
      var a := placed[i];
      if !ValidKey(a.key) || a.owner == 0 || a.key !in subscribed || subscribed[a.key] != a.owner { return false; }
      if a.action > 1 || a.key !in progress { return false; }
      var p := progress[a.key];
      if a.action == 1 && (a.initial != p.initialNext || a.resume != a.initial) { return false; }
      if a.action == 0 && (a.initial != 0 || a.resume < p.initialNext || a.resume > LatestNext(p)) { return false; }
      owners := owners[a.key := a.owner];
      assert placed[..i + 1][..i] == placed[..i];
    }
    assert placed[..|placed|] == placed;
    SubMapOfSameSize(owners, subscribed);
    return |owners| == |subscribed|;
  }

  /** The stored assignment of a group, re-checked before it is put back. */
  method ReadStoredAssignment(b: Event, id: GroupId, generation: u64, progress: map<TopicKey, Progress>,
                              cat: Catalog.State, store: Id)
    returns (ok: bool, sessions: set<Id>, owners: map<TopicKey, Id>)
    ensures ok <==> StoredAssignmentOk(b, id, generation, progress, cat, store)
    ensures ok ==> sessions == Sessions(b.members) && owners == Subscribed(b.members)
  {
    hide StoredMembersOk, StoredPlacedOk, Subscribed;
    if !b.AssignmentChanged? || b.store != store { return false, {}, map[]; }
    if b.catalogNext == 0 || b.catalogNext > cat.revision || b.group != id { return false, {}, map[]; }
    if b.instance == 0 || b.generation != generation || WrappingSucc(b.expected) != b.generation {
      return false, {}, map[];
    }
    if |b.members| > MAX_COUNT || |b.placed| > MAX_COUNT { return false, {}, map[]; }
    ok, sessions, owners := ReadStoredMembers(b.members, cat, b.catalogNext);
    if !ok { return false, {}, map[]; }
    ok := ReadStoredPlaced(b.placed, owners, progress);
  }

  method ReadGroup(s: State, e: GroupEntry, next: u64, cat: Catalog.State) returns (r: Option<State>)
    ensures r == DecodeGroup(s, e, next, cat)
  {
    hide ProgressListOk, ProgressMap, StoredAssignmentOk, Transition, Subscribed;
    if e.creationOffset >= next || (e.assignmentOffset >= next && e.assignmentOffset != 0) { return None; }
    if |e.progress| > MAX_COUNT { return None; }
    var ok, progress := ReadProgress(e.progress, cat);
    if !ok || !e.creationBody.GroupCreated? { return None; }
    var id := e.creationBody.group;
    var sessions, owners := {}, map[];
    if e.assignmentBody.Some? {
      ok, sessions, owners :=
        ReadStoredAssignment(e.assignmentBody.value, id, e.generation, progress, cat, s.store);
      if !ok { return None; }
      BodyShape(e.assignmentBody.value, id, e.generation, progress, cat, s.store);
    } else if e.generation != 0 || e.assignmentOffset != 0 {
      return None;
    }
    var n := Transition(s, e.creationOffset, e.creationBody, cat);
    if n.None? { return None; }
    CreatedGroup(s, e.creationOffset, e.creationBody, cat);
    var g := n.value.groups[id].(progress := progress);
    if e.assignmentBody.Some? {
      var b := e.assignmentBody.value;
      g := g.(generation := e.generation, assignmentOffset := e.assignmentOffset, assignmentBody := Some(b),
      owners := owners, members := sessions, instance := b.instance);
    }
    return Some(n.value.(groups := n.value.groups[id := g]));
  }

  lemma BodyShape(b: Event, id: GroupId, generation: u64, progress: map<TopicKey, Progress>,
                  cat: Catalog.State, store: Id)
    requires StoredAssignmentOk(b, id, generation, progress, cat, store)
    ensures b.AssignmentChanged?
  {
  }

  lemma CreatedGroup(s: State, offset: Offset, e: Event, cat: Catalog.State)
    requires Transition(s, offset, e, cat).Some?
    ensures e.group in Transition(s, offset, e, cat).value.groups
  {
  }

  /** The reader: every group entry in turn, then the revision. */
  method DecodePayload(p: Payload, next: u64, store: Id, cat: Catalog.State) returns (r: Option<State>)
    ensures r == Decode(p, next, store, cat)
  {
    hide DecodeGroup;
    if |p| > MAX_COUNT { return None; }
    r := Some(Fresh(store));
    for i := 0 to |p|
      invariant r.Some? && r == DecodeGroups(Fresh(store), p[..i], next, cat)
    {
      assert p[..i + 1][..i] == p[..i];
      r := ReadGroup(r.value, p[i], next, cat);
      if r.None? {
        RejectedPrefix(Fresh(store), p, i + 1, next, cat);
        return None;
      }
    }
    assert p[..|p|] == p;
    return Some(r.value.(revision := next));
  }

  lemma {:induction false} RejectedPrefix(s: State, p: Payload, i: nat, next: u64, cat: Catalog.State)
    requires i <= |p| && DecodeGroups(s, p[..i], next, cat).None?
    ensures DecodeGroups(s, p, next, cat).None?
    decreases |p|
  {
    hide DecodeGroup;
    if i == |p| {
      assert p[..i] == p;
    } else {
      assert p[..i] == p[..|p| - 1][..i];
      RejectedPrefix(s, p[..|p| - 1], i, next, cat);
    }
  }
}
