/** The catalog checkpoint: a canonical listing of a projection, and its reader. */
module CatalogCheckpoint {
  import opened Base
  import opened Sorting
  import opened Catalog
  import opened CatalogHistory

  const MAX_ENTRIES: int := 1_048_576
  const MAX_PAYLOAD: int := 256 * 1024 * 1024 - 128 - 32

  datatype TopicEntry = TopicEntry(creation: u64, id: Id, name: Bytes, partitions: seq<Partition>)
  datatype RetiredKey = RetiredKey(topic: Id, part: u32, base: u64)
  datatype RetiredEntry = RetiredEntry(topic: Id, part: u32, item: Retired)
  datatype Payload = Payload(init: StoreInit, topics: seq<TopicEntry>, retired: seq<RetiredEntry>)

  predicate IdLess(a: Id, b: Id) { a < b }

  /** Retired entries are ordered by topic, partition and base offset. */
  predicate RetiredLess(a: RetiredKey, b: RetiredKey) {
    || a.topic < b.topic
    || (a.topic == b.topic && (a.part < b.part || (a.part == b.part && a.base < b.base)))
  }

  lemma Orders()
    ensures StrictTotal(IdLess) && StrictTotal(RetiredLess)
  {
  }

  function RetiredKeys(topics: map<Id, Topic>): set<RetiredKey> {
    set t, p, b | t in topics && p in topics[t].retired && b in topics[t].retired[p] :: RetiredKey(t, p, b)
  }

  // ------------------------------------------------------------------ limits

  function PartitionCount(topics: seq<TopicEntry>): nat {
    if topics == [] then 0 else PartitionCount(topics[..|topics| - 1]) + |topics[|topics| - 1].partitions|
  }

  function Entries(p: Payload): nat {
    1 + |p.topics| + PartitionCount(p.topics) + |p.retired|
  }

  function TopicBytes(topics: seq<TopicEntry>): nat {
    if topics == [] then 0
    else
      var last := topics[|topics| - 1];
      TopicBytes(topics[..|topics| - 1]) + 32 + |last.name| + 188 * |last.partitions|
  }

  /** The encoded size: 240 bytes of store identity, then the two lists. */
  function PayloadBytes(p: Payload): nat {
    240 + 4 + TopicBytes(p.topics) + 4 + 92 * |p.retired|
  }

  predicate WithinLimits(p: Payload) {
    && Entries(p) <= MAX_ENTRIES && PayloadBytes(p) <= MAX_PAYLOAD
  }

  // ---------------------------------------------------------------- encoding

  function EntryOf(t: Topic): TopicEntry {
    TopicEntry(t.creation, t.id, t.name, t.partitions)
  }

  function RetiredEntryAt(topics: map<Id, Topic>, k: RetiredKey): RetiredEntry
    requires k in RetiredKeys(topics)
  {
    RetiredEntry(k.topic, k.part, topics[k.topic].retired[k.part][k.base])
  }

  ghost function TopicIds(s: State): (ids: seq<Id>)
    ensures forall i | 0 <= i < |ids| :: ids[i] in s.topics
  {
    Orders();
    var ids := Listing(s.topics.Keys, IdLess);
    assert forall i | 0 <= i < |ids| :: ids[i] in ids;
    ids
  }

  ghost function TopicList(s: State): seq<TopicEntry> {
    var ids := TopicIds(s);
    seq(|ids|, i requires 0 <= i < |ids| => EntryOf(s.topics[ids[i]]))
  }

  ghost function RetiredOrder(s: State): (keys: seq<RetiredKey>)
    ensures forall i | 0 <= i < |keys| :: keys[i] in RetiredKeys(s.topics)
  {
    Orders();
    var keys := Listing(RetiredKeys(s.topics), RetiredLess);
    assert forall i | 0 <= i < |keys| :: keys[i] in keys;
    keys
  }

  ghost function RetiredList(s: State): seq<RetiredEntry> {
    var keys := RetiredOrder(s);
    seq(|keys|, i requires 0 <= i < |keys| => RetiredEntryAt(s.topics, keys[i]))
  }

  ghost function Encode(s: State): Option<Payload>
    requires s.init.Some?
  {
    var p := Payload(s.init.value, TopicList(s), RetiredList(s));
    if WithinLimits(p) then Some(p) else None
  }

  // ---------------------------------------------------------------- decoding

  predicate PartitionEntryOk(p: Partition, i: int, next: u64) {
    && p.partition == i && ValidAnchor(p.initial) && ValidAnchor(p.current)
    && p.boundaryNext <= next && p.retainedL <= p.maxRetirementH
  }

  predicate TopicEntryOk(e: TopicEntry, next: u64) {
    && 0 < |e.partitions| <= MAX_TOPIC_PARTITIONS
    && e.id != 0 && e.creation < next
    && forall i | 0 <= i < |e.partitions| :: PartitionEntryOk(e.partitions[i], i, next)
  }

  predicate TopicsOk(entries: seq<TopicEntry>, next: u64) {
    && (forall i | 0 <= i < |entries| :: TopicEntryOk(entries[i], next))
    && (forall i, j | 0 <= i < j < |entries| :: entries[i].id < entries[j].id)
    && (forall i, j | 0 <= i < j < |entries| :: entries[i].name != entries[j].name)
  }

  function TopicOf(e: TopicEntry): Topic {
    Topic(e.id, e.name, e.partitions, map[], e.creation)
  }

  function TopicMap(entries: seq<TopicEntry>): map<Id, Topic> {
    if entries == [] then map[]
    else
      var last := entries[|entries| - 1];
      TopicMap(entries[..|entries| - 1])[last.id := TopicOf(last)]
  }

  function NameMap(entries: seq<TopicEntry>): map<Bytes, Id> {
    if entries == [] then map[]
    else
      var last := entries[|entries| - 1];
      NameMap(entries[..|entries| - 1])[last.name := last.id]
  }

  function KeyOf(e: RetiredEntry): RetiredKey { RetiredKey(e.topic, e.part, e.item.base) }

  predicate RetiredEntryOk(e: RetiredEntry, topics: map<Id, Topic>) {
    && ValidAnchor(e.item.anchor) && e.item.base < e.item.end
    && e.topic in topics && e.part < |topics[e.topic].partitions|
  }

  predicate RetiredOk(entries: seq<RetiredEntry>, topics: map<Id, Topic>) {
    && (forall i | 0 <= i < |entries| :: RetiredEntryOk(entries[i], topics))
    && (forall i, j | 0 <= i < j < |entries| :: KeyOf(entries[i]) != KeyOf(entries[j]))
  }

  function WithRetired(t: Topic, part: u32, item: Retired): Topic {
    t.(retired := t.retired[part := RetiredOf(t, part)[item.base := item]])
  }

  function AddRetired(topics: map<Id, Topic>, entries: seq<RetiredEntry>): map<Id, Topic> {
    if entries == [] then topics
    else
      var last := entries[|entries| - 1];
      var before := AddRetired(topics, entries[..|entries| - 1]);
      if last.topic in before then before[last.topic := WithRetired(before[last.topic], last.part, last.item)]
      else before
  }

  function Decode(p: Payload, next: u64, store: Id): Option<State> {
    if next == 0 || !ValidInit(p.init) || p.init.store != store then None
    else if |p.topics| > MAX_TOPIC_PARTITIONS || !TopicsOk(p.topics, next) then None
    else if |p.retired| > MAX_ENTRIES || !RetiredOk(p.retired, TopicMap(p.topics)) then None
    else Some(State(Some(p.init), next, NameMap(p.topics), AddRetired(TopicMap(p.topics), p.retired)))
  }

  // -------------------------------------------------------------- round trip

  lemma {:induction false} TopicMapAt(entries: seq<TopicEntry>, id: Id)
    requires forall i, j | 0 <= i < j < |entries| :: entries[i].id < entries[j].id
    ensures id in TopicMap(entries) <==> exists i :: 0 <= i < |entries| && entries[i].id == id
    ensures forall i | 0 <= i < |entries| && entries[i].id == id :: TopicMap(entries)[id] == TopicOf(entries[i])
  {
    if entries != [] {
      var n := |entries| - 1;
      var front := entries[..n];
      TopicMapAt(front, id);
      assert forall i | 0 <= i < n :: front[i] == entries[i];
    }
  }

  lemma {:induction false} NameMapAt(entries: seq<TopicEntry>, name: Bytes)
    requires forall i, j | 0 <= i < j < |entries| :: entries[i].name != entries[j].name
    ensures name in NameMap(entries) <==> exists i :: 0 <= i < |entries| && entries[i].name == name
    ensures forall i | 0 <= i < |entries| && entries[i].name == name :: NameMap(entries)[name] == entries[i].id
  {
    if entries != [] {
      var n := |entries| - 1;
      var front := entries[..n];
      NameMapAt(front, name);
      assert forall i | 0 <= i < n :: front[i] == entries[i];
    }
  }

  predicate Names(entries: seq<RetiredEntry>, i: int, k: RetiredKey) {
    0 <= i < |entries| && KeyOf(entries[i]) == k
  }

  predicate Has(r: map<u32, map<u64, Retired>>, p: u32, b: u64) { p in r && b in r[p] }

  /** The inventory a list of entries gives one topic. */
  function Inventory(entries: seq<RetiredEntry>, id: Id): map<u32, map<u64, Retired>> {
    if entries == [] then map[]
    else
      var last := entries[|entries| - 1];
      var before := Inventory(entries[..|entries| - 1], id);
      if last.topic != id then before
      else before[last.part := (if last.part in before then before[last.part] else map[])[last.item.base := last.item]]
  }

  /** Adding retired entries changes only the inventories. */
  lemma {:induction false} AddRetiredAt(topics: map<Id, Topic>, entries: seq<RetiredEntry>, id: Id)
    requires id in topics && topics[id].retired == map[]
    ensures id in AddRetired(topics, entries)
    ensures AddRetired(topics, entries)[id] == topics[id].(retired := Inventory(entries, id))
  {
    if entries != [] {
      AddRetiredAt(topics, entries[..|entries| - 1], id);
    }
  }

  lemma {:induction false} InventoryNotEmpty(entries: seq<RetiredEntry>, id: Id, p: u32)
    requires p in Inventory(entries, id)
    ensures Inventory(entries, id)[p] != map[]
  {
    var last := entries[|entries| - 1];
    if last.topic == id && last.part == p {
      assert last.item.base in Inventory(entries, id)[p];
    } else {
      InventoryNotEmpty(entries[..|entries| - 1], id, p);
    }
  }

  /** An inventory holds exactly the listed entries. */
  lemma {:induction false} InventoryAt(entries: seq<RetiredEntry>, id: Id, p: u32, b: u64)
    requires forall i, j | 0 <= i < j < |entries| :: KeyOf(entries[i]) != KeyOf(entries[j])
    ensures Has(Inventory(entries, id), p, b) <==> exists i :: Names(entries, i, RetiredKey(id, p, b))
    ensures forall i | Names(entries, i, RetiredKey(id, p, b)) :: Inventory(entries, id)[p][b] == entries[i].item
  {
    var k := RetiredKey(id, p, b);
    if entries != [] {
      var n := |entries| - 1;
      var front := entries[..n];
      InventoryAt(front, id, p, b);
      assert forall i | 0 <= i < n :: Names(front, i, k) <==> Names(entries, i, k);
      assert Names(entries, n, k) <==> KeyOf(entries[n]) == k;
    }
  }

  lemma TopicEntryValid(s: State, id: Id)
    requires Valid(s) && id in s.topics
    ensures TopicEntryOk(EntryOf(s.topics[id]), s.revision) && s.topics[id].id == id
  {
    var t := s.topics[id];
    assert TopicOk(id, t, s.revision);
    forall j | 0 <= j < |t.partitions| ensures PartitionEntryOk(t.partitions[j], j, s.revision) {
      assert PartitionOk(t, j, s.revision);
    }
  }

  lemma TopicIdsAt(s: State)
    ensures |TopicIds(s)| == |s.topics|
    ensures forall i, j | 0 <= i < j < |TopicIds(s)| :: TopicIds(s)[i] < TopicIds(s)[j]
    ensures forall id | id in s.topics :: exists i :: 0 <= i < |TopicIds(s)| && TopicIds(s)[i] == id
  {
    Orders();
    var ids := Listing(s.topics.Keys, IdLess);
    AscendingLength(ids, s.topics.Keys, IdLess);
    forall i, j | 0 <= i < j < |ids| ensures ids[i] < ids[j] {
      assert IdLess(ids[i], ids[j]);
    }
    forall id | id in s.topics ensures exists i :: 0 <= i < |ids| && ids[i] == id {
      assert id in ids;
    }
  }

  lemma NamesDiffer(s: State, a: Id, b: Id)
    requires Valid(s) && a in s.topics && b in s.topics && a != b
    ensures s.topics[a].name != s.topics[b].name
  {
    hide TopicOk;
    assert NamesOk(s.byName, s.topics);
  }

  lemma TopicListAt(s: State)
    requires Valid(s)
    ensures |TopicList(s)| == |s.topics|
    ensures TopicsOk(TopicList(s), s.revision)
    ensures forall i | 0 <= i < |TopicList(s)| ::
              TopicList(s)[i].id in s.topics && TopicList(s)[i] == EntryOf(s.topics[TopicList(s)[i].id])
    ensures forall id | id in s.topics :: exists i :: 0 <= i < |TopicList(s)| && TopicList(s)[i].id == id
  {
    hide TopicOk, TopicEntryOk, TopicIds, Valid;
    TopicIdsAt(s);
    var ids, list := TopicIds(s), TopicList(s);
    forall i | 0 <= i < |list| ensures TopicEntryOk(list[i], s.revision) && list[i].id == ids[i] {
      TopicEntryValid(s, ids[i]);
    }
    forall i, j | 0 <= i < j < |list| ensures list[i].id < list[j].id && list[i].name != list[j].name {
      NamesDiffer(s, ids[i], ids[j]);
    }
    forall id | id in s.topics ensures exists i :: 0 <= i < |list| && list[i].id == id {
      var i :| 0 <= i < |ids| && ids[i] == id;
      assert list[i].id == id;
    }
  }

  /** The topics the listing alone describes: everything but the inventories. */
  lemma TopicMapOfList(s: State)
    requires Valid(s)
    ensures TopicMap(TopicList(s)).Keys == s.topics.Keys
    ensures forall id | id in s.topics :: TopicMap(TopicList(s))[id] == s.topics[id].(retired := map[])
  {
    hide TopicList, Valid, TopicMap, TopicEntryOk;
    TopicListAt(s);
    var list := TopicList(s);
    forall id ensures id in TopicMap(list) <==> id in s.topics {
      TopicMapAt(list, id);
    }
    forall id | id in s.topics ensures TopicMap(list)[id] == s.topics[id].(retired := map[]) {
      TopicMapAt(list, id);
      var i :| 0 <= i < |list| && list[i].id == id;
      TopicEntryValid(s, id);
    }
  }

  lemma NameMapOfList(s: State)
    requires Valid(s)
    ensures NameMap(TopicList(s)) == s.byName
  {
    hide TopicList, TopicOk, NameMap, TopicEntryOk;
    TopicListAt(s);
    var list := TopicList(s);
    assert NamesOk(s.byName, s.topics);
    forall name
      ensures name in NameMap(list) <==> name in s.byName
      ensures name in s.byName ==> NameMap(list)[name] == s.byName[name]
    {
      NameMapAt(list, name);
      if name in s.byName {
        var i :| 0 <= i < |list| && list[i].id == s.byName[name];
      }
    }
  }

  lemma RetiredOrderAt(s: State)
    ensures forall i, j | 0 <= i < j < |RetiredOrder(s)| :: RetiredOrder(s)[i] != RetiredOrder(s)[j]
    ensures forall k :: k in RetiredKeys(s.topics) <==> k in RetiredOrder(s)
  {
    Orders();
    var keys := Listing(RetiredKeys(s.topics), RetiredLess);
    forall i, j | 0 <= i < j < |keys| ensures keys[i] != keys[j] {
      assert RetiredLess(keys[i], keys[j]);
    }
  }

  lemma RetiredListAt(s: State)
    requires Valid(s)
    ensures RetiredOk(RetiredList(s), s.topics)
    ensures forall i | 0 <= i < |RetiredList(s)| ::
              var e := RetiredList(s)[i];
              KeyOf(e) in RetiredKeys(s.topics) && e == RetiredEntryAt(s.topics, KeyOf(e))
    ensures forall k | k in RetiredKeys(s.topics) :: exists i :: Names(RetiredList(s), i, k)
  {
    hide RetiredOrder, Valid;
    RetiredOrderAt(s);
    var keys, list := RetiredOrder(s), RetiredList(s);
    forall i | 0 <= i < |list| ensures KeyOf(list[i]) == keys[i] && RetiredEntryOk(list[i], s.topics) {
      InventoryEntry(s, keys[i]);
    }
    forall k | k in RetiredKeys(s.topics) ensures exists i :: Names(list, i, k) {
      var i :| 0 <= i < |keys| && keys[i] == k;
      assert Names(list, i, k);
    }
  }

  lemma InventoryEntry(s: State, k: RetiredKey)
    requires Valid(s) && k in RetiredKeys(s.topics)
    ensures KeyOf(RetiredEntryAt(s.topics, k)) == k
    ensures RetiredEntryOk(RetiredEntryAt(s.topics, k), s.topics)
  {
    var t := s.topics[k.topic];
    assert TopicOk(k.topic, t, s.revision);
    assert PartitionOk(t, k.part, s.revision);
    assert RetiredOf(t, k.part) == t.retired[k.part];
  }

  lemma RetiredOkShape(entries: seq<RetiredEntry>, topics: map<Id, Topic>, other: map<Id, Topic>)
    requires RetiredOk(entries, topics) && topics.Keys == other.Keys
    requires forall id | id in topics :: |other[id].partitions| == |topics[id].partitions|
    ensures RetiredOk(entries, other)
  {
    forall i | 0 <= i < |entries| ensures RetiredEntryOk(entries[i], other) {
      assert RetiredEntryOk(entries[i], topics);
    }
  }

  lemma {:induction false} RestoredEntry(s: State, id: Id, p: u32, b: u64)
    requires Valid(s) && id in s.topics
    ensures var r, t := Inventory(RetiredList(s), id), s.topics[id].retired;
            && (Has(r, p, b) <==> Has(t, p, b))
            && (Has(t, p, b) ==> r[p][b] == t[p][b])
  {
    hide RetiredList, Inventory, Valid;
    var list, k := RetiredList(s), RetiredKey(id, p, b);
    RetiredListAt(s);
    InventoryAt(list, id, p, b);
    assert Has(s.topics[id].retired, p, b) <==> k in RetiredKeys(s.topics);
    if k in RetiredKeys(s.topics) {
      var i :| Names(list, i, k);
      assert list[i] == RetiredEntryAt(s.topics, k);
    }
    if i :| Names(list, i, k) {
      assert KeyOf(list[i]) in RetiredKeys(s.topics);
    }
  }

  /** The listed inventory of a topic is its inventory. */
  lemma {:induction false} RestoredInventory(s: State, id: Id)
    requires Valid(s) && id in s.topics
    ensures Inventory(RetiredList(s), id) == s.topics[id].retired
  {
    hide RetiredList, Inventory, Valid, RetiredOk;
    var r, t := Inventory(RetiredList(s), id), s.topics[id].retired;
    forall p, b
      ensures Has(r, p, b) <==> Has(t, p, b)
      ensures Has(t, p, b) ==> r[p][b] == t[p][b]
    {
      RestoredEntry(s, id, p, b);
    }
    forall p | p in t ensures t[p] != map[] {
      InventoryNonempty(s, id, p);
    }
    forall p | p in r ensures r[p] != map[] {
      InventoryNotEmpty(RetiredList(s), id, p);
    }
    SameInventories(r, t);
  }

  lemma SameInventories(r: map<u32, map<u64, Retired>>, t: map<u32, map<u64, Retired>>)
    requires forall p, b :: Has(r, p, b) <==> Has(t, p, b)
    requires forall p, b :: Has(r, p, b) && Has(t, p, b) ==> r[p][b] == t[p][b]
    requires (forall p | p in r :: r[p] != map[]) && (forall p | p in t :: t[p] != map[])
    ensures r == t
  {
    forall p | p in r ensures p in t {
      var b :| b in r[p];
      assert Has(r, p, b);
    }
    forall p | p in t ensures p in r && r[p] == t[p] {
      var b :| b in t[p];
      assert Has(t, p, b);
      SameBases(r, t, p);
    }
  }

  lemma SameBases(r: map<u32, map<u64, Retired>>, t: map<u32, map<u64, Retired>>, p: u32)
    requires forall b :: Has(r, p, b) <==> Has(t, p, b)
    requires forall b :: Has(r, p, b) && Has(t, p, b) ==> r[p][b] == t[p][b]
    requires p in r && p in t
    ensures r[p] == t[p]
  {
    forall b ensures b in r[p] <==> b in t[p] {
      assert Has(r, p, b) <==> Has(t, p, b);
    }
    forall b | b in t[p] ensures r[p][b] == t[p][b] {
      assert Has(t, p, b);
    }
  }

  lemma InventoryNonempty(s: State, id: Id, p: u32)
    requires Valid(s) && id in s.topics && p in s.topics[id].retired
    ensures s.topics[id].retired[p] != map[]
  {
    assert TopicOk(id, s.topics[id], s.revision);
    assert PartitionOk(s.topics[id], p, s.revision);
  }

  /** Decoding the checkpoint of a reachable catalog gives the catalog back. The
      reader's only limit the writer does not enforce is the topic count. */
  lemma RoundTrip(s: State)
    requires Valid(s) && s.init.Some? && Encode(s).Some?
    ensures Decode(Encode(s).value, s.revision, StoreOf(s)) ==
            if |s.topics| <= MAX_TOPIC_PARTITIONS then Some(s) else None
  {
    hide TopicList, RetiredList, TopicMap, NameMap, AddRetired, Inventory, TopicsOk, RetiredOk, TopicOk, PartitionCount,
         TopicBytes;
    TopicListAt(s);
    TopicMapOfList(s);
    NameMapOfList(s);
    RetiredListAt(s);
    var bare := TopicMap(TopicList(s));
    RetiredOkShape(RetiredList(s), s.topics, bare);
    forall id | id in s.topics
      ensures id in AddRetired(bare, RetiredList(s)) && AddRetired(bare, RetiredList(s))[id] == s.topics[id]
    {
      AddRetiredAt(bare, RetiredList(s), id);
      RestoredInventory(s, id);
    }
    AddRetiredKeys(bare, RetiredList(s));
    assert AddRetired(bare, RetiredList(s)) == s.topics;
  }

  lemma {:induction false} AddRetiredKeys(topics: map<Id, Topic>, entries: seq<RetiredEntry>)
    ensures AddRetired(topics, entries).Keys == topics.Keys
  {
    if entries != [] {
      AddRetiredKeys(topics, entries[..|entries| - 1]);
    }
  }

  // ---------------------------------------------------- the writer and reader

  lemma {:induction false} NoTopics()
    ensures PartitionCount([]) == 0 && TopicBytes([]) == 0
  {
  }

  lemma {:induction false} TopicsNext(topics: seq<TopicEntry>, e: TopicEntry)
    ensures PartitionCount(topics + [e]) == PartitionCount(topics) + |e.partitions|
    ensures TopicBytes(topics + [e]) == TopicBytes(topics) + 32 + |e.name| + 188 * |e.partitions|
  {
    assert (topics + [e])[..|topics|] == topics;
  }

  method EncodeTopics(s: State) returns (topics: seq<TopicEntry>, partitions: nat, bytes: nat)
    ensures topics == TopicList(s)
    ensures partitions == PartitionCount(topics) && bytes == TopicBytes(topics)
  {
    hide StrictTotal, Listing, PartitionCount, TopicBytes, EntryOf;
    Orders();
    var ids := Sort(s.topics.Keys, IdLess);
    assert ids == TopicIds(s);
    topics, partitions, bytes := [], 0, 0;
    NoTopics();
    for i := 0 to |ids|
      invariant topics == TopicList(s)[..i]
      invariant partitions == PartitionCount(topics) && bytes == TopicBytes(topics)
    {
      var entry := EntryOf(s.topics[ids[i]]);
      TopicsNext(topics, entry);
      topics := topics + [entry];
      partitions := partitions + |entry.partitions|;
      bytes := bytes + 32 + |entry.name| + 188 * |entry.partitions|;
    }
  }

  method EncodeRetired(s: State) returns (retired: seq<RetiredEntry>)
    ensures retired == RetiredList(s)
  {
    hide StrictTotal, Listing;
    Orders();
    var keys := Sort(RetiredKeys(s.topics), RetiredLess);
    assert keys == RetiredOrder(s);
    retired := [];
    for i := 0 to |keys|
      invariant retired == RetiredList(s)[..i]
    {
      retired := retired + [RetiredEntryAt(s.topics, keys[i])];
    }
  }

  /** The writer: sort, list, count. The result does not depend on the order in
      which the maps are walked. */
  method EncodePayload(s: State) returns (r: Option<Payload>)
    requires s.init.Some?
    ensures r == Encode(s)
  {
    hide TopicList, RetiredList, PartitionCount, TopicBytes;
    var topics, partitions, bytes := EncodeTopics(s);
    var retired := EncodeRetired(s);
    if 240 + 4 + bytes + 4 + 92 * |retired| > MAX_PAYLOAD || 1 + |topics| + partitions + |retired| > MAX_ENTRIES {
      return None;
    }
    return Some(Payload(s.init.value, topics, retired));
  }

  predicate TopicStepOk(entries: seq<TopicEntry>, i: nat, next: u64)
    requires i < |entries|
  {
    && TopicEntryOk(entries[i], next)
    && (i > 0 ==> entries[i - 1].id < entries[i].id)
    && entries[i].name !in NameMap(entries[..i])
  }

  lemma TopicsOkStep(entries: seq<TopicEntry>, i: nat, next: u64)
    requires i < |entries| && TopicsOk(entries[..i], next)
    ensures TopicStepOk(entries, i, next) ==> TopicsOk(entries[..i + 1], next)
    ensures TopicsOk(entries, next) ==> TopicStepOk(entries, i, next)
  {
    hide TopicEntryOk, NameMap;
    NameMapAt(entries[..i], entries[i].name);
    assert forall k | 0 <= k < i :: entries[..i][k] == entries[k];
  }

  method ReadPartitions(partitions: seq<Partition>, next: u64) returns (ok: bool)
    ensures ok <==> forall i | 0 <= i < |partitions| :: PartitionEntryOk(partitions[i], i, next)
  {
    for i := 0 to |partitions|
      invariant forall k | 0 <= k < i :: PartitionEntryOk(partitions[k], k, next)
    {
      var p := partitions[i];
      if p.partition != i || !ValidAnchor(p.initial) || !ValidAnchor(p.current) { return false; }
      if p.boundaryNext > next || p.maxRetirementH < p.retainedL { return false; }
    }
    return true;
  }

  method ReadTopics(entries: seq<TopicEntry>, next: u64)
    returns (ok: bool, byName: map<Bytes, Id>, topics: map<Id, Topic>)
    ensures ok <==> TopicsOk(entries, next)
    ensures ok ==> byName == NameMap(entries) && topics == TopicMap(entries)
  {
    hide TopicsOk, PartitionEntryOk;
    byName, topics := map[], map[];
    NoTopicsOk(entries, next);
    for i := 0 to |entries|
      invariant TopicsOk(entries[..i], next)
      invariant byName == NameMap(entries[..i]) && topics == TopicMap(entries[..i])
    {
      TopicsOkStep(entries, i, next);
      var e := entries[i];
      if |e.partitions| == 0 || |e.partitions| > MAX_TOPIC_PARTITIONS || e.id == 0 || e.creation >= next {
        return false, map[], map[];
      }
      if i > 0 && entries[i - 1].id >= e.id { return false, map[], map[]; }
      if e.name in byName { return false, map[], map[]; }
      ok := ReadPartitions(e.partitions, next);
      if !ok { return false, map[], map[]; }
      byName := byName[e.name := e.id];
      topics := topics[e.id := Topic(e.id, e.name, e.partitions, map[], e.creation)];
      assert entries[..i + 1][..i] == entries[..i];
    }
    assert entries[..|entries|] == entries;
    ok := true;
  }

  lemma NoTopicsOk(entries: seq<TopicEntry>, next: u64)
    ensures TopicsOk(entries[..0], next)
  {
  }

  method ReadRetired(entries: seq<RetiredEntry>, bare: map<Id, Topic>) returns (ok: bool, topics: map<Id, Topic>)
    requires forall id | id in bare :: bare[id].retired == map[]
    ensures ok <==> RetiredOk(entries, bare)
    ensures ok ==> topics == AddRetired(bare, entries)
  {
    hide AddRetired;
    topics := bare;
    AddRetiredNone(bare, entries);
    for i := 0 to |entries|
      invariant RetiredOk(entries[..i], bare)
      invariant topics == AddRetired(bare, entries[..i])
    {
      var e := entries[i];
      AddRetiredKeys(bare, entries[..i]);
      if !ValidAnchor(e.item.anchor) || e.topic !in topics || e.item.base >= e.item.end { return false, map[]; }
      AddRetiredAt(bare, entries[..i], e.topic);
      InventoryAt(entries[..i], e.topic, e.part, e.item.base);
      if e.part >= |topics[e.topic].partitions| { return false, map[]; }
      if e.item.base in RetiredOf(topics[e.topic], e.part) {
        var k :| Names(entries[..i], k, KeyOf(e));
        assert KeyOf(entries[k]) == KeyOf(entries[i]);
        return false, map[];
      }
      forall k | 0 <= k < i ensures KeyOf(entries[k]) != KeyOf(e) {
        assert !Names(entries[..i], k, KeyOf(e));
      }
      AddRetiredNext(bare, entries, i);
      topics := topics[e.topic := WithRetired(topics[e.topic], e.part, e.item)];
    }
    assert entries[..|entries|] == entries;
    ok := true;
  }

  lemma {:induction false} AddRetiredNone(bare: map<Id, Topic>, entries: seq<RetiredEntry>)
    ensures AddRetired(bare, entries[..0]) == bare
  {
  }

  lemma {:induction false} AddRetiredNext(bare: map<Id, Topic>, entries: seq<RetiredEntry>, i: nat)
    requires i < |entries| && entries[i].topic in AddRetired(bare, entries[..i])
    ensures var t := AddRetired(bare, entries[..i]);
            var e := entries[i];
            AddRetired(bare, entries[..i + 1]) == t[e.topic := WithRetired(t[e.topic], e.part, e.item)]
  {
    assert entries[..i + 1][..i] == entries[..i];
  }

  lemma {:induction false} TopicMapBare(entries: seq<TopicEntry>)
    ensures forall id | id in TopicMap(entries) :: TopicMap(entries)[id].retired == map[]
  {
    if entries != [] { TopicMapBare(entries[..|entries| - 1]); }
  }

  /** The reader. */
  method DecodePayload(p: Payload, next: u64, store: Id) returns (r: Option<State>)
    ensures r == Decode(p, next, store)
  {
    if next == 0 || !ValidInit(p.init) || p.init.store != store { return None; }
    if |p.topics| > MAX_TOPIC_PARTITIONS { return None; }
    var ok, byName, bare := ReadTopics(p.topics, next);
    if !ok || |p.retired| > MAX_ENTRIES { return None; }
    TopicMapBare(p.topics);
    var topics;
    ok, topics := ReadRetired(p.retired, bare);
    if !ok { return None; }
    return Some(State(Some(p.init), next, byName, topics));
  }
}
