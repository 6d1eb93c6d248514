# immulog: a verified model of the storage engine

immulog is an embedded, append-only, partitioned log. Everything it knows is
rebuilt by replaying bytes: two system logs carry the catalog of topics and the
positions of consumer groups, and each partition is a chain of segment files.
This project models that engine in Dafny and proves what it promises over whole
histories, whole runs and every point at which it can crash. CRC32C (section 12.1
of RFC 3720), SHA-256 and UTF-8 validity (section 4 of RFC 3629) are arbitrary
functions, so every result holds for any of them.

## How it is laid out

State that the engine updates in place is a class or a method with loops, proved
against a function on values; histories, interleavings and crashes are state
machines over those functions, and the theorems are about their runs.

| files | what they hold |
|---|---|
| `Base`, `Wire`, `Sorting` | machine integers, identifiers, little-endian bytes, canonical listings of maps |
| `Catalog`, `CatalogHistory`, `CatalogCheckpoint` | the catalog projection, its invariant over all histories, its checkpoint |
| `Offsets`, `OffsetsHistory`, `Fencing`, `OffsetsCheckpoint`, `OffsetsCodec` | the consumer-offsets projection, stability under catalog growth, fencing, its checkpoint, its event bytes |
| `Restart`, `Compaction`, `CompactionSafety`, `CompactionExamples` | checkpoint plus suffix equals full replay; system-log compaction with a crash after any step; runs after which a record or the system logs are lost |
| `GroupBodies`, `Membership`, `Consumers`, `ConsumersSafety`, `ConsumerStore` | the consumer-group protocol: event bodies, membership requests, the live handles, at-least-once delivery |
| `Codec`, `Batches`, `Coder` | the record and batch formats, and the loops that read and write them |
| `Segments`, `Recovery`, `PartitionLog`, `PartitionEngine` | segment files, torn-write recovery, preflight, append and roll |
| `Retention`, `RetentionSafety`, `SegmentPieces` | the retention planner, the catalog event it writes, whole runs of both, and why the append engine is what they are about |
| `Preflight`, `PreflightSafety` | the check of all topic storage before a store opens, and when it accepts a partition that the engine wrote |
| `Storage`, `StorageParts`, `StorageSafety`, `StorageTheorems` | the whole store, system logs and partitions together: what every step keeps, and exactly which runs leave a store that opens |
| `StorageExamples`, `StorageFallback` | one run for each way in which it does not |
| `Index`, `Reads`, `Fetcher`, `Tail`, `Digest`, `Delivery` | the fast forms and the scans they agree with; a fetch, cached or not, as a step of a poll |
| `Ingress`, `DiskLedger` | the two resource ledgers |

## Where the code falls short of its promise

In each of these the model does what the code does. The named lemma says exactly
when the promise holds.

- A group opened with an explicit start and no subscription passes every check of
  `OpenConsumerGroup` (storage/group_consumer.go:99), its event is appended, and
  replay refuses it (storage/offsets_projection.go:134). Groups are unavailable at
  once, and the next open of the whole store fails (storage/bootstrap.go:277,
  storage/system_compaction.go:1113). `GroupBodies.CreatedAccepted` and
  `ConsumersSafety.RefusedExactly`: this is the only event ever refused after a
  durable append. `ConsumersSafety.EmptyExplicitExample` and
  `CompactionExamples.EmptyStartExample` give the request.
- A failed append that leaves 1 to 47 bytes of its batch is refused at recovery
  rather than cut (storage/partition.go:355, storage/preflight.go:336):
  `Segments.RecoverTorn`, `PartitionLog.ReopenAfterCrash` and
  `PartitionEngine.CrashAnywhere` state all cases for one partition. Wherever it
  happens, in a system log or in one partition of one topic, the whole store does not
  open again, because every open checks all of them first
  (storage/preflight.go:33, storage/bootstrap.go:267, storage/system_compaction.go:1120):
  `CompactionExamples.ShortTailExample`, `StorageExamples.UserTailExample`.
- The same check refuses a topic directory that it cannot account for. `createTopic`
  makes and syncs the directory before it writes the marker that explains it
  (storage/catalog.go:438-469), so a creation that stops in between leaves a store that
  does not open as soon as it has a topic, and a marker that was not written to its end
  leaves one that does not open at all. `OpenPartition` on a topic that is not in the
  catalog makes such a directory too (storage/store.go:508). `Preflight.PreflightStorage`
  has the check; `StorageExamples.UnmarkedExample`, `StorageExamples.TornMarkerExample`,
  `StorageExamples.DirectExample` and `StorageExamples.LatentExample` have the runs.
- `StorageTheorems.StoreOpens` puts these together. A store opens after a run and a
  crash if and only if none of the steps of `Storage.Breaks` is in the run: the ones
  above and no other. `StorageTheorems.WholeExactly` says so for every step of every
  reachable store, and `StorageTheorems.BrokenForGood` that nothing repairs it.
- The checkpoint readers cap counts that replay does not:
  `OffsetsCheckpoint.RoundTrip` and `CatalogCheckpoint.RoundTrip` restore the state
  exactly when those counts are within the caps.
- The active manifest is renamed before its directory entry is synced. If the sync
  fails or the process ends first, and the store is reopened on the new manifest, then a
  power loss can put the old manifest back until the next compaction syncs the directory
  (storage/system_compaction.go:187-221, 798). Over every run,
  `CompactionSafety.SettledExactly` says that the active manifest selects all the
  acknowledged records and the synced one those acknowledged before the rename, and
  `CompactionSafety.LostExactly` that this is the only way to lose one;
  `CompactionExamples.LostRecordExample` is a run. Retention makes it worse: a segment
  retired after the rename may be gone when the old catalog comes back and starts with
  it, and then the store does not open. `StorageTheorems.StoreOpens` has the exact
  condition and `StorageFallback.LostSegmentExample` a run.
- A freshly rolled segment is not checked against the segment limit
  (storage/append_encoded.go:69-94): `PartitionEngine.RolledSize` gives its size and
  `PartitionEngine.OversizedExample` a run that exceeds the limit. The invariant of
  `PartitionEngine.RunKeeps` bounds every segment by the limit or by a header and the
  largest batch, whichever is more; catalog topics are configured so that the limit is
  more (storage/config.go:55).
- The record decoder does not look at bytes 16 to 24 of a record
  (storage/codec.go:148-168): `Codec.RecordCanonical`, `Batches.BatchCanonical`, and
  `Codec.UnreadIgnored` for the other byte strings every record has.
- A disk probe that answers late, after a newer probe failed, is decided on the
  capacity recorded before the failure; it can lift the pressure flag and grant
  growth: `DiskLedger.GrantUpToDate`, `DiskLedger.StaleGrantExample`.

## Model

| member | source | states |
|---|---|---|
| `Catalog.Projection.Apply` | storage/catalog.go:80-203 | accepts exactly the events the catalog transition accepts; an accepted event leaves its successor, a refused one leaves the projection unchanged |
| `Catalog.Projection.Replay` | storage/system_compaction.go:1139-1163 | replaying the records of a log from any offset succeeds exactly when their fold does, and leaves the fold |
| `Catalog.Projection.ReplayAll` | storage/catalog.go:209-237 | replaying a whole log succeeds exactly when its fold does and begins with the store's initialization, and leaves the fold |
| `Catalog.CheckRetired` | storage/catalog.go:155-179 | a retirement list passes exactly when its segments follow one another from the old start to the new one, none is empty, and no identity repeats or equals the successor's |
| `Catalog.ReplaySplit` | storage/catalog.go:209-237 | replaying a log is replaying any prefix and then the rest at the next offset |
| `CatalogHistory.TransitionValid` | storage/catalog.go:80-203 | an accepted event keeps the catalog invariant: names and topics agree, maximum retirement end is at least the retained start, boundary offsets lie inside the revision, and retired segments tile the offsets below the start |
| `CatalogHistory.TopicAccepted` | storage/catalog.go:298-406 | every TopicCreated event built under createTopic's checks is accepted |
| `CatalogHistory.TransitionExtends` | storage/catalog.go:99-132 | an accepted event keeps every topic, its creation offset and its partition count, and only raises the revision |
| `CatalogHistory.ReplayValid` | storage/catalog.go:209-237 | every accepted history ends in a valid catalog whose revision is the log end and which extends the one it started from |
| `CatalogHistory.TilesOnce` | storage/retention.go:214-273 | exactly one retired segment holds each offset below the retained start |
| `CatalogHistory.RetiredInventoryTiles` | storage/catalog.go:133-198 | over all histories the retired inventory of every partition tiles the offsets from 0 to its retained start |
| `CatalogCheckpoint.EncodeTopics` | storage/snapshot.go:214-260 | topics are written in ascending identity order with exact partition and byte counts |
| `CatalogCheckpoint.EncodeRetired` | storage/system_compaction.go:223-270 | the retired segments are written in ascending (topic, partition, base) order, every one once |
| `CatalogCheckpoint.EncodePayload` | storage/system_compaction.go:223-270 | the payload is the canonical one for the state, whatever order the maps are walked in, or refused over a limit |
| `CatalogCheckpoint.ReadPartitions` | storage/system_compaction.go:318-348 | accepts exactly the partition lists numbered from zero with legal anchors and boundaries inside the revision |
| `CatalogCheckpoint.ReadTopics` | storage/system_compaction.go:290-353 | accepts exactly the ascending topic lists with distinct names, and rebuilds both maps |
| `CatalogCheckpoint.ReadRetired` | storage/system_compaction.go:354-391 | accepts exactly the distinct retired entries of known partitions, and rebuilds the inventories |
| `CatalogCheckpoint.DecodePayload` | storage/system_compaction.go:272-396 | reads a payload to the state it describes, or refuses it, as the decoding function says |
| `CatalogCheckpoint.RoundTrip` | storage/system_compaction.go:223-396 | decoding the encoded checkpoint of any reachable catalog gives the same catalog, exactly when it has at most 65,536 topics |
| `Offsets.ReadStarts` | storage/offsets_projection.go:130-156 | accepts exactly explicit starts in ascending order of keys the catalog knows, and collects them |
| `Offsets.ReadSubscriptions` | storage/offsets_projection.go:225-242 | accepts exactly ascending known keys that no earlier member holds, and adds them |
| `Offsets.ReadMembers` | storage/offsets_projection.go:204-243 | accepts exactly members with ascending sessions and pairwise disjoint subscriptions |
| `Offsets.ReadPlaced` | storage/offsets_projection.go:244-297 | accepts exactly ascending placements whose owners are the whole subscription map and whose resume points match the recorded progress, and gives the new progress |
| `Offsets.Projection.Apply` | storage/offsets_projection.go:80-110 | accepts exactly the events the offsets transition accepts; a refused event leaves the projection unchanged |
| `Offsets.Projection.Replay` | storage/offsets_projection.go:53-78 | replaying a log succeeds exactly when its fold does, and leaves the fold |
| `Offsets.ReplaySplit` | storage/system_compaction.go:1165-1189 | replaying a log is replaying any prefix and then the rest at the next offset |
| `OffsetsHistory.TransitionValid` | storage/offsets_projection.go:112-381 | an accepted event keeps the offsets invariant: committed is at least initial, resume lies between them, owners equal subscriptions, creation and assignment offsets lie inside the revision |
| `OffsetsHistory.KnownStable` | storage/offsets_projection.go:390-399 | which partitions are known at a reached catalog revision never changes as the catalog grows |
| `OffsetsHistory.TransitionStable` | storage/offsets_projection.go:80-110 | an event that names a reached catalog revision gets the same verdict and successor against every later catalog |
| `OffsetsHistory.NamesReachedRevision` | storage/offsets_projection.go:80-110 | every accepted event names a revision the catalog has reached |
| `OffsetsHistory.ValidStable` | storage/offsets_projection.go:390-399 | a valid offsets state stays valid under every later catalog |
| `OffsetsHistory.ReplayValid` | storage/offsets_projection.go:53-78 | every accepted history ends in a valid state whose revision is the log end |
| `OffsetsHistory.LiveValid` | storage/consumer.go:551-583 | every interleaving of catalog and offsets appends keeps both projections valid |
| `OffsetsHistory.RestartEqualsLive` | storage/offsets_projection.go:53-78 | replaying the whole catalog log and then the whole offsets log against the final catalog gives what the interleaved live run gave |
| `Fencing.HistoryTracks` | storage/offsets_projection.go:170-381 | over every accepted history a group's generation counts its assignments, its owners are those of the last one, and each key's progress is its first baseline and last commit |
| `Fencing.HolderGeneration` | storage/offsets_projection.go:187-197 | the last assignment of a group carries the number of assignments so far |
| `Fencing.CommitsAreFenced` | storage/offsets_projection.go:312-381 | every accepted commit carries the generation and instance of the last assignment, comes from the owner it gave the key, and continues the recorded position without going back |
| `Fencing.ReplayAdvances` | storage/offsets_projection.go:170-381 | through any replay no group disappears, an initial position never changes once set and the latest position never decreases |
| `Fencing.ReplayGenerations` | storage/offsets_projection.go:187-197 | from any state a replay adds one generation per assignment, round the 64-bit counter: a generation falls if and only if its count passes the end |
| `Fencing.GenerationsRise` | storage/offsets_projection.go:187-197 | over every history from the beginning a generation rises by exactly the number of assignments and never falls |
| `OffsetsCheckpoint.CountBody` | storage/offsets_snapshot.go:95-209 | walking a stored event body counts its entries and bytes exactly |
| `OffsetsCheckpoint.EncodeProgress` | storage/offsets_snapshot.go:59-85 | progress is written in ascending key order, every key once |
| `OffsetsCheckpoint.EncodeGroup` | storage/offsets_snapshot.go:41-86 | a group becomes the entry that holds its two event bodies and its progress, with exact entry and byte counts |
| `OffsetsCheckpoint.EncodePayload` | storage/offsets_snapshot.go:26-93 | the payload is the canonical one for the state, or refused once a limit is passed |
| `OffsetsCheckpoint.ReadStoredAssignment` | storage/system_compaction.go:512-620 | accepts exactly the stored assignments that agree with the group's generation and progress and with the catalog |
| `OffsetsCheckpoint.ReadGroup` | storage/system_compaction.go:405-493 | re-applies a stored creation and assignment to the state built so far, or refuses the entry, as the decoding function says |
| `OffsetsCheckpoint.DecodePayload` | storage/system_compaction.go:398-499 | reads a payload group by group to the state it describes, or refuses it |
| `OffsetsCheckpoint.GroupRoundTrip` | storage/system_compaction.go:398-499 | decoding the entry of a reachable group restores the group, exactly when its counts are within the reader's caps |
| `OffsetsCheckpoint.RoundTrip` | storage/system_compaction.go:398-620 | every reachable projection passes every check of the reader except the count caps, and decodes to itself exactly when those hold |
| `OffsetsCodec.BodyRoundTrip` | storage/consumer.go:605-691 | reading an encoded GroupCreated, assignment or commit body gives the event back |
| `OffsetsCodec.BodyCanonical` | storage/offsets_projection.go:112-381 | every accepted body is the encoding of the event read from it |
| `OffsetsCodec.EnvelopeOpens` | storage/events.go:364-376 | opening a written envelope gives its type and payload |
| `OffsetsCodec.EnvelopeCloses` | storage/events.go:378-402 | an accepted envelope is the one written for its type and payload |
| `OffsetsCodec.EventRoundTrip` | storage/events.go:364-402 | offsets events and their accepted bytes determine each other |
| `Restart.PrefixExtends` | storage/system_compaction.go:1139-1163 | replaying the rest of a catalog log after any prefix gives the whole, which extends the prefix |
| `Restart.ReplayStable` | storage/offsets_projection.go:390-399 | offsets records accepted under a catalog replay the same under every later one |
| `Restart.CheckpointDecodes` | storage/system_compaction.go:272-499 | for every split of both logs the two checkpoints decode to the prefix states, the offsets one against the catalog of the whole log |
| `Restart.CheckpointPlusSuffix` | storage/system_compaction.go:1003-1189 | for every accepted pair of logs and every split of each, recovering the checkpoints and replaying the suffixes gives exactly the projections of full replay |
| `Restart.Revisions` | storage/system_compaction.go:1139-1189 | revisions are absolute: they are the lengths of the logs |
| `Restart.LiveEqualsRecovery` | storage/system_compaction.go:1003-1189 | at every moment of an interleaved run, checkpointing, running on and recovering gives the live state and the full replay |
| `CompactionSafety.TailAgrees` | storage/partition.go:353-398 | what opening the partition files makes of the first bytes of a batch: a record when whole, nothing when it can be cut, a refusal for 1 to 47 bytes |
| `CompactionSafety.StartlessRefused` | storage/offsets_projection.go:134-136 | no state and no catalog accepts an explicit start without keys |
| `CompactionSafety.EmptyExplicitIsStart` | storage/group_consumer.go:99-169 | the consumer protocol's refused request appends exactly such an event |
| `CompactionSafety.NewStoreOk` | storage/bootstrap.go:292-318 | a new store satisfies the compaction invariant |
| `CompactionSafety.Boots` | storage/system_compaction.go:1003-1119 | a disk whose active manifest selects an authority holding the histories gives their fold, if and only if no refused record and no short tail follows them in the system logs |
| `CompactionSafety.RemoveKeeps` | storage/system_compaction.go:826-987 | no cleanup step removes a file of an authority that can still be selected |
| `CompactionSafety.StepKeeps` | storage/system_compaction.go:624-765 | every step (append with any number of bytes left by a failure, refused event, each stage of a build, rename, sync, failure, cleanup, exit, power loss, reopening on a settled or an unsettled rename) keeps the active authority complete, and the synced one complete for a prefix |
| `CompactionSafety.RunKeeps` | storage/system_compaction.go:624-987 | every run keeps that invariant, and with it the counts that make every checkpoint readable |
| `CompactionSafety.BrokenExactly` | storage/append_encoded.go:94-108 | a step makes system logs that open ones that do not, if and only if it is a failed append that leaves 1 to 47 bytes or the durable append of an explicit start without keys; only a power loss that puts the previous manifest back undoes it |
| `CompactionSafety.UnbrokenExactly` | storage/append_encoded.go:94-108 | the system logs can be opened after a run if and only if it has no such step since the last such power loss |
| `CompactionSafety.BrokenForGood` | storage/bootstrap.go:36-290 | a closed store with such a log and a settled manifest never opens again in any run |
| `CompactionSafety.CrashAnywhere` | storage/system_compaction.go:624-1119 | after any step of any run a crash, whichever rename survives and whatever debris a half-built directory holds, leaves system logs that open if and only if no step left 1 to 47 bytes of a batch or a refused explicit start, to the fold of the acknowledged records plus at most one record of each log whose outcome was unknown, or of those acknowledged before the rename when the previous manifest comes back |
| `CompactionSafety.LiveIsFold` | storage/system_compaction.go:624-765 | the live state of an open store is the fold of the acknowledged records |
| `CompactionSafety.Unsettles` | storage/system_compaction.go:187-221 | a failed sync of the active manifest, or a process that ends before it, leaves the rename unsettled, with all that was acknowledged in both authorities |
| `CompactionSafety.SettledExactly` | storage/system_compaction.go:187-221 | over every run the synced manifest selects a prefix of the histories; it holds all the acknowledged records if and only if the manifests agree or nothing was acknowledged since the rename, and it always opens |
| `CompactionSafety.LostExactly` | storage/system_compaction.go:711-765 | a step loses an acknowledged record if and only if it is a power loss that puts the previous manifest back after more was acknowledged |
| `CompactionSafety.FindGeneration` | storage/system_compaction.go:767-786 | finds the least unused generation above the current one, and gives up only when 1024 in a row or all that are left are used |
| `CompactionExamples.ShortTailExample` | storage/append_encoded.go:94-108 | one byte of a catalog batch left behind: the system logs do not open again |
| `CompactionExamples.EmptyStartExample` | storage/consumer.go:573-581 | one explicit start without keys: the system logs do not open again |
| `CompactionExamples.Reopens` | storage/system_compaction.go:1003-1137 | any closed store that left nothing behind opens to the fold of its histories |
| `CompactionExamples.Builds` | storage/system_compaction.go:711-740 | a compaction of an open store can always be built, stage by stage, up to the rename |
| `CompactionExamples.LostRecordExample` | storage/system_compaction.go:711-740 | a whole run from a new store in which the sync of the active manifest fails, a topic is acknowledged after reopening, and a power loss takes it back |
| `GroupBodies.PlacementsOk` | storage/group_consumer.go:717-754 | the placements built from prepared members cover exactly their subscriptions with the recorded resume points |
| `GroupBodies.CreatedAccepted` | storage/consumer.go:605-622 | a GroupCreated body built under its caller's checks is accepted if and only if it is not an explicit start without keys |
| `GroupBodies.AssignmentAccepted` | storage/group_consumer.go:717-754 | every assignment body built from prepared members is accepted and gives that group its next assignment |
| `GroupBodies.RevocationAccepted` | storage/consumer.go:654-668 | every empty assignment built at close is accepted |
| `GroupBodies.CommitAccepted` | storage/consumer.go:670-691 | every commit body built under the fence and the position checks is accepted |
| `GroupBodies.OwnersHaveProgress` | storage/consumer.go:428-456 | in a valid state every owned key has a recorded position and a live owner |
| `Membership.OrderedUnique` | storage/group_consumer.go:626-639 | two ordered lists with the same elements are the same list |
| `Membership.ReadMember` | storage/group_consumer.go:576-597 | accepts exactly legal, distinct, unclaimed keys within the limit, and sorts them |
| `Membership.CanonicalMembers` | storage/group_consumer.go:569-604 | refuses exactly the requests outside the limits or with a repeated key, and otherwise gives the canonical form and the union of keys |
| `Membership.CanonicalDecides` | storage/group_consumer.go:641-651 | two requests have the same canonical form exactly when they are the same up to order |
| `Membership.PrepareMembers` | storage/group_consumer.go:606-624 | attaches one session to each member in session order, and refuses exactly repeated sessions |
| `Membership.CanonicalPrepared` | storage/group_consumer.go:569-624 | prepared members have the shape every assignment body needs |
| `ConsumersSafety.InitialInv` | storage/offsets_projection.go:49-51 | a store without groups satisfies the invariant of the runs |
| `ConsumersSafety.StepKeeps` | storage/group_consumer.go:78-449 | every open, poll step, commit, close, expiry, append of any outcome, retention and restart keeps the delivery invariant and no generation falls |
| `ConsumersSafety.RunKeeps` | storage/consumer.go:109-409 | so does every run |
| `ConsumersSafety.AtLeastOnce` | storage/consumer.go:240-356 | in every run from a new store, every offset between a group's initial and latest position of a key was returned by a successful poll of that group |
| `ConsumersSafety.FencedOutForGood` | storage/consumer.go:428-456 | once a later assignment exists no run lets an older handle pass the fence again |
| `ConsumersSafety.CommitTakes` | storage/consumer.go:305-356 | an acknowledged commit inside the delivered prefix moves exactly its key to exactly its position and changes nothing else |
| `ConsumersSafety.PollDelivers` | storage/consumer.go:240-301 | an unfenced poll returns the records it fetched, all of them and no more, and moves only its cursor |
| `ConsumersSafety.AssignFences` | storage/group_consumer.go:176-239 | every key of an acknowledged assignment gets a handle that passes the fence |
| `ConsumersSafety.RefusedExactly` | storage/group_consumer.go:99-169 | a durably appended event is refused exactly when a new group asks for an explicit start without keys; then groups are unavailable in every later run, and after a restart the whole store is |
| `ConsumersSafety.BrokenStays` | storage/bootstrap.go:277-282 | a store whose offsets log holds a refused record or a short tail keeps groups unavailable, and its first restart shuts it for good |
| `ConsumersSafety.EmptyExplicitExample` | storage/group_consumer.go:99-101 | such a request exists in every new store |
| `ConsumerStore.BuildPlacements` | storage/group_consumer.go:717-754 | sorts the owned keys and gives each its resume point |
| `ConsumerStore.BuildStarts` | storage/group_consumer.go:694-715 | lists explicit starts in ascending key order |
| `ConsumerStore.GroupStore.constructor` | storage/offsets_projection.go:49-51 | a new store has no groups, no handles and nothing delivered |
| `ConsumerStore.GroupStore.AppendEvent` | storage/consumer.go:551-603 | an appended event takes the protocol's append step for each outcome: acknowledged, rejected, unknown |
| `ConsumerStore.GroupStore.PollFirst` | storage/consumer.go:269-274 | fences and claims the handle, and succeeds exactly when it is free and passes the fence |
| `ConsumerStore.GroupStore.PollRead` | storage/consumer.go:280-292 | takes the step that fetches outside the lock |
| `ConsumerStore.GroupStore.PollFail` | storage/consumer.go:275-283 | a failed fetch frees the handle and moves nothing |
| `ConsumerStore.GroupStore.PollLast` | storage/consumer.go:293-301 | returns exactly the fetched records and moves the cursor, or, if fenced meanwhile, returns nothing |
| `ConsumerStore.GroupStore.CommitOffset` | storage/consumer.go:305-356 | takes the protocol's commit step, and succeeds exactly when the commit is acknowledged or repeats the committed position |
| `ConsumerStore.GroupStore.CloseHandle` | storage/consumer.go:371-409 | takes the protocol's close step: a live handle revokes its assignment |
| `ConsumerStore.GroupStore.CreateGroup` | storage/group_consumer.go:149-169 | creates the group on first use, as the protocol step says |
| `ConsumerStore.GroupStore.AssignMembers` | storage/group_consumer.go:176-239 | makes the membership the next generation and installs its handles, and succeeds exactly when the event is acknowledged |
| `ConsumerStore.GroupStore.OpenConsumer` | storage/consumer.go:109-236 | takes the protocol's single-consumer open step |
| `ConsumerStore.GroupStore.OpenConsumerGroup` | storage/group_consumer.go:78-239 | takes the protocol's group open step |
| `Codec.RecordRoundTrip` | storage/codec.go:27-75 | decoding an encoded record, whatever bytes follow, gives the same record, absent and empty values told apart, and its length |
| `Codec.RecordCanonical` | storage/codec.go:144-218 | an accepted record re-encodes to the same length, and to the same bytes if and only if bytes 16 to 24 are zero |
| `Codec.UnreadIgnored` | storage/codec.go:148-168 | whatever stands in bytes 16 to 24 of an encoded record, it decodes to the same record |
| `Codec.RecordSized` | storage/writer.go:109-125 | an encodable record is encoded exactly when its estimate is within the limit, and to exactly that many bytes |
| `Batches.BatchRoundTrip` | storage/codec.go:231-352 | decoding an encoded batch gives the same batch |
| `Batches.BatchCanonical` | storage/codec.go:277-352 | an accepted batch re-encodes to itself if and only if the unread bytes of its records are zero |
| `Batches.BatchSized` | storage/writer.go:127-143 | the encoded length is the header, the trailer and the record estimates |
| `Coder.Cursor.ReadU32` | storage/codec.go:101-108 | reads a number and moves past it, or fails as the format says |
| `Coder.Cursor.ReadBytes` | storage/codec.go:110-118 | reads a run of bytes and moves past it, or fails |
| `Coder.Cursor.ReadNullable` | storage/codec.go:120-129 | reads an optional field, absent told from empty, or fails |
| `Coder.Cursor.ReadHeader` | storage/codec.go:187-212 | reads one record header, or fails |
| `Coder.Cursor.ReadHeaders` | storage/codec.go:186-213 | reads the counted headers, or fails |
| `Coder.ReadRecord` | storage/codec.go:144-218 | the decoding loop computes the record format's decoder, of which the round trips are proved |
| `Coder.AppendNullable` | storage/codec.go:83-92 | appends an optional field's bytes, or refuses one that is too long |
| `Coder.WriteRecord` | storage/codec.go:27-75 | filling the prefix, appending the fields and writing the length afterwards computes the record encoder |
| `Coder.WriteRecords` | storage/codec.go:239-254 | the record loop gives the records' bytes and the newest timestamp |
| `Coder.FillHeader` | storage/codec.go:260-269 | filling the buffer field by field gives the 44 checksummed header bytes |
| `Coder.WriteBatch` | storage/codec.go:231-273 | the buffer-filling encoder computes the batch encoder |
| `Coder.ReadRecords` | storage/codec.go:320-347 | the record loop gives the decoded records and their newest timestamp |
| `Coder.ReadBatch` | storage/codec.go:277-352 | the decoding loop computes the batch decoder |
| `Coder.EstimateRecord` | storage/writer.go:109-125 | gives the exact encoded size, or refuses illegal headers and sums over 64 bits |
| `Coder.EstimateBatch` | storage/writer.go:127-143 | gives the exact encoded size of a batch, or refuses |
| `Coder.EstimateIsExact` | storage/writer.go:127-143 | whatever batch the encoder accepts, the estimate accepts too and is its length |
| `Segments.SegmentHeaderRoundTrip` | storage/format.go:114-171 | decoding an encoded segment header gives it back |
| `Segments.SegmentHeaderCanonical` | storage/format.go:136-171 | an accepted header is the encoding of what was read from it |
| `Segments.PreflightAgrees` | storage/preflight.go:306-365 | the read-only preflight accepts exactly the files recovery accepts, up to its size limit, and finds the same end offset |
| `Segments.RecoverAgain` | storage/partition.go:319-404 | recovering the file that recovery left gives the same segment |
| `Segments.ScanTorn` | storage/partition.go:353-398 | the first bytes of one more batch are taken whole, cut, or refused, by their number and whether the segment is the last |
| `Segments.RecoverTorn` | storage/partition.go:319-420 | a last segment with any part of one more batch recovers to its batches, plus that batch when whole, and is refused exactly for a part of 1 to 47 bytes |
| `Recovery.LookAt` | storage/partition.go:354-388 | classifies what lies at a position: a batch, a torn tail or corruption |
| `Recovery.RecoverSegment` | storage/partition.go:319-404 | the scanning loop computes recovery and cuts the file to exactly the recovered length, or leaves it untouched |
| `Recovery.ValidateSegment` | storage/preflight.go:306-365 | the read-only loop accepts exactly what recovery accepts, within the size limit |
| `Recovery.OpenDirectory` | storage/partition.go:161-230 | opening the files in order computes the chain check and cuts each file to its recovered length |
| `PartitionLog.ReopenAfterCrash` | storage/partition.go:161-230 | whatever an append or a roll left behind, reopening gives the written segments, plus the new empty segment or the whole batch, and is refused exactly for a part of 1 to 47 bytes |
| `PartitionEngine.FreshInv` | storage/partition.go:171-183 | a new partition satisfies the invariant of the runs |
| `PartitionEngine.AppendKeeps` | storage/append_encoded.go:46-129 | every append, whatever fails in it, keeps the chain; it is acknowledged at the old log end, or nothing acknowledged changes |
| `PartitionEngine.RunKeeps` | storage/append_encoded.go:46-129 | over every interleaving of successful and failed appends, rolls, retention and reopening, acknowledged batches are only added to, the log end never falls, and no segment exceeds the limit or, if that is more, a header and the largest batch |
| `PartitionEngine.RunExists` | storage/append_encoded.go:46-129 | no reachable state blocks an operation, so the runs are not vacuous |
| `PartitionEngine.AckedNeverRepeat` | storage/append_encoded.go:46-129 | acknowledged offsets never repeat in any run |
| `PartitionEngine.CrashAnywhere` | storage/append_encoded.go:94-121 | a crash anywhere in any run reopens to every retained segment, possibly plus the one unacknowledged batch or empty segment, except after a part of 1 to 47 bytes |
| `PartitionEngine.RolledSize` | storage/append_encoded.go:69-94 | a batch that rolls is acknowledged in a segment of exactly a header and that batch, whatever the limit |
| `PartitionEngine.OversizedExample` | storage/append_encoded.go:69-94 | two acknowledged records after which a segment is longer than the limit |
| `PartitionEngine.SegmentsTiled` | storage/append_encoded.go:94-129 | in every reachable state adjacent segments meet, all but the last are nonempty, and the batches of each tile its bytes and offsets |
| `PartitionEngine.Newest` | storage/append_encoded.go:116-120 | gives the newest record timestamp |
| `PartitionEngine.Partition.constructor` | storage/partition.go:270-317 | a new partition is one empty segment |
| `PartitionEngine.Partition.FitsLimits` | storage/append_encoded.go:56-67 | accepts exactly the nonempty batches within the record, batch and byte limits |
| `PartitionEngine.Partition.Roll` | storage/partition.go:270-317 | adds an empty segment at the log end, or stops the partition |
| `PartitionEngine.Partition.WriteActive` | storage/append_encoded.go:94-128 | writes and syncs the batch and only then moves the end, or stops the partition with any part written |
| `PartitionEngine.Partition.AppendEncoded` | storage/append_encoded.go:46-129 | keeps the chain, acknowledges the batch at the old end or changes nothing acknowledged |
| `PartitionEngine.Partition.Retire` | storage/retention.go:263-273 | drops a prefix of sealed segments and nothing else |
| `Preflight.ChainAgrees` | storage/preflight.go:240-257 | whatever the files hold, the read-only chain check accepts exactly what opening the partition accepts, up to the configured size, and finds the same end |
| `Preflight.AcceptedOpens` | storage/preflight.go:161-173 | what preflight accepts can be opened at the catalog's anchor once the retired files are gone |
| `Preflight.ValidateChain` | storage/preflight.go:240-257 | the loop over the retained files computes the chain check |
| `Preflight.ValidateRetired` | storage/preflight.go:260-292 | a leftover file passes exactly when its length, identity, header digest, contents and end are those of the retired segment |
| `Preflight.PreflightPartition` | storage/preflight.go:161-258 | accepts a directory exactly when every file below the retained start is a retired segment, the others form a chain from it, and the first is the catalog's anchor |
| `Preflight.PreflightTopic` | storage/preflight.go:115-151 | accepts a topic directory exactly when its marker, if any, is whole and its partitions are those of the catalog, each accepted |
| `Preflight.PreflightUnclaimed` | storage/preflight.go:60-75 | a directory of no topic passes exactly when its marker is whole, or it has none and the catalog has no topic |
| `Preflight.PreflightStorage` | storage/preflight.go:33-87 | accepts the topics directory exactly when each directory passes and every topic has one |
| `PreflightSafety.HoleRefused` | storage/preflight.go:240-257 | a chain with a missing segment is refused, wherever the hole is |
| `PreflightSafety.InventoryAt` | storage/catalog.go:180-190 | the inventory built up by retention lists each retired segment and nothing else |
| `PreflightSafety.EntryAccepted` | storage/preflight.go:260-292 | a retired segment whose file is still there passes |
| `PreflightSafety.OpensExactly` | storage/partition.go:161-230 | a partition the engine wrote opens, whatever a failed append or roll left, exactly when its tail is not 1 to 47 bytes |
| `PreflightSafety.PartitionExactly` | storage/preflight.go:161-258 | for all segments ever written, any set of removed files, any failed append and any past or present catalog, preflight accepts the directory if and only if no segment at or above the catalog's start was removed and the tail is not 1 to 47 bytes |
| `StorageParts.RebaseOk` | storage/retention.go:263-273 | whatever was retired, the rest is a state of the append engine with the same acknowledged batches |
| `StorageParts.UsePart` | storage/append_encoded.go:46-129 | an append, a roll or a reopening of what is in use is the engine's step and touches nothing written before |
| `StorageParts.HistoryGrows` | storage/catalog.go:133-198 | every catalog the history went through stays tied to the storage as partitions grow |
| `StorageParts.StorageExactly` | storage/preflight.go:33-87 | preflight accepts all topic storage against any catalog it is tied to, if and only if no partition misses a retained segment or has a tail of 1 to 47 bytes and every other directory has a whole marker, or none while there are no topics |
| `StorageSafety.EventRetires` | storage/retention.go:225-290 | what a retention event says of the retired segments is what was written to them |
| `StorageSafety.AdvanceTied` | storage/retention.go:246-273 | a retention event leaves a catalog tied to the same files, from the next segment on |
| `StorageSafety.CreatedTied` | storage/catalog.go:354-418 | a topic event leaves a catalog tied to the prepared storage |
| `StorageSafety.PlacedKeeps` | storage/retention.go:425-470 | opening a store removes the retired files and leaves every partition starting where the catalog says |
| `StorageSafety.NewOk` | storage/bootstrap.go:292-318 | a new store satisfies the invariant of the whole store and can be opened |
| `StorageSafety.StepKeeps` | storage/store.go:337-584 | every step of a whole store (system logs, topic preparation as far as it got, topic creation, direct partitions, appends and rolls with every fault, retention with every outcome, removal of single files, exit, power loss, open) keeps every partition a state of the engine and tied to every catalog its history went through |
| `StorageSafety.RunKeeps` | storage/store.go:337-584 | every run keeps that invariant |
| `StorageTheorems.UseReadable` | storage/append_encoded.go:94-108 | of all operations on a partition only an append that writes 1 to 47 bytes of its batch and fails makes it unreadable, and none makes it readable again |
| `StorageTheorems.DiscardExactly` | storage/retention.go:394-424 | removing a retired file never decides whether the store opens |
| `StorageTheorems.PrepareExactly` | storage/catalog.go:435-471 | preparing a topic breaks the store if and only if it stops inside the marker, or before it while there are topics |
| `StorageTheorems.DirectExactly` | storage/store.go:489-515 | a direct partition breaks the store if and only if it makes a directory while there are topics |
| `StorageTheorems.CreateExactly` | storage/catalog.go:383-418 | a topic event breaks the store if and only if it tears a batch header, or is the first topic beside a directory without a marker |
| `StorageTheorems.RetainExactly` | storage/retention.go:246-278 | a retention event breaks the store if and only if it tears a batch header in the catalog log |
| `StorageTheorems.WholeExactly` | storage/bootstrap.go:36-290 | for every reachable store and every step, the store can be opened afterwards if and only if it could before and the step is none of the listed ones, or, after a power loss that puts the previous manifest back, if and only if the files fit its catalog |
| `StorageTheorems.IntactExactly` | storage/bootstrap.go:36-290 | the same over every run |
| `StorageTheorems.BootsExactly` | storage/system_compaction.go:1003-1137 | a crash of any reachable store, whichever manifest survives: when it opens, and to what |
| `StorageTheorems.StoreOpens` | storage/system_compaction.go:1003-1137 | after any run from a new store and any crash, the store opens if and only if no step of the run broke it, with every acknowledged record; when the previous manifest comes back, if and only if its catalog still fits the files |
| `StorageTheorems.BrokenForGood` | storage/bootstrap.go:36-290 | a closed broken store with a settled manifest never opens again in any run |
| `StorageTheorems.OpenServes` | storage/store.go:489-531 | in a store that has been opened every partition of the catalog can be opened and then takes appends |
| `StorageExamples.UserTailExample` | storage/append_encoded.go:94-108 | one byte of one user batch left behind: the whole store does not open again |
| `StorageExamples.UnmarkedExample` | storage/catalog.go:438-450 | a second topic whose creation stops before its marker: the store does not open again |
| `StorageExamples.TornMarkerExample` | storage/catalog.go:456-459 | a marker one byte short: the store does not open again |
| `StorageExamples.DirectExample` | storage/store.go:508-518 | a partition opened directly beside a topic: the store does not open again |
| `StorageExamples.LatentExample` | storage/preflight.go:61-75 | a directory without a marker, and then the first topic: the store does not open again |
| `StorageFallback.LostSegmentExample` | storage/retention.go:394-416 | a whole run in which a process ends before the sync of the manifest, the store is opened again and retires a segment, and a power loss brings back the catalog that starts with it: the store does not open again |
| `Retention.ElapsedExact` | storage/retention.go:387-392 | the unsigned subtraction is the true distance between any two signed times |
| `Retention.RetainedBytes` | storage/retention.go:369-378 | gives the total size of the segments, or refuses a sum over 64 bits |
| `Retention.ProposalMeans` | storage/retention.go:292-354 | a proposal is the longest eligible prefix without the active segment, within the per-event limit, with the reasons that made it eligible and the bytes that remain |
| `Retention.Plan` | storage/retention.go:292-354 | the planning loop computes that proposal |
| `Retention.ProposalAccepted` | storage/retention.go:214-268 | the event of every proposal is accepted by the catalog, and then the first kept segment is the one the catalog names |
| `RetentionSafety.NewPartitionOk` | storage/catalog.go:116-132 | a partition of a topic just created satisfies the invariant of the runs |
| `RetentionSafety.PassKeeps` | storage/retention.go:182-279 | one pass, acknowledged or of unknown outcome, keeps partition and catalog agreed on the first live segment |
| `RetentionSafety.RestartKeeps` | storage/retention.go:425-470 | reopening drops exactly the segments below the catalog's boundary |
| `RetentionSafety.RunKeeps` | storage/retention.go:172-180 | over every run of appends, rolls, passes, other catalog events and restarts, the catalog names a segment of the partition, the first one while it is live |
| `RetentionSafety.NeverRefused` | storage/retention.go:246-273 | in every reachable live state a pass whose append is answered never stops the partition |
| `RetentionSafety.ListRetired` | storage/retention.go:281-290 | lists the retired segments for the event, in order |
| `RetentionSafety.RetainPartition` | storage/retention.go:182-279 | the in-place pass over the catalog projection and the segment list takes the modelled step for each outcome, a failing roll included |
| `SegmentPieces.PiecesRefine` | storage/retention.go:292-301 | every segment list the append engine reaches, with distinct identities, is a list of pieces the planner and its safety argument are about |
| `SegmentPieces.RetireRefines` | storage/retention.go:263-273 | retiring segments drops that many pieces from the front |
| `SegmentPieces.RollRefines` | storage/retention.go:301-316 | a roll adds an empty piece at the log end |
| `SegmentPieces.WriteRefines` | storage/append_encoded.go:109-121 | an acknowledged batch grows the last piece by its records, its bytes and its newest timestamp |
| `Index.BatchMap` | storage/index.go:283-289 | maps each batch base to its batch |
| `Index.ValidateOffsets` | storage/index.go:307-337 | accepts exactly the ordered entries that each name a batch |
| `Index.AdvanceCursor` | storage/index.go:364-369 | folds every batch up to an offset into the running maximum |
| `Index.ValidateTimes` | storage/index.go:339-377 | accepts exactly the ordered entries that each name a batch with the running maximum up to it |
| `Index.Sample` | storage/index.go:238-265 | both sampled indexes pass validation, stay within the entry limits, and below the limit every batch lies within a stride of an entry |
| `Reads.ViewRising` | storage/index.go:238-265 | a written segment's batches rise, so an index sampled from them is valid for it |
| `Reads.LogNumbered` | storage/partition.go:534-599 | the records of a log are numbered from its start to its end |
| `Reads.ScanMeans` | storage/fetch.go:120-181 | a scan is the longest prefix within both limits of the records at or above the offset, or a report that the first is too large |
| `Reads.HintedScan` | storage/fetch.go:120-147 | starting at the hint of any valid index, lagging or not, gives what scanning the whole segment gives |
| `Reads.FetchMeans` | storage/fetch.go:60-111 | whatever valid indexes the segments carry, reading the log is scanning all its records |
| `Fetcher.FindHint` | storage/fetch.go:126-135 | gives the position of the last entry at or below the offset |
| `Fetcher.FeedRecords` | storage/fetch.go:158-178 | the record loop takes records until a limit |
| `Fetcher.ScanSegment` | storage/fetch.go:120-181 | the batch loop computes the segment scan, or fails on a malformed batch |
| `Fetcher.FetchSegments` | storage/fetch.go:90-111 | the segment loop gives the longest allowed prefix of the records at or above the offset |
| `Fetcher.Fetch` | storage/fetch.go:37-111 | refuses exactly illegal limits, offsets out of range and a first record over the byte limit; otherwise gives the longest allowed prefix and the offset after it |
| `Fetcher.Read` | storage/partition.go:534-599 | refuses exactly offsets out of range; otherwise gives the first records at or above the offset, up to the limit |
| `Tail.Measure` | storage/tail.go:256-272 | totals the records exactly when they are consecutive records of one partition |
| `Tail.NewDelivered` | storage/tail.go:244-274 | caches exactly the nonempty consecutive batches below the durable end, with their exact size |
| `Tail.CheckAnswers` | storage/tail.go:316-326 | a cached batch answers exactly for its partition, an offset inside it and a durable end that covers it |
| `Tail.EvictionsMean` | storage/tail.go:165-186 | just enough of the oldest batches go: what stays fits with the newcomer and one fewer would not |
| `Tail.HitRefinesScan` | storage/tail.go:276-314 | a hit is what the segment scan returns, or a nonempty prefix of it when the cached batch ended first, with the same too-small error |
| `Tail.Budget.TryReplace` | storage/tail.go:42-52 | swaps bytes exactly when the result fits the shared limit |
| `Tail.Budget.Release` | storage/tail.go:54-65 | returns bytes; with what a tail holds its clamp never acts |
| `Tail.Ring.constructor` | storage/tail.go:104-115 | a new ring is empty |
| `Tail.Ring.EvictionPlan` | storage/tail.go:165-186 | counts the batches that must go and their bytes |
| `Tail.Ring.Evict` | storage/tail.go:188-197 | drops exactly the oldest batches and their bytes |
| `Tail.Ring.Install` | storage/tail.go:143-163 | evicts and adds exactly when the shared budget allows the swap |
| `Tail.Ring.Offer` | storage/tail.go:132-163 | takes a batch exactly when no lock is held, the ring is open, the batch is well formed and fits the limit and the budget; otherwise nothing changes |
| `Tail.Ring.Clear` | storage/tail.go:199-242 | empties the ring and returns all its bytes to the budget |
| `Tail.Ring.Fetch` | storage/tail.go:276-314 | misses exactly when locked, closed or no cached batch answers; otherwise reads one that does |
| `Tail.Tails.constructor` | storage/tail.go:30-40 | no tails, no bytes |
| `Tail.Tails.Attach` | storage/tail.go:117-127 | adds an empty tail and keeps the budget equal to the sum over all tails |
| `Tail.Tails.Offer` | storage/tail.go:132-163 | an offer to one tail keeps the budget equal to the sum over all tails and within its limit |
| `Tail.Tails.Clear` | storage/tail.go:199-242 | clearing one tail does too |
| `Tail.TailedLog.Append` | storage/append_encoded.go:106-129 | appending keeps every cached batch a piece of the history |
| `Tail.TailedLog.Publish` | storage/append_encoded.go:36-40 | so does publishing a batch, however late |
| `Tail.TailedLog.Retain` | storage/retention.go:269-273 | so does moving the start, which empties the tail |
| `Tail.TailedLog.Fetch` | storage/fetch.go:87-111 | in every reachable state a hit agrees with the scan of the retained records |
| `Delivery.FetchRecords` | storage/fetch.go:60-111 | from the tail or the segments: refuses exactly illegal limits, offsets out of range and a first record over the byte limit; otherwise gives consecutive durable records from the offset on, within the limits and none missing, and the offset after them |
| `Delivery.TailFetch` | storage/fetch.go:87-89 | the tail's answer, when it has one, is such a run or the same error |
| `Delivery.FetchIsPoll` | storage/consumer.go:280-300 | such records are a legal fetch of a poll, and what the poll hands out is exactly their offsets |
| `Delivery.PollRecords` | storage/consumer.go:280-292 | the fetch of a poll takes the protocol's step with what the partition returned, or frees the handle |
| `Digest.SegmentShows` | storage/snapshot.go:174-203 | a written segment's batch list locates the bytes of its batches |
| `Digest.RereadMeans` | storage/snapshot.go:160-212 | a re-read reaches an offset exactly when it is a batch boundary, and has then absorbed exactly the bytes before it |
| `Digest.Reread` | storage/snapshot.go:160-212 | the same over the files of a whole log |
| `Digest.ExtendKeeps` | storage/snapshot.go:143-154 | absorbing an appended batch keeps the running bytes those of the whole log |
| `Digest.AbsorbFile` | storage/snapshot.go:175-203 | the batch loop absorbs a file's batches up to the offset |
| `Digest.AbsorbAll` | storage/snapshot.go:170-204 | the segment loop absorbs all of them |
| `Digest.Digester.Extend` | storage/snapshot.go:143-154 | continues the cached prefix when the append follows it, and otherwise drops it |
| `Digest.Digester.OnAppend` | storage/append_encoded.go:121-122 | after a durable append the cache still covers the whole log |
| `Digest.Digester.RollKeeps` | storage/append_encoded.go:69-93 | a roll changes no digest |
| `Digest.Digester.Drop` | storage/retention.go:269-272 | retention drops the cache |
| `Digest.Digester.Compute` | storage/snapshot.go:113-212 | from the cache or by re-reading, the digest is that of the identity prelude and every retained batch's bytes up to the offset, and is refused exactly past the end or inside a batch |
| `Ingress.SplitBatches` | storage/ingress.go:194-214 | the written batches concatenate to the requests in order, each within both limits, and a batch is closed only when the next request does not fit in it |
| `Ingress.Writer.constructor` | storage/writer.go:145-169 | a new writer holds no credit |
| `Ingress.Writer.Admit` | storage/writer.go:242-309 | takes all three credits exactly when all are free; refuses exactly while closed, closing or unavailable, and requests over the byte limit; otherwise waits or pushes back |
| `Ingress.Writer.Shut` | storage/writer.go:245-260 | closing or failing changes nothing but who is let in |
| `Ingress.Writer.StopWaiting` | storage/writer.go:282-307 | a leaving waiter gives back its place; the clamp never acts |
| `Ingress.Writer.Release` | storage/writer.go:196-217 | an unpublished request gives back exactly its credits; no clamp acts |
| `Ingress.Writer.Publish` | storage/ingress.go:158-166 | a request enters the ring behind everything published before |
| `Ingress.Writer.CompleteAll` | storage/writer.go:345-364 | each request gets its result once and gives back its admission; earlier results stay |
| `Ingress.Writer.WriteHeld` | storage/ingress.go:62-75 | everything held is written in order and answered batch by batch |
| `Ingress.Writer.Handle` | storage/ingress.go:54-75 | takes the next event and writes at the end of a ring batch |
| `Ingress.Writer.Settle` | storage/ingress.go:77-87 | answers a run of pending requests with an unknown outcome |
| `Ingress.Writer.FailPending` | storage/ingress.go:77-87 | what a stopped processor held has an unknown outcome, each answered once |
| `Ingress.Writer.DrainPending` | storage/ingress.go:173-192 | the rest of the ring too; only the credits of unpublished requests remain |
| `Ingress.Writer.DrainedIsZero` | storage/writer.go:196-217 | with nothing admitted every credit is zero and every published request has its result |
| `Ingress.Writer.OneResultEach` | storage/writer.go:345-364 | a published request has its one result or is still on its way |
| `Ingress.IngressCapacity` | storage/ingress.go:143-156 | the least power of two that holds two admission windows |
| `Ingress.CreditsNeverBlock` | storage/ingress.go:143-156 | with such a ring the publication credit never holds a request back |
| `DiskLedger.GrantLeaves` | storage/disk_pressure.go:119-183 | a user grant leaves the observed capacity less all reservations at or above the stop floor, a control grant at or above the safety floor |
| `DiskLedger.AssessOrder` | storage/disk_pressure.go:151-190 | stop and resume never hold together, so the order of the two tests does not matter |
| `DiskLedger.StartInv` | storage/disk_pressure.go:104-112 | a new ledger satisfies the invariant of its runs |
| `DiskLedger.RunKeeps` | storage/disk_pressure.go:83-183 | with probes answering in any order, reserved totals equal the outstanding reservations, and the newest finished probe alone decides the observation and the failure flag |
| `DiskLedger.Hysteresis` | storage/disk_pressure.go:119-190 | from becoming pressured until a resume-level observation no run grants user growth |
| `DiskLedger.GrantUpToDate` | storage/disk_pressure.go:126-160 | a user grant rests on the newest finished probe if and only if it is not a late answer after that probe failed |
| `DiskLedger.StaleGrantExample` | storage/disk_pressure.go:126-160 | three probes after which such a late answer is granted under pressure |
| `DiskLedger.DiskPressure.constructor` | storage/disk_pressure.go:104-112 | a new ledger has no reservation and no observation |
| `DiskLedger.DiskPressure.BeginReserve` | storage/disk_pressure.go:119-126 | takes the next probe number |
| `DiskLedger.DiskPressure.Apply` | storage/disk_pressure.go:129-146 | records an answer unless a newer one was applied |
| `DiskLedger.DiskPressure.Reassess` | storage/disk_pressure.go:152-161 | stops below the stop floor and resumes at the resume floor |
| `DiskLedger.DiskPressure.FinishReserve` | storage/disk_pressure.go:129-183 | decides the reservation as the ledger step says |
| `DiskLedger.DiskPressure.Release` | storage/disk_pressure.go:83-102 | gives back a reservation |

## Left out

- Error kinds: a refusal is one value, whatever error the code would report; where two refusals lead to different states the model keeps them apart.
- The filesystem, locks, descriptors and directory syncs: they are abstract durable steps that may fail, tear or be lost.
- Wall-clock time, contexts and wake-ups: time is an input; expiry, cancellation and losing a lock are steps that may happen at any moment. `Reader` and `waitForData` are not modelled.
- Statistics, latency histograms and diagnostics.
- Operating limits on history bytes, projection growth and open partitions (storage/store.go, storage/capacity.go): refusals before an append that would only shrink the set of runs. Opening a store under lower limits than its history was written under is refused (storage/store.go:389-404) and not modelled.
- Topic names, directory names, unexpected entries of directories (storage/preflight.go:48-59, 129-134, 226-239) and the packing of partition configurations: a configuration is a valid value.
- The creation of the store itself: runs start once its StoreInitialized record is acknowledged (storage/bootstrap.go:57-99).
- The bytes of catalog events, retention events, checkpoints and manifests: these are values with the checks of their decoders. Records, batches, segment headers and offsets events are modelled to the byte.
- The shape of the record around a system event (its topic, partition, absent key and headers).
- The bytes and headers of index files: entries are modelled as decoded.
- Snapshot files and `validateOffsetsHistory`, which nothing calls.
- A header list that is nil and one that is empty are the same list; the decoder always returns a list.
- Random identities are parameters; that fresh ones differ from those in use is assumed where the code relies on it.
- What a failed append leaves is decided once: the page cache, which a later process may see and a power loss may take, is not modelled. A failed roll of a system log leaves its records as they are and is not a step of its own.
- The new generation's directories count as durable once its manifest is published; the code syncs the generation's root but not the entries of `cluster-metadata` and `consumer-offsets` below it (storage/system_compaction.go:798). The partition directories of a new topic count as durable once its event is appended; the code does not sync their entries in the topic directory (storage/catalog.go:356-369). A removed file stays removed.
- CompactionSafety.RunKeeps: its appends keep the counts that storage/store.go:196-300 and storage/group_consumer.go:569-604 enforce before every append.
- StorageSafety.StepKeeps: a retention step retires any prefix of sealed segments under an event that the catalog accepts; that the planned ones are accepted is `RetentionSafety.NeverRefused`. An open that fails by an error of the file system is not a step, but for the retired files it may already have removed. A new topic's identity is not one in use.
- ConsumersSafety.AtLeastOnce: the fetched range of a poll is a parameter of its step; `Delivery.PollRecords` takes that step with what the log returns. It treats polls, commits, opens and closes as interleaved steps on values; `ConsumerStore` has the same steps as methods that update an object in place, without its locks.
- ConsumersSafety.StepKeeps: does not model the reuse of a live group handle when the same membership is opened again, which changes no state.
- RetentionSafety.RetainPartition: requires that the identity drawn for a rolled segment is not one already in use.
- RetentionSafety.RestartKeeps: reopening drops what lies below the catalog's boundary in one step; `Storage` has the removal of the leftover files one by one.
- ConsumerStore.GroupStore.CloseHandle: closes one cursor at a time, with the owner test of `Consumer.Close`; `GroupConsumer.Close` closes all cursors of its handle at once and has no such test, which the generation implies.
- Coder.EstimateRecord: requires that key and value fit one address space, so that the first sum, which the code does not check, cannot wrap.
- Ingress.Writer.Admit: one admission attempt; waiting and trying again is this step repeated.
- Ingress.Writer.WriteHeld: the outcome of each written batch is an arbitrary function of the batch; the write itself is `PartitionEngine.Partition.AppendEncoded`.
- DiskLedger.DiskPressure.constructor: the first probe, which the code makes inside the constructor, is the first step of a run.
- Tail.TailedLog.Fetch: the log and its tail without the shared budget, which decides only what is cached; `Tail.Tails` has the budget.
