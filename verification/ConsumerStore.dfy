/** The consumer API as it runs: one store object whose methods change its handles
    and its projection in place, each exactly one step of the protocol. */
module ConsumerStore {
  import opened Base
  import opened Sorting
  import opened Offsets
  import opened GroupBodies
  import opened Consumers
  import Catalog

  /** encodeGroupAssignmentBody's sorted placements. */
  method BuildPlacements(progress: map<TopicKey, Progress>, members: seq<Member>, start: TopicKey -> u64)
    returns (placed: seq<Placement>)
    ensures placed == Placements(progress, members, start)
  {
    hide Subscribed, KeyLess, StrictTotal, Listing;
    KeyOrder();
    var owners := Subscribed(members);
    var keys := Sort(owners.Keys, KeyLess);
    assert keys == OrderedKeys(members);
    placed := [];
    for i := 0 to |keys|
      invariant |placed| == i
      invariant forall j | 0 <= j < i :: placed[j] == PlacementFor(progress, keys[j], owners[keys[j]], start(keys[j]))
    {
      assert keys[i] in keys;
      placed := placed + [PlacementFor(progress, keys[i], owners[keys[i]], start(keys[i]))];
    }
  }

  /** encodeGroupCreatedGroupBody's sorted explicit starts. */
  method BuildStarts(starts: map<TopicKey, u64>) returns (list: seq<Start>)
    ensures list == StartList(starts)
  {
    hide KeyLess, StrictTotal, Listing;
    KeyOrder();
    var keys := Sort(starts.Keys, KeyLess);
    list := [];
    for i := 0 to |keys|
      invariant |list| == i && forall j | 0 <= j < i :: keys[j] in starts && list[j] == Start(keys[j], starts[keys[j]])
    {
      assert keys[i] in keys;
      list := list + [Start(keys[i], starts[keys[i]])];
    }
  }

  class GroupStore {
    var cat: Catalog.State
    var offsets: State
    var unavailable: bool
    var parts: map<TopicKey, Range>
    var cursors: seq<Cursor>

    /** What a replay would give, whether one is possible, and what was returned. */
    ghost var durable: State
    ghost var refused: bool
    ghost var torn: bool
    ghost var shut: bool
    ghost var delivered: set<Delivery>

    ghost function View(): World
      reads this
    {
      World(cat, offsets, durable, unavailable, refused, torn, shut, parts, cursors, delivered)
    }

    constructor (cat: Catalog.State, store: Id)
      ensures View() == World(cat, Offsets.Fresh(store), Offsets.Fresh(store), false, false, false, false, map[], [],
                              {})
    {
      this.cat, offsets, durable := cat, Offsets.Fresh(store), Offsets.Fresh(store);
      unavailable, refused, torn, shut, parts, cursors, delivered := false, false, false, false, map[], [], {};
    }

    /** appendOffsetsEventLocked with the error mapping of its callers. */
    method AppendEvent(e: Event, outcome: Outcome) returns (ok: bool)
      modifies this
      ensures View() == Append(old(View()), e, outcome) && (ok <==> Appended(old(View()), e, outcome))
    {
      hide Transition;
      if outcome.Rejected? || offsets.revision >= MAX_OFFSET { return false; }
      if outcome.UnknownLost? || outcome.UnknownTorn? {
        unavailable, torn := true, torn || outcome.UnknownTorn?;
        return false;
      }
      var next := Transition(offsets, offsets.revision, e, cat);
      if next.None? {
        unavailable, refused := true, true;
        return false;
      }
      durable := next.value;
      if outcome.UnknownDurable? {
        unavailable := true;
        return false;
      }
      offsets := next.value;
      ok := true;
    }

    predicate Current(c: Cursor)
      reads this
    {
      && !c.lost && !unavailable
      && c.group in offsets.groups
      && (var g := offsets.groups[c.group];
          && g.generation == c.generation && g.instance == offsets.store
          && c.key in g.owners && g.owners[c.key] == c.session)
      && c.key in parts
    }

    method PollFirst(at: nat) returns (ok: bool)
      modifies this
      ensures View() == DoPoll(old(View()), PollBegin(at))
      ensures ok <==> at < |old(cursors)| && old(cursors)[at].stage.Free? && Fenced(old(View()), old(cursors)[at])
    {
      if at >= |cursors| { return false; }
      var c := cursors[at];
      if !c.stage.Free? || !Current(c) { return false; }
      cursors := cursors[at := c.(stage := Begun)];
      ok := true;
    }

    /** The fetch, outside the lock. */
    method PollRead(at: nat, upTo: u64)
      modifies this
      ensures View() == DoPoll(old(View()), PollFetch(at, upTo))
    {
      if at >= |cursors| { return; }
      var c := cursors[at];
      if c.stage.Begun? && c.key in parts && Within(parts[c.key], c.next) && c.next <= upTo <= parts[c.key].end {
        cursors := cursors[at := c.(stage := Fetched(upTo))];
      }
    }

    /** The fetch failed, or the caller gave up. */
    method PollFail(at: nat)
      modifies this
      ensures View() == DoPoll(old(View()), PollAbort(at))
    {
      if at < |cursors| { cursors := cursors[at := cursors[at].(stage := Free)]; }
    }

    /** The result is returned and the cursor moves only behind the fence. */
    method PollLast(at: nat) returns (returned: bool)
      modifies this
      ensures View() == DoPoll(old(View()), PollFinish(at))
      ensures returned ==> at < |old(cursors)| && old(cursors)[at].stage.Fetched?
                           && delivered == old(delivered) + Returned(old(cursors)[at], old(cursors)[at].stage.upTo)
      ensures !returned ==> delivered == old(delivered)
    {
      hide Returned;
      if at >= |cursors| { return false; }
      var c := cursors[at];
      if !c.stage.Fetched? { return false; }
      if !Current(c) {
        cursors := cursors[at := c.(stage := Free)];
        return false;
      }
      cursors := cursors[at := c.(stage := Free, next := c.stage.upTo, delivered := c.stage.upTo)];
      delivered := delivered + Returned(c, c.stage.upTo);
      returned := true;
    }

    method CommitOffset(at: nat, next: u64, outcome: Outcome) returns (ok: bool)
      modifies this
      ensures View() == DoCommit(old(View()), Commit(at, next, outcome))
      ensures ok <==> Committed(old(View()), Commit(at, next, outcome))
    {
      hide Append, Appended;
      if at >= |cursors| { return false; }
      var c := cursors[at];
      if !c.stage.Free? || !Current(c) { return false; }
      var g := offsets.groups[c.group];
      if c.key !in g.progress { return false; }
      var p := g.progress[c.key];
      var current := LatestNext(p);
      if next < current || next > c.delivered || next > parts[c.key].end { return false; }
      if p.hasCommit && next == current { return true; }
      ok := AppendEvent(CommitBody(offsets.store, cat, c.group, c.session, c.generation, c.key, p, next), outcome);
    }

    method CloseHandle(at: nat, outcome: Outcome)
      modifies this
      ensures View() == DoClose(old(View()), Close(at, outcome))
    {
      hide Append, Appended;
      if at >= |cursors| { return; }
      var c := cursors[at];
      if !c.lost && !unavailable && c.group in offsets.groups {
        var g := offsets.groups[c.group];
        if g.generation == c.generation && OwnerIs(g, c) && g.generation != MAX_U64 {
          var _ := AppendEvent(RevocationBody(offsets.store, cat, c.group, g), outcome);
        }
      }
      if at < |cursors| { cursors := cursors[at := c.(lost := true)]; }
    }

    /** The group is created on first use. */
    method CreateGroup(group: GroupId, mode: u8, starts: map<TopicKey, u64>, outcome: Outcome)
      modifies this
      ensures View() == Create(old(View()), group, mode, starts, outcome)
    {
      hide Append, Appended, InCatalog, StartList;
      if group in offsets.groups { return; }
      if exists k | k in starts :: !OpenableIn(cat, parts, k) || !Within(parts[k], starts[k]) {
        assert exists k | k in starts :: !Openable(View(), k) || !Within(parts[k], starts[k]);
        return;
      }
      assert !exists k | k in starts :: !Openable(View(), k) || !Within(parts[k], starts[k]);
      var list := BuildStarts(starts);
      var _ := AppendEvent(GroupCreated(offsets.store, cat.revision, group, mode, list), outcome);
    }

    /** The complete membership becomes the next generation, and its handles start at
        the positions the assignment recorded. */
    method AssignMembers(group: GroupId, members: seq<Member>, reason: u8, checked: bool, outcome: Outcome)
      returns (ok: bool)
      requires group in offsets.groups
      modifies this
      ensures View() == Assign(old(View()), group, members, reason, checked, outcome)
      ensures ok <==> Assigned(old(View()), group, members, reason, checked, outcome)
    {
      hide Append, Appended, Subscribed, ResumeIn, Placements, NewCursor;
      var g := offsets.groups[group];
      if g.generation == MAX_U64 { return false; }
      var subscribed := Subscribed(members);
      if exists k | k in subscribed :: ResumeIn(cat, parts, g, k, checked).None? {
        assert !Resumable(View(), g, members, checked) by {
          var k :| k in subscribed && ResumeIn(cat, parts, g, k, checked).None?;
          assert ResumeAt(View(), g, k, checked).None?;
        }
        return false;
      }
      assert Resumable(View(), g, members, checked) by {
        assert forall k | k in subscribed :: ResumeAt(View(), g, k, checked).Some?;
      }
      var placed := BuildPlacements(g.progress, members, Resumes(cat, parts, g, checked));
      var e := AssignmentChanged(offsets.store, cat.revision, group, offsets.store, g.generation,
                                 WrappingSucc(g.generation), reason, members, placed);
      ok := AppendEvent(e, outcome);
      if ok { cursors := cursors + NewCursors(group, e.generation, placed); }
    }

    /** OpenConsumer */
    method OpenConsumer(group: GroupId, key: TopicKey, mode: u8, explicit: u64, session: Id, reason: u8,
                        created: Outcome, changed: Outcome)
      modifies this
      ensures View() == DoOpenOne(old(View()), OpenOne(group, key, mode, explicit, session, reason, created, changed))
    {
      hide Create, Assign, InCatalog;
      if unavailable || !UserKey(key) || session == 0 || !(EARLIEST <= mode <= EXPLICIT)
          || !OpenableIn(cat, parts, key) { return; }
      if mode != EXPLICIT && explicit != 0 { return; }
      var starts: map<TopicKey, u64> := if mode == EXPLICIT then map[key := explicit] else map[];
      CreateGroup(group, mode, starts, created);
      if group !in offsets.groups { return; }
      var g := offsets.groups[group];
      if g.startMode != mode { return; }
      if key !in g.progress && mode == EXPLICIT
         && !(key in g.explicitStarts && g.explicitStarts[key] == explicit) { return; }
      var _ := AssignMembers(group, [Member(session, [key])], reason, false, changed);
    }

    /** OpenConsumerGroup, after the members were prepared. */
    method OpenConsumerGroup(group: GroupId, members: seq<Member>, mode: u8, starts: map<TopicKey, u64>, reason: u8,
                             created: Outcome, changed: Outcome)
      modifies this
      ensures View() == DoOpenGroup(old(View()), OpenGroup(group, members, mode, starts, reason, created, changed))
    {
      hide Create, Assign, Requested;
      if unavailable || !Requested(OpenGroup(group, members, mode, starts, reason, created, changed)) { return; }
      CreateGroup(group, mode, starts, created);
      if group !in offsets.groups { return; }
      var g := offsets.groups[group];
      if g.startMode != mode { return; }
      if mode == EXPLICIT && exists k | k in starts ::
          k !in g.explicitStarts || g.explicitStarts[k] != starts[k] { return; }
      var _ := AssignMembers(group, members, reason, true, changed);
    }
  }
}
