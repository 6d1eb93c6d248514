/** Disk-pressure admission: reservations against the newest capacity probe, with a
    stop floor, a lower floor for control work, and hysteresis. */
module DiskLedger {
  import opened Base

  datatype Observation = Observation(bytes: nat, inodes: nat, inodesKnown: bool)

  datatype Floors = Floors(safetyBytes: nat, stopBytes: nat, resumeBytes: nat,
                           safetyInodes: nat, stopInodes: nat, resumeInodes: nat)

  /** The floors a store accepts; a zero is replaced before they are compared. */
  predicate FloorsOk(f: Floors) {
    0 < f.safetyBytes < f.stopBytes < f.resumeBytes && 0 < f.safetyInodes < f.stopInodes < f.resumeInodes
  }

  datatype Kind = User | Control

  datatype Reservation = Reservation(bytes: nat, inodes: nat)

  datatype Ledger = Ledger(reservedBytes: nat, reservedInodes: nat, highBytes: nat, highInodes: nat,
                           observation: Option<Observation>, pressured: bool, probeFailed: bool,
                           nextProbe: nat, appliedProbe: nat)

  const NEW: Ledger := Ledger(0, 0, 0, 0, None, false, false, 0, 0)

  /** remainingDiskCapacity */
  function Left(available: nat, debit: nat): nat { if debit >= available then 0 else available - debit }

  function CurrentBytes(l: Ledger): nat
    requires l.observation.Some?
  {
    Left(l.observation.value.bytes, l.reservedBytes)
  }

  function CurrentInodes(l: Ledger): nat
    requires l.observation.Some?
  {
    Left(l.observation.value.inodes, l.reservedInodes)
  }

  /** Capacity is at the resume level. */
  predicate CanResume(f: Floors, l: Ledger) {
    && l.observation.Some?
    && CurrentBytes(l) >= f.resumeBytes && (l.observation.value.inodesKnown ==> CurrentInodes(l) >= f.resumeInodes)
  }

  /** Capacity is below the level at which user growth stops. */
  predicate BelowStop(f: Floors, l: Ledger) {
    && l.observation.Some?
    && (CurrentBytes(l) < f.stopBytes || (l.observation.value.inodesKnown && CurrentInodes(l) < f.stopInodes))
  }

  // -------------------------------------------------------------------- steps

  /** A probe's outcome arrives: kept unless a newer one was applied already. */
  function Observe(l: Ledger, probe: nat, found: Option<Observation>): Ledger {
    if probe < l.appliedProbe then l
    else if found.None? then l.(appliedProbe := probe, probeFailed := true, pressured := true)
    else l.(appliedProbe := probe, observation := found, probeFailed := false)
  }

  /** The pressure flag after looking at the current capacity. */
  function Assess(f: Floors, l: Ledger): Ledger {
    if CanResume(f, l) then l.(pressured := false)
    else if BelowStop(f, l) then l.(pressured := true)
    else l
  }

  predicate Enough(f: Floors, l: Ledger, kind: Kind, r: Reservation)
    requires l.observation.Some?
  {
    var bytes, inodes := Left(CurrentBytes(l), r.bytes), Left(CurrentInodes(l), r.inodes);
    var known := l.observation.value.inodesKnown;
    match kind
    case User => !l.pressured && bytes >= f.stopBytes && (known ==> inodes >= f.stopInodes)
    case Control => bytes >= f.safetyBytes && (known ==> inodes >= f.safetyInodes)
  }

  function Grant(l: Ledger, r: Reservation): Ledger {
    l.(reservedBytes := l.reservedBytes + r.bytes, reservedInodes := l.reservedInodes + r.inodes,
    highBytes := Max(l.highBytes, l.reservedBytes + r.bytes),
    highInodes := Max(l.highInodes, l.reservedInodes + r.inodes))
  }

  /** The second half of reserve, once the probe answered. */
  function Finish(f: Floors, l: Ledger, probe: nat, found: Option<Observation>, kind: Kind,
                  r: Reservation): (Ledger, bool) {
    var o := Observe(l, probe, found);
    if found.None? then (o, false)
    else if o.observation.None? then (o.(pressured := true), false)
    else
      var a := Assess(f, o);
      if !Enough(f, a, kind, r) || r.bytes > MAX_U64 - a.reservedBytes
          || r.inodes > MAX_U64 - a.reservedInodes then (a, false)
      else (Grant(a, r), true)
  }

  /** release subtracts with a clamp at zero. */
  function Released(l: Ledger, r: Reservation): Ledger {
    l.(reservedBytes := if r.bytes <= l.reservedBytes then l.reservedBytes - r.bytes else 0,
    reservedInodes := if r.inodes <= l.reservedInodes then l.reservedInodes - r.inodes else 0)
  }

  // ------------------------------------------------------------------- grants

  /** A grant leaves the observed capacity, less every reservation including its
      own, at or above the floor of its kind. */
  lemma GrantLeaves(f: Floors, l: Ledger, probe: nat, found: Option<Observation>, kind: Kind, r: Reservation)
    requires FloorsOk(f) && Finish(f, l, probe, found, kind, r).1
    ensures var n := Finish(f, l, probe, found, kind, r).0;
            && n.observation.Some?
            && n.reservedBytes == l.reservedBytes + r.bytes && n.reservedInodes == l.reservedInodes + r.inodes
            && (kind.User? ==> !n.pressured
                               && n.observation.value.bytes >= n.reservedBytes + f.stopBytes
                               && (n.observation.value.inodesKnown ==>
                                   n.observation.value.inodes >= n.reservedInodes + f.stopInodes))
            && (kind.Control? ==> n.observation.value.bytes >= n.reservedBytes + f.safetyBytes)
            && (kind.Control? && n.observation.value.inodesKnown ==>
                  n.observation.value.inodes >= n.reservedInodes + f.safetyInodes)
  {
  }

  /** The code's order of tests, stop first and then resume, gives the same flag:
      the two levels cannot hold at once. */
  lemma AssessOrder(f: Floors, l: Ledger)
    requires FloorsOk(f) && l.observation.Some?
    ensures !(BelowStop(f, l) && CanResume(f, l))
    ensures var stopped := if BelowStop(f, l) then true else l.pressured;
            Assess(f, l).pressured == if stopped && CanResume(f, l) then false else stopped
  {
  }

  // --------------------------------------------------------------- every run

  /** Probes run outside the lock, so they may finish in any order. */
  datatype World = World(l: Ledger, outstanding: seq<Reservation>, begun: set<nat>,
                         finished: map<nat, Option<Observation>>)

  datatype Op =
    | Begin
    | Answer(probe: nat, found: Option<Observation>, kind: Kind, r: Reservation)
    | Release(i: nat)

  function SumBytes(s: seq<Reservation>): nat {
    if s == [] then 0 else SumBytes(s[..|s| - 1]) + s[|s| - 1].bytes
  }

  function SumInodes(s: seq<Reservation>): nat {
    if s == [] then 0 else SumInodes(s[..|s| - 1]) + s[|s| - 1].inodes
  }

  function Without(s: seq<Reservation>, i: nat): seq<Reservation>
    requires i < |s|
  {
    s[..i] + s[i + 1..]
  }

  function Do(f: Floors, w: World, op: Op): World {
    match op
    case Begin => w.(l := w.l.(nextProbe := w.l.nextProbe + 1), begun := w.begun + {w.l.nextProbe + 1})
    case Answer(probe, found, kind, r) =>
      if probe !in w.begun then w
      else
        var (l, granted) := Finish(f, w.l, probe, found, kind, r);
        World(l, if granted then w.outstanding + [r] else w.outstanding, w.begun - {probe}, w.finished[probe := found])
    case Release(i) =>
      if i >= |w.outstanding| then w
      else w.(l := Released(w.l, w.outstanding[i]), outstanding := Without(w.outstanding, i))
  }

  /** The operation grants a user reservation. */
  predicate GrantsUser(f: Floors, w: World, op: Op) {
    op.Answer? && op.kind.User? && op.probe in w.begun && Finish(f, w.l, op.probe, op.found, op.kind, op.r).1
  }

  /** The operation sees capacity at the resume level. */
  predicate Resumes(f: Floors, w: World, op: Op) {
    op.Answer? && op.probe in w.begun && op.found.Some? && CanResume(f, Observe(w.l, op.probe, op.found))
  }

  function Run(f: Floors, w: World, ops: seq<Op>): World
    decreases ops
  {
    if ops == [] then w else Run(f, Do(f, w, ops[0]), ops[1..])
  }

  /** The flags and the observation come from the newest probe that has finished. */
  ghost predicate Newest(w: World) {
    && (forall p | p in w.finished :: p <= w.l.appliedProbe)
    && (if w.finished == map[] then w.l.appliedProbe == 0 && w.l.observation == None && !w.l.probeFailed
        else
          && w.l.appliedProbe in w.finished
          && (var found := w.finished[w.l.appliedProbe];
              if found.Some? then w.l.observation == found && !w.l.probeFailed else w.l.probeFailed))
  }

  ghost predicate Inv(w: World) {
    && w.l.reservedBytes == SumBytes(w.outstanding) && w.l.reservedInodes == SumInodes(w.outstanding)
    && w.l.reservedBytes <= w.l.highBytes && w.l.reservedInodes <= w.l.highInodes
    && (forall p | p in w.begun :: 0 < p <= w.l.nextProbe) && (forall p | p in w.finished :: 0 < p <= w.l.nextProbe)
    && (forall p | p in w.begun :: p !in w.finished)
    && Newest(w)
  }

  lemma {:induction false} SumsAppend(s: seq<Reservation>, r: Reservation)
    ensures SumBytes(s + [r]) == SumBytes(s) + r.bytes && SumInodes(s + [r]) == SumInodes(s) + r.inodes
  {
    assert (s + [r])[..|s|] == s;
  }

  lemma {:induction false} SumsWithout(s: seq<Reservation>, i: nat)
    requires i < |s|
    ensures SumBytes(s) == SumBytes(Without(s, i)) + s[i].bytes
            && SumInodes(s) == SumInodes(Without(s, i)) + s[i].inodes
    decreases s
  {
    var n := |s| - 1;
    if i == n {
      assert Without(s, i) == s[..n];
    } else {
      SumsWithout(s[..n], i);
      assert Without(s, i) == Without(s[..n], i) + [s[n]];
      SumsAppend(Without(s[..n], i), s[n]);
    }
  }

  lemma FinishParts(f: Floors, l: Ledger, probe: nat, found: Option<Observation>, kind: Kind, r: Reservation)
    ensures var (n, granted) := Finish(f, l, probe, found, kind, r);
            && n.nextProbe == l.nextProbe && n.appliedProbe ==
               (if probe < l.appliedProbe then l.appliedProbe else probe)
            && n.observation == Observe(l, probe, found).observation
               && n.probeFailed == Observe(l, probe, found).probeFailed
            && (granted ==>
                n.reservedBytes == l.reservedBytes + r.bytes && n.reservedInodes == l.reservedInodes + r.inodes
                            && n.highBytes >= n.reservedBytes && n.highInodes >= n.reservedInodes)
            && (!granted ==> n.reservedBytes == l.reservedBytes && n.reservedInodes == l.reservedInodes
                             && n.highBytes == l.highBytes && n.highInodes == l.highInodes)
            && (found.None? && probe >= l.appliedProbe ==> n.pressured)
  {
  }

  lemma {:induction false} StepKeeps(f: Floors, w: World, op: Op)
    requires Inv(w)
    ensures Inv(Do(f, w, op))
  {
    hide Finish, SumBytes, SumInodes;
    match op
    case Begin =>
    case Answer(probe, found, kind, r) =>
      if probe in w.begun {
        FinishParts(f, w.l, probe, found, kind, r);
        SumsAppend(w.outstanding, r);
      }
    case Release(i) =>
      if i < |w.outstanding| { SumsWithout(w.outstanding, i); }
  }

  /** In every run, with probes finishing in any order: the reserved totals are the
      outstanding reservations, and the flags and the observation are those of the
      newest finished probe, so an older one never overwrites them. */
  lemma {:induction false} RunKeeps(f: Floors, w: World, ops: seq<Op>)
    requires Inv(w)
    ensures Inv(Run(f, w, ops))
    decreases ops
  {
    hide Inv, Do;
    if ops != [] {
      StepKeeps(f, w, ops[0]);
      RunKeeps(f, Do(f, w, ops[0]), ops[1..]);
    }
  }

  // --------------------------------------------------------------- hysteresis

  lemma KeepsPressure(f: Floors, l: Ledger, probe: nat, found: Option<Observation>, kind: Kind, r: Reservation)
    requires l.pressured && !(found.Some? && CanResume(f, Observe(l, probe, found)))
    ensures Finish(f, l, probe, found, kind, r).0.pressured && (kind.User? ==> !Finish(f, l, probe, found, kind, r).1)
  {
  }

  /** No operation of the run sees capacity at the resume level. */
  predicate NeverResumes(f: Floors, w: World, ops: seq<Op>)
    decreases ops
  {
    ops == [] || (!Resumes(f, w, ops[0]) && NeverResumes(f, Do(f, w, ops[0]), ops[1..]))
  }

  predicate NoUserGrant(f: Floors, w: World, ops: seq<Op>)
    decreases ops
  {
    ops == [] || (!GrantsUser(f, w, ops[0]) && NoUserGrant(f, Do(f, w, ops[0]), ops[1..]))
  }

  /** From the moment it is pressured the ledger grants no user growth until it sees
      capacity at the resume level, however much falls free in between. */
  lemma {:induction false} Hysteresis(f: Floors, w: World, ops: seq<Op>)
    requires w.l.pressured && NeverResumes(f, w, ops)
    ensures NoUserGrant(f, w, ops) && Run(f, w, ops).l.pressured
    decreases ops
  {
    hide Finish, CanResume;
    if ops != [] {
      var op := ops[0];
      if op.Answer? && op.probe in w.begun { KeepsPressure(f, w.l, op.probe, op.found, op.kind, op.r); }
      Hysteresis(f, Do(f, w, op), ops[1..]);
    }
  }

  // -------------------------------------------------------------- stale grants

  /** The decision rested on the newest finished probe. */
  ghost predicate UpToDate(w: World) {
    w.l.appliedProbe in w.finished && w.finished[w.l.appliedProbe].Some?
  }

  /** A user grant rests on the newest finished probe unless that probe failed and
      an older one answered after it: then, and only then, the ledger decides on
      the capacity recorded before. */
  lemma {:induction false} GrantUpToDate(f: Floors, w: World, op: Op)
    requires Inv(w) && GrantsUser(f, w, op)
    ensures UpToDate(Do(f, w, op)) <==> !(op.probe < w.l.appliedProbe && w.l.probeFailed)
  {
    hide SumBytes, SumInodes, Finish;
    FinishParts(f, w.l, op.probe, op.found, op.kind, op.r);
    GrantAnswered(f, w.l, op.probe, op.found, op.kind, op.r);
  }

  lemma GrantAnswered(f: Floors, l: Ledger, probe: nat, found: Option<Observation>, kind: Kind, r: Reservation)
    requires Finish(f, l, probe, found, kind, r).1
    ensures found.Some? && Observe(l, probe, found).observation.Some?
  {
  }

  const START: World := World(NEW, [], {}, map[])

  lemma StartInv()
    ensures Inv(START)
  {
  }

  const FLOORS: Floors := Floors(1, 2, 3, 1, 2, 3)
  const ROOM: Observation := Observation(100, 0, false)
  const SEES_ROOM: Op := Answer(1, Some(ROOM), Control, Reservation(0, 0))
  const FAILS: Op := Answer(3, None, Control, Reservation(0, 0))

  /** Three probes have begun; the first saw room; the third failed. */
  const BEGUN: World := World(Ledger(0, 0, 0, 0, None, false, false, 3, 0), [], {1, 2, 3}, map[])
  const SEEN: World :=
    World(Ledger(0, 0, 0, 0, Some(ROOM), false, false, 3, 1), [Reservation(0, 0)], {2, 3}, map[1 := Some(ROOM)])

  lemma StaleBegun()
    ensures Do(FLOORS, Do(FLOORS, Do(FLOORS, START, Begin), Begin), Begin) == BEGUN
  {
    assert {} + {1} + {2} + {3} == {1, 2, 3};
  }

  lemma StaleSeen()
    ensures Do(FLOORS, BEGUN, SEES_ROOM) == SEEN
  {
    assert {1, 2, 3} - {1} == {2, 3} && [] + [Reservation(0, 0)] == [Reservation(0, 0)];
  }

  /** Such a grant happens: probe 1 sees room, probe 3 fails, and then probe 2, which
      saw a full disk, answers late and its request is granted. */
  lemma StaleGrantExample()
    ensures var w := Run(FLOORS, START, [Begin, Begin, Begin, SEES_ROOM, FAILS]);
            && w.l.pressured && w.l.probeFailed
            && GrantsUser(FLOORS, w, Answer(2, Some(Observation(0, 0, false)), User, Reservation(1, 0)))
  {
    hide Run;
    StalePlayed(FLOORS, [Begin, Begin, Begin, SEES_ROOM, FAILS]);
    assert SEEN.begun - {3} == {2};
  }

  lemma {:induction false} StalePlayed(f: Floors, ops: seq<Op>)
    requires f == FLOORS && ops == [Begin, Begin, Begin, SEES_ROOM, FAILS]
    ensures Run(f, START, ops) == Do(f, SEEN, FAILS)
  {
    hide Do;
    StaleBegun();
    StaleSeen();
    assert ops[1..] == [Begin, Begin, SEES_ROOM, FAILS] && ops[1..][1..] == [Begin, SEES_ROOM, FAILS];
    assert [Begin, SEES_ROOM, FAILS][1..] == [SEES_ROOM, FAILS] && [SEES_ROOM, FAILS][1..] == [FAILS]
           && [FAILS][1..] == [];
    RunOne(f, START, ops);
    RunOne(f, Do(f, START, Begin), ops[1..]);
    RunOne(f, Do(f, Do(f, START, Begin), Begin), ops[1..][1..]);
    RunOne(f, BEGUN, [SEES_ROOM, FAILS]);
    RunOne(f, SEEN, [FAILS]);
  }

  lemma {:induction false} RunOne(f: Floors, w: World, ops: seq<Op>)
    requires ops != []
    ensures Run(f, w, ops) == Run(f, Do(f, w, ops[0]), ops[1..])
  {
  }

  lemma AssessSame(f: Floors, l: Ledger)
    ensures Assess(f, l).observation == l.observation
  {
  }

  // ------------------------------------------------------------------- object

  /** The ledger as an object. `reserve` gives up the lock while it probes, so it is
      two methods here. */
  class DiskPressure {
    const floors: Floors

    var reservedBytes: nat
    var reservedInodes: nat
    var highBytes: nat
    var highInodes: nat
    var observation: Option<Observation>
    var pressured: bool
    var probeFailed: bool
    var nextProbe: nat
    var appliedProbe: nat

    function View(): Ledger
      reads this
    {
      Ledger(reservedBytes, reservedInodes, highBytes, highInodes, observation, pressured, probeFailed, nextProbe,
             appliedProbe)
    }

    constructor (floors: Floors)
      requires FloorsOk(floors)
      ensures View() == NEW && this.floors == floors
    {
      this.floors := floors;
      reservedBytes, reservedInodes, highBytes, highInodes := 0, 0, 0, 0;
      observation, pressured, probeFailed, nextProbe, appliedProbe := None, false, false, 0, 0;
    }

    method BeginReserve() returns (probe: nat)
      modifies this
      ensures View() == old(View()).(nextProbe := old(nextProbe) + 1) && probe == nextProbe
    {
      nextProbe := nextProbe + 1;
      probe := nextProbe;
    }

    /** The answer of a probe, unless a newer one was applied. */
    method Apply(probe: nat, found: Option<Observation>)
      modifies this
      ensures View() == Observe(old(View()), probe, found)
    {
      if probe < appliedProbe { return; }
      appliedProbe := probe;
      if found.None? {
        probeFailed, pressured := true, true;
      } else {
        observation, probeFailed := found, false;
      }
    }

    /** Stop below the stop floor, resume at the resume floor. */
    method Reassess()
      requires FloorsOk(floors) && observation.Some?
      modifies this
      ensures View() == Assess(floors, old(View()))
    {
      hide Left;
      var o := observation.value;
      var currentBytes, currentInodes := Left(o.bytes, reservedBytes), Left(o.inodes, reservedInodes);
      if o.inodesKnown && (currentInodes < floors.stopInodes || currentBytes < floors.stopBytes) {
        pressured := true;
      } else if !o.inodesKnown && currentBytes < floors.stopBytes {
        pressured := true;
      }
      if pressured && currentBytes >= floors.resumeBytes && (!o.inodesKnown || currentInodes >= floors.resumeInodes) {
        pressured := false;
      }
    }

    method FinishReserve(probe: nat, found: Option<Observation>, kind: Kind, r: Reservation) returns (granted: bool)
      requires FloorsOk(floors)
      modifies this
      ensures (View(), granted) == Finish(floors, old(View()), probe, found, kind, r)
    {
      hide Left, Assess, Observe;
      Apply(probe, found);
      if found.None? { return false; }
      if observation.None? {
        pressured := true;
        return false;
      }
      Reassess();
      assert observation.Some? by { AssessSame(floors, Observe(old(View()), probe, found)); }
      var o := observation.value;
      var afterBytes := Left(Left(o.bytes, reservedBytes), r.bytes);
      var afterInodes := Left(Left(o.inodes, reservedInodes), r.inodes);
      if kind.User? {
        if pressured || afterBytes < floors.stopBytes
            || (o.inodesKnown && afterInodes < floors.stopInodes) { return false; }
      } else if afterBytes < floors.safetyBytes || (o.inodesKnown && afterInodes < floors.safetyInodes) {
        return false;
      }
      if r.bytes > MAX_U64 - reservedBytes || r.inodes > MAX_U64 - reservedInodes { return false; }
      reservedBytes, reservedInodes := reservedBytes + r.bytes, reservedInodes + r.inodes;
      if reservedBytes > highBytes { highBytes := reservedBytes; }
      if reservedInodes > highInodes { highInodes := reservedInodes; }
      granted := true;
    }

    method Release(r: Reservation)
      modifies this
      ensures View() == Released(old(View()), r)
    {
      if r.bytes <= reservedBytes { reservedBytes := reservedBytes - r.bytes; } else { reservedBytes := 0; }
      if r.inodes <= reservedInodes { reservedInodes := reservedInodes - r.inodes; } else { reservedInodes := 0; }
    }
  }
}
