/** The bytes of offsets events: envelope, cursor reads and event bodies. */
module OffsetsCodec {
  import opened Base
  import opened Wire
  import opened Offsets

  const MAX_GROUP_ID_BYTES: int := 255
  const ENVELOPE_BYTES: int := 16
  const MAX_U32: int := 0xFFFF_FFFF

  /** "IELE" */
  const EVENT_MAGIC: Bytes := [0x49, 0x45, 0x4C, 0x45]

  /** What a cursor read leaves: the value and the rest. */
  type Cut<+T> = Option<(T, Bytes)>

  // --------------------------------------------------------------- primitives

  function Take(b: Bytes, n: nat): Cut<Bytes> { if n > |b| then None else Some((b[..n], b[n..])) }

  function TakeU8(b: Bytes): Cut<u8> { match Take(b, 1) case None => None case Some((v, r)) => Some((v[0], r)) }

  function TakeU32(b: Bytes): Cut<u32> { match Take(b, 4) case None => None case Some((v, r)) => Some((U32(v), r)) }

  function TakeU64(b: Bytes): Cut<u64> { match Take(b, 8) case None => None case Some((v, r)) => Some((U64(v), r)) }

  function TakeId(b: Bytes): Cut<Id> { match Take(b, 16) case None => None case Some((v, r)) => Some((IdOf(v), r)) }

  predicate ValidText(utf8: Bytes -> bool, s: Bytes) {
    0 < |s| <= MAX_GROUP_ID_BYTES && (forall i | 0 <= i < |s| :: s[i] != 0) && utf8(s)
  }

  function Text(s: Bytes): Bytes { Le(|s|, 4) + s }

  function TakeText(utf8: Bytes -> bool, b: Bytes): Cut<Bytes> {
    match TakeU32(b)
    case None => None
    case Some((n, r)) =>
      if n == 0 || n > MAX_GROUP_ID_BYTES then None
      else match Take(r, n)
        case None => None
        case Some((s, rest)) => if ValidText(utf8, s) then Some((s, rest)) else None
  }

  /** A byte and three reserved zero bytes. */
  function Flag(v: u8): Bytes { [v, 0, 0, 0] }

  function TakeFlag(b: Bytes): Cut<u8> {
    match TakeU8(b)
    case None => None
    case Some((v, r)) =>
      match Take(r, 3)
      case None => None
      case Some((z, rest)) => if z == [0, 0, 0] then Some((v, rest)) else None
  }

  lemma TakeOf(s: Bytes, rest: Bytes)
    ensures Take(s + rest, |s|) == Some((s, rest))
  {
    assert (s + rest)[..|s|] == s && (s + rest)[|s|..] == rest;
  }

  lemma NumbersOf(v: u32, w: u64, id: Id, f: u8, rest: Bytes)
    ensures TakeU32(Le32(v) + rest) == Some((v, rest)) && TakeU64(Le64(w) + rest) == Some((w, rest))
    ensures TakeId(IdBytes(id) + rest) == Some((id, rest)) && TakeFlag(Flag(f) + rest) == Some((f, rest))
  {
    hide Take, Le, Un, Be, UnBe;
    TakeOf(Le32(v), rest);
    TakeOf(Le64(w), rest);
    TakeOf(IdBytes(id), rest);
    Exact32(v, Le32(0));
    Exact64(w, Le64(0));
    ExactId(id, IdBytes(0));
    FlagOf(f, rest);
  }

  lemma FlagOf(f: u8, rest: Bytes)
    ensures TakeFlag(Flag(f) + rest) == Some((f, rest))
  {
    assert Flag(f) + rest == [f] + ([0, 0, 0] + rest);
    TakeOf([f], [0, 0, 0] + rest);
    TakeOf([0, 0, 0], rest);
  }

  lemma TextOf(utf8: Bytes -> bool, s: Bytes, rest: Bytes)
    requires ValidText(utf8, s)
    ensures TakeText(utf8, Text(s) + rest) == Some((s, rest))
  {
    hide Take, TakeU32, Le;
    assert Text(s) + rest == Le32(|s|) + (s + rest);
    NumbersOf(|s|, 0, 0, 0, s + rest);
    TakeOf(s, rest);
  }

  lemma NumbersTaken(b: Bytes)
    ensures TakeU32(b).Some? ==> b == Le32(TakeU32(b).value.0) + TakeU32(b).value.1
    ensures TakeU64(b).Some? ==> b == Le64(TakeU64(b).value.0) + TakeU64(b).value.1
    ensures TakeId(b).Some? ==> b == IdBytes(TakeId(b).value.0) + TakeId(b).value.1
    ensures TakeFlag(b).Some? ==> b == Flag(TakeFlag(b).value.0) + TakeFlag(b).value.1
  {
    hide Le, Un, Be, UnBe;
    if |b| >= 4 { Exact32(0, b[..4]); }
    if |b| >= 8 { Exact64(0, b[..8]); }
    if |b| >= 16 { ExactId(0, b[..16]); }
    FlagTaken(b);
  }

  lemma FlagTaken(b: Bytes)
    ensures TakeFlag(b).Some? ==> b == Flag(TakeFlag(b).value.0) + TakeFlag(b).value.1
  {
    if TakeFlag(b).Some? {
      assert b == [b[0]] + b[1..] && b[1..] == b[1..][..3] + b[1..][3..];
    }
  }

  lemma TextTaken(utf8: Bytes -> bool, b: Bytes)
    requires TakeText(utf8, b).Some?
    ensures var (s, rest) := TakeText(utf8, b).value; ValidText(utf8, s) && b == Text(s) + rest
  {
    hide Le, Un;
    NumbersTaken(b);
    var (n, r) := TakeU32(b).value;
    assert r == r[..n] + r[n..];
  }

  // -------------------------------------------------------------------- lists

  function Many<T>(xs: seq<T>, put: T -> Bytes): Bytes {
    if xs == [] then [] else put(xs[0]) + Many(xs[1..], put)
  }

  function TakeMany<T>(b: Bytes, count: nat, take: Bytes -> Cut<T>, acc: seq<T>): Cut<seq<T>>
    decreases count
  {
    if count == 0 then Some((acc, b))
    else match take(b) case None => None case Some((x, r)) => TakeMany(r, count - 1, take, acc + [x])
  }

  /** `take` reads back what `put` wrote. */
  ghost predicate Reads<T>(xs: seq<T>, put: T -> Bytes, take: Bytes -> Cut<T>) {
    forall i, rest: Bytes | 0 <= i < |xs| :: take(put(xs[i]) + rest) == Some((xs[i], rest))
  }

  /** Whatever `take` accepts is what `put` would write. */
  ghost predicate Writes<T(!new)>(ok: T -> bool, put: T -> Bytes, take: Bytes -> Cut<T>) {
    forall b: Bytes | take(b).Some? :: ok(take(b).value.0) && b == put(take(b).value.0) + take(b).value.1
  }

  lemma {:induction false} ManyOf<T>(xs: seq<T>, put: T -> Bytes, take: Bytes -> Cut<T>, acc: seq<T>, rest: Bytes)
    requires Reads(xs, put, take)
    ensures TakeMany(Many(xs, put) + rest, |xs|, take, acc) == Some((acc + xs, rest))
    decreases xs
  {
    if xs == [] {
      assert [] + rest == rest && acc + xs == acc;
    } else {
      var tail := Many(xs[1..], put) + rest;
      assert Many(xs, put) + rest == put(xs[0]) + tail;
      assert take(put(xs[0]) + tail) == Some((xs[0], tail));
      assert Reads(xs[1..], put, take) by {
        forall i, r: Bytes | 0 <= i < |xs[1..]| ensures take(put(xs[1..][i]) + r) == Some((xs[1..][i], r)) {
          assert xs[1..][i] == xs[i + 1];
        }
      }
      ManyOf(xs[1..], put, take, acc + [xs[0]], rest);
      assert acc + [xs[0]] + xs[1..] == acc + xs;
    }
  }

  lemma {:induction false} ManyTaken<T(!new)>(b: Bytes, count: nat, ok: T -> bool, put: T -> Bytes,
                                              take: Bytes -> Cut<T>, acc: seq<T>)
    requires Writes(ok, put, take) && TakeMany(b, count, take, acc).Some?
    ensures var (xs, rest) := TakeMany(b, count, take, acc).value;
            && |xs| == |acc| + count && xs[..|acc|] == acc
            && (forall i | |acc| <= i < |xs| :: ok(xs[i]))
            && b == Many(xs[|acc|..], put) + rest
    decreases count
  {
    if count == 0 {
      assert b == [] + b;
    } else {
      var (x, r) := take(b).value;
      ManyTaken(r, count - 1, ok, put, take, acc + [x]);
      var (xs, rest) := TakeMany(b, count, take, acc).value;
      assert xs[..|acc| + 1][|acc|] == x && xs[..|acc|] == xs[..|acc| + 1][..|acc|];
      assert xs[|acc|..][0] == x && xs[|acc|..][1..] == xs[|acc| + 1..];
      assert b == put(x) + (Many(xs[|acc| + 1..], put) + rest);
    }
  }

  // ----------------------------------------------------------------- elements

  function PutKey(k: TopicKey): Bytes { IdBytes(k.topic) + Le32(k.partition) }

  function TakeKey(b: Bytes): Cut<TopicKey> {
    match TakeId(b)
    case None => None
    case Some((topic, r)) => match TakeU32(r) case None => None case Some((p, rest)) => Some((TopicKey(topic, p), rest))
  }

  function PutStart(s: Start): Bytes { PutKey(s.key) + Le64(s.next) }

  function TakeStart(b: Bytes): Cut<Start> {
    match TakeKey(b)
    case None => None
    case Some((key, r)) => match TakeU64(r) case None => None case Some((next, rest)) => Some((Start(key, next), rest))
  }

  /** Lengths are written as 32 bits. */
  predicate Short<T>(xs: seq<T>) { |xs| <= MAX_U32 }

  function PutMember(m: Member): Bytes { IdBytes(m.session) + Le(|m.subscriptions|, 4) + Many(m.subscriptions, PutKey) }

  predicate MemberShort(m: Member) { Short(m.subscriptions) }

  function TakeMember(b: Bytes): Cut<Member> {
    match TakeId(b)
    case None => None
    case Some((session, r)) =>
      match TakeU32(r)
      case None => None
      case Some((count, r2)) =>
        match TakeMany(r2, count, TakeKey, [])
        case None => None
        case Some((subs, rest)) => Some((Member(session, subs), rest))
  }

  function PutPlacement(a: Placement): Bytes {
    PutKey(a.key) + IdBytes(a.owner) + Le64(a.resume) + Flag(a.action) + Le64(a.initial)
  }

  function TakePlacement(b: Bytes): Cut<Placement> {
    match TakeKey(b)
    case None => None
    case Some((key, r1)) =>
      match TakeId(r1)
      case None => None
      case Some((owner, r2)) =>
        match TakeU64(r2)
        case None => None
        case Some((resume, r3)) =>
          match TakeFlag(r3)
          case None => None
          case Some((action, r4)) =>
            match TakeU64(r4)
            case None => None
            case Some((initial, rest)) => Some((Placement(key, owner, resume, action, initial), rest))
  }

  lemma KeyOf(k: TopicKey, rest: Bytes)
    ensures TakeKey(PutKey(k) + rest) == Some((k, rest))
  {
    hide TakeId, TakeU32;
    assert PutKey(k) + rest == IdBytes(k.topic) + (Le32(k.partition) + rest);
    NumbersOf(0, 0, k.topic, 0, Le32(k.partition) + rest);
    NumbersOf(k.partition, 0, 0, 0, rest);
  }

  lemma StartOf(s: Start, rest: Bytes)
    ensures TakeStart(PutStart(s) + rest) == Some((s, rest))
  {
    hide TakeKey, TakeU64, PutKey;
    assert PutStart(s) + rest == PutKey(s.key) + (Le64(s.next) + rest);
    KeyOf(s.key, Le64(s.next) + rest);
    NumbersOf(0, s.next, 0, 0, rest);
  }

  lemma {:induction false} MemberOf(m: Member, rest: Bytes)
    requires MemberShort(m)
    ensures TakeMember(PutMember(m) + rest) == Some((m, rest))
  {
    hide TakeId, TakeU32, TakeMany, Many, TakeKey, PutKey;
    var n: u32 := |m.subscriptions|;
    var keys := Many(m.subscriptions, PutKey) + rest;
    assert PutMember(m) + rest == IdBytes(m.session) + (Le32(n) + keys);
    NumbersOf(0, 0, m.session, 0, Le32(n) + keys);
    NumbersOf(n, 0, 0, 0, keys);
    forall i, r: Bytes | 0 <= i < |m.subscriptions| ensures TakeKey(PutKey(m.subscriptions[i]) + r) ==
        Some((m.subscriptions[i], r)) {
      KeyOf(m.subscriptions[i], r);
    }
    ManyOf(m.subscriptions, PutKey, TakeKey, [], rest);
    assert [] + m.subscriptions == m.subscriptions;
  }

  lemma PlacementOf(a: Placement, rest: Bytes)
    ensures TakePlacement(PutPlacement(a) + rest) == Some((a, rest))
  {
    hide TakeId, TakeU64, TakeKey, TakeFlag, PutKey, Flag;
    var r4 := Le64(a.initial) + rest;
    var r3 := Flag(a.action) + r4;
    var r2 := Le64(a.resume) + r3;
    var r1 := IdBytes(a.owner) + r2;
    assert PutPlacement(a) + rest == PutKey(a.key) + r1;
    KeyOf(a.key, r1);
    NumbersOf(0, 0, a.owner, 0, r2);
    NumbersOf(0, a.resume, 0, 0, r3);
    NumbersOf(0, 0, 0, a.action, r4);
    NumbersOf(0, a.initial, 0, 0, rest);
  }

  lemma KeyTaken(b: Bytes)
    requires TakeKey(b).Some?
    ensures b == PutKey(TakeKey(b).value.0) + TakeKey(b).value.1
  {
    hide TakeId, TakeU32;
    NumbersTaken(b);
    NumbersTaken(TakeId(b).value.1);
  }

  lemma StartTaken(b: Bytes)
    requires TakeStart(b).Some?
    ensures b == PutStart(TakeStart(b).value.0) + TakeStart(b).value.1
  {
    hide TakeKey, TakeU64, PutKey;
    KeyTaken(b);
    NumbersTaken(TakeKey(b).value.1);
  }

  predicate Any<T>(x: T) { true }

  lemma {:induction false} MemberTaken(b: Bytes)
    requires TakeMember(b).Some?
    ensures MemberShort(TakeMember(b).value.0) && b == PutMember(TakeMember(b).value.0) + TakeMember(b).value.1
  {
    hide TakeId, TakeU32, TakeMany, Many, TakeKey, PutKey;
    NumbersTaken(b);
    var (session, r) := TakeId(b).value;
    NumbersTaken(r);
    var (count, r2) := TakeU32(r).value;
    forall c: Bytes | TakeKey(c).Some?
      ensures Any(TakeKey(c).value.0) && c == PutKey(TakeKey(c).value.0) + TakeKey(c).value.1
    {
      KeyTaken(c);
    }
    ManyTaken(r2, count, Any<TopicKey>, PutKey, TakeKey, []);
    var (subs, rest) := TakeMany(r2, count, TakeKey, []).value;
    assert subs[0..] == subs;
    assert b == IdBytes(session) + (Le32(count) + (Many(subs, PutKey) + rest));
  }

  lemma PlacementTaken(b: Bytes)
    requires TakePlacement(b).Some?
    ensures b == PutPlacement(TakePlacement(b).value.0) + TakePlacement(b).value.1
  {
    hide TakeId, TakeU64, TakeKey, TakeFlag, PutKey, Flag, IdBytes, Le;
    KeyTaken(b);
    var (key, r1) := TakeKey(b).value;
    NumbersTaken(r1);
    var (owner, r2) := TakeId(r1).value;
    NumbersTaken(r2);
    var (resume, r3) := TakeU64(r2).value;
    NumbersTaken(r3);
    var (action, r4) := TakeFlag(r3).value;
    NumbersTaken(r4);
    var (initial, rest) := TakeU64(r4).value;
    Nested(PutKey(key), IdBytes(owner), Le64(resume), Flag(action), Le64(initial), rest);
  }

  lemma Nested(a: Bytes, b: Bytes, c: Bytes, d: Bytes, e: Bytes, rest: Bytes)
    ensures a + b + c + d + e + rest == a + (b + (c + (d + (e + rest))))
  {
  }

  // ------------------------------------------------------------------- bodies

  /** Fields an encoder can be given: a legal group name and countable lists. */
  predicate Writable(utf8: Bytes -> bool, e: Event) {
    && ValidText(utf8, e.group)
    && match e
       case GroupCreated(_, _, _, _, starts) => Short(starts)
       case AssignmentChanged(_, _, _, _, _, _, _, members, placed) =>
         Short(members) && Short(placed) && forall i | 0 <= i < |members| :: MemberShort(members[i])
       case OffsetCommitted(_, _, _, _, _, _, _, _, _, _) => true
  }

  function Kind(e: Event): int { match e case GroupCreated(_, _, _, _, _) =>
                                3 case AssignmentChanged(_, _, _, _, _, _, _, _, _) => 4 case _ => 5 }

  /** What follows the store, the catalog revision and the group. */
  function Details(e: Event): Bytes {
    match e
    case GroupCreated(_, _, _, mode, starts) => Flag(mode) + (Le(|starts|, 4) + Many(starts, PutStart))
    case AssignmentChanged(_, _, _, instance, expected, generation, reason, members, placed) =>
      IdBytes(instance) + (Le64(expected) + (Le64(generation) + (Flag(reason)
      + (Le(|members|, 4) + (Many(members, PutMember) + (Le(|placed|, 4) + Many(placed, PutPlacement)))))))
    case OffsetCommitted(_, _, _, instance, session, generation, key, kind, previous, next) =>
      IdBytes(instance) + (IdBytes(session) + (Le64(generation)
                                               + (PutKey(key) + (Flag(kind) + (Le64(previous) + Le64(next))))))
  }

  function EncodeBody(utf8: Bytes -> bool, e: Event): Option<Bytes> {
    if !Writable(utf8, e) then None
    else Some(IdBytes(e.store) + (Le64(e.catalogNext) + (Text(e.group) + Details(e))))
  }

  function TakeCreated(store: Id, next: u64, group: GroupId, b: Bytes): Option<Event> {
    match TakeFlag(b)
    case None => None
    case Some((mode, r1)) =>
      match TakeU32(r1)
      case None => None
      case Some((count, r2)) =>
        match TakeMany(r2, count, TakeStart, [])
        case None => None
        case Some((starts, rest)) => if rest != [] then None else Some(GroupCreated(store, next, group, mode, starts))
  }

  function TakeLists(b: Bytes): Option<(seq<Member>, seq<Placement>)> {
    match TakeU32(b)
    case None => None
    case Some((count, r1)) =>
      match TakeMany(r1, count, TakeMember, [])
      case None => None
      case Some((members, r2)) =>
        match TakeU32(r2)
        case None => None
        case Some((placedCount, r3)) =>
          match TakeMany(r3, placedCount, TakePlacement, [])
          case None => None
          case Some((placed, rest)) => if rest != [] then None else Some((members, placed))
  }

  function TakeAssignment(store: Id, next: u64, group: GroupId, b: Bytes): Option<Event> {
    match TakeId(b)
    case None => None
    case Some((instance, r1)) =>
      match TakeU64(r1)
      case None => None
      case Some((expected, r2)) =>
        match TakeU64(r2)
        case None => None
        case Some((generation, r3)) =>
          match TakeFlag(r3)
          case None => None
          case Some((reason, r4)) =>
            match TakeLists(r4)
            case None => None
            case Some((members, placed)) =>
              Some(AssignmentChanged(store, next, group, instance, expected, generation, reason, members, placed))
  }

  function TakePositions(b: Bytes): Option<(TopicKey, u8, u64, u64)> {
    match TakeKey(b)
    case None => None
    case Some((key, r1)) =>
      match TakeFlag(r1)
      case None => None
      case Some((kind, r2)) =>
        match TakeU64(r2)
        case None => None
        case Some((previous, r3)) =>
          match TakeU64(r3)
          case None => None
          case Some((next, rest)) => if rest != [] then None else Some((key, kind, previous, next))
  }

  function TakeCommit(store: Id, catalogNext: u64, group: GroupId, b: Bytes): Option<Event> {
    match TakeId(b)
    case None => None
    case Some((instance, r1)) =>
      match TakeId(r1)
      case None => None
      case Some((session, r2)) =>
        match TakeU64(r2)
        case None => None
        case Some((generation, r3)) =>
          match TakePositions(r3)
          case None => None
          case Some((key, kind, previous, next)) =>
            Some(OffsetCommitted(store, catalogNext, group, instance, session, generation, key, kind, previous, next))
  }

  function TakeDetails(kind: int, store: Id, next: u64, group: GroupId, b: Bytes): Option<Event> {
    if kind == 3 then TakeCreated(store, next, group, b)
    else if kind == 4 then TakeAssignment(store, next, group, b)
    else if kind == 5 then TakeCommit(store, next, group, b)
    else None
  }

  /** The cursor reads of the three apply methods, without their checks of state. */
  function DecodeBody(utf8: Bytes -> bool, kind: int, b: Bytes): Option<Event> {
    match TakeId(b)
    case None => None
    case Some((store, r1)) =>
      match TakeU64(r1)
      case None => None
      case Some((next, r2)) =>
        match TakeText(utf8, r2)
        case None => None
        case Some((group, r3)) => TakeDetails(kind, store, next, group, r3)
  }

  lemma {:induction false} CreatedOf(e: Event, utf8: Bytes -> bool)
    requires e.GroupCreated? && Writable(utf8, e)
    ensures TakeCreated(e.store, e.catalogNext, e.group, Details(e)) == Some(e)
  {
    hide TakeFlag, TakeU32, TakeMany, Many, Flag, TakeStart, PutStart;
    var n: u32 := |e.starts|;
    var body := Many(e.starts, PutStart);
    assert body == body + [];
    NumbersOf(0, 0, 0, e.startMode, Le32(n) + body);
    NumbersOf(n, 0, 0, 0, body);
    forall i, r: Bytes | 0 <= i < |e.starts|
      ensures TakeStart(PutStart(e.starts[i]) + r) == Some((e.starts[i], r))
    {
      StartOf(e.starts[i], r);
    }
    ManyOf(e.starts, PutStart, TakeStart, [], []);
    assert [] + e.starts == e.starts;
  }

  lemma {:induction false} ListsOf(members: seq<Member>, placed: seq<Placement>)
    requires Short(members) && Short(placed) && forall i | 0 <= i < |members| :: MemberShort(members[i])
    ensures TakeLists(Le(|members|, 4) + (Many(members, PutMember) + (Le(|placed|, 4) + Many(placed, PutPlacement)))) ==
            Some((members, placed))
  {
    hide TakeU32, TakeMany, Many, TakeMember, PutMember, TakePlacement, PutPlacement, MemberShort;
    var n: u32, m: u32 := |members|, |placed|;
    var tail := Many(placed, PutPlacement);
    assert tail == tail + [];
    var r2 := Le32(m) + tail;
    NumbersOf(n, 0, 0, 0, Many(members, PutMember) + r2);
    forall i, r: Bytes | 0 <= i < |members|
      ensures TakeMember(PutMember(members[i]) + r) == Some((members[i], r))
    {
      MemberOf(members[i], r);
    }
    ManyOf(members, PutMember, TakeMember, [], r2);
    NumbersOf(m, 0, 0, 0, tail);
    forall i, r: Bytes | 0 <= i < |placed|
      ensures TakePlacement(PutPlacement(placed[i]) + r) == Some((placed[i], r))
    {
      PlacementOf(placed[i], r);
    }
    ManyOf(placed, PutPlacement, TakePlacement, [], []);
    assert [] + members == members && [] + placed == placed;
  }

  lemma AssignmentOf(e: Event, utf8: Bytes -> bool)
    requires e.AssignmentChanged? && Writable(utf8, e)
    ensures TakeAssignment(e.store, e.catalogNext, e.group, Details(e)) == Some(e)
  {
    hide TakeId, TakeU64, TakeFlag, TakeLists, Flag, Many, MemberShort;
    var lists := Le(|e.members|, 4) + (Many(e.members, PutMember) + (Le(|e.placed|, 4) + Many(e.placed, PutPlacement)));
    var r3 := Flag(e.reason) + lists;
    var r2 := Le64(e.generation) + r3;
    var r1 := Le64(e.expected) + r2;
    NumbersOf(0, 0, e.instance, 0, r1);
    NumbersOf(0, e.expected, 0, 0, r2);
    NumbersOf(0, e.generation, 0, 0, r3);
    NumbersOf(0, 0, 0, e.reason, lists);
    ListsOf(e.members, e.placed);
  }

  lemma CommitOf(e: Event)
    requires e.OffsetCommitted?
    ensures TakeCommit(e.store, e.catalogNext, e.group, Details(e)) == Some(e)
  {
    hide TakeId, TakeU64, TakeFlag, TakeKey, Flag, PutKey;
    var p4 := Le64(e.next);
    assert p4 == p4 + [];
    var p3 := Le64(e.previous) + p4;
    var p2 := Flag(e.previousKind) + p3;
    var p1 := PutKey(e.key) + p2;
    var r2 := Le64(e.generation) + p1;
    var r1 := IdBytes(e.session) + r2;
    NumbersOf(0, 0, e.instance, 0, r1);
    NumbersOf(0, 0, e.session, 0, r2);
    NumbersOf(0, e.generation, 0, 0, p1);
    KeyOf(e.key, p2);
    NumbersOf(0, 0, 0, e.previousKind, p3);
    NumbersOf(0, e.previous, 0, 0, p4);
    NumbersOf(0, e.next, 0, 0, []);
  }

  /** Reading an encoded body gives the event back. */
  lemma BodyRoundTrip(utf8: Bytes -> bool, e: Event)
    requires EncodeBody(utf8, e).Some?
    ensures DecodeBody(utf8, Kind(e), EncodeBody(utf8, e).value) == Some(e)
  {
    hide TakeId, TakeU64, TakeText, Details, TakeCreated, TakeAssignment, TakeCommit, Text, ValidText;
    var r2 := Text(e.group) + Details(e);
    var r1 := Le64(e.catalogNext) + r2;
    NumbersOf(0, 0, e.store, 0, r1);
    NumbersOf(0, e.catalogNext, 0, 0, r2);
    TextOf(utf8, e.group, Details(e));
    match e
    case GroupCreated(_, _, _, _, _) => CreatedOf(e, utf8);
    case AssignmentChanged(_, _, _, _, _, _, _, _, _) => AssignmentOf(e, utf8);
    case OffsetCommitted(_, _, _, _, _, _, _, _, _, _) => CommitOf(e);
  }

  lemma {:induction false} CreatedTaken(store: Id, next: u64, group: GroupId, b: Bytes)
    requires TakeCreated(store, next, group, b).Some?
    ensures var e := TakeCreated(store, next, group, b).value;
            e.GroupCreated? && e.store == store && e.catalogNext == next && e.group == group && Short(e.starts)
                && b == Details(e)
  {
    hide TakeFlag, TakeU32, TakeMany, Many, Flag, TakeStart, PutStart;
    NumbersTaken(b);
    var (mode, r1) := TakeFlag(b).value;
    NumbersTaken(r1);
    var (count, r2) := TakeU32(r1).value;
    forall c: Bytes | TakeStart(c).Some?
      ensures Any(TakeStart(c).value.0) && c == PutStart(TakeStart(c).value.0) + TakeStart(c).value.1
    {
      StartTaken(c);
    }
    ManyTaken(r2, count, Any<Start>, PutStart, TakeStart, []);
    var (starts, rest) := TakeMany(r2, count, TakeStart, []).value;
    assert starts[0..] == starts && Many(starts, PutStart) + [] == Many(starts, PutStart);
  }

  lemma {:induction false} ListsTaken(b: Bytes)
    requires TakeLists(b).Some?
    ensures var (members, placed) := TakeLists(b).value;
            && Short(members) && Short(placed) && (forall i | 0 <= i < |members| :: MemberShort(members[i]))
            && b == Le(|members|, 4) + (Many(members, PutMember) + (Le(|placed|, 4) + Many(placed, PutPlacement)))
  {
    hide TakeU32, TakeMany, Many, TakeMember, PutMember, TakePlacement, PutPlacement, MemberShort;
    NumbersTaken(b);
    var (count, r1) := TakeU32(b).value;
    forall c: Bytes | TakeMember(c).Some?
      ensures MemberShort(TakeMember(c).value.0) && c == PutMember(TakeMember(c).value.0) + TakeMember(c).value.1
    {
      MemberTaken(c);
    }
    ManyTaken(r1, count, MemberShort, PutMember, TakeMember, []);
    var (members, r2) := TakeMany(r1, count, TakeMember, []).value;
    NumbersTaken(r2);
    var (placedCount, r3) := TakeU32(r2).value;
    forall c: Bytes | TakePlacement(c).Some?
      ensures Any(TakePlacement(c).value.0) && c == PutPlacement(TakePlacement(c).value.0) + TakePlacement(c).value.1
    {
      PlacementTaken(c);
    }
    ManyTaken(r3, placedCount, Any<Placement>, PutPlacement, TakePlacement, []);
    var (placed, rest) := TakeMany(r3, placedCount, TakePlacement, []).value;
    assert members[0..] == members && placed[0..] == placed;
    assert Many(placed, PutPlacement) + [] == Many(placed, PutPlacement);
  }

  lemma AssignmentTaken(store: Id, next: u64, group: GroupId, b: Bytes)
    requires TakeAssignment(store, next, group, b).Some?
    ensures var e := TakeAssignment(store, next, group, b).value;
            && e.AssignmentChanged? && e.store == store && e.catalogNext == next && e.group == group
            && Short(e.members) && Short(e.placed) && (forall i | 0 <= i < |e.members| :: MemberShort(e.members[i]))
            && b == Details(e)
  {
    hide TakeId, TakeU64, TakeFlag, TakeLists, Flag, Many, MemberShort;
    NumbersTaken(b);
    var (instance, r1) := TakeId(b).value;
    NumbersTaken(r1);
    var (expected, r2) := TakeU64(r1).value;
    NumbersTaken(r2);
    var (generation, r3) := TakeU64(r2).value;
    NumbersTaken(r3);
    var (reason, r4) := TakeFlag(r3).value;
    ListsTaken(r4);
  }

  lemma CommitTaken(store: Id, next: u64, group: GroupId, b: Bytes)
    requires TakeCommit(store, next, group, b).Some?
    ensures var e := TakeCommit(store, next, group, b).value;
            e.OffsetCommitted? && e.store == store && e.catalogNext == next && e.group == group && b == Details(e)
  {
    hide TakeId, TakeU64, TakeFlag, TakeKey, Flag, PutKey, IdBytes, Le;
    NumbersTaken(b);
    var (instance, r1) := TakeId(b).value;
    NumbersTaken(r1);
    var (session, r2) := TakeId(r1).value;
    NumbersTaken(r2);
    var (generation, r3) := TakeU64(r2).value;
    KeyTaken(r3);
    var (key, r4) := TakeKey(r3).value;
    NumbersTaken(r4);
    var (kind, r5) := TakeFlag(r4).value;
    NumbersTaken(r5);
    var (previous, r6) := TakeU64(r5).value;
    NumbersTaken(r6);
    var (to, rest) := TakeU64(r6).value;
    assert Le64(to) + [] == Le64(to);
  }

  /** Every accepted body is the encoding of the event read from it. */
  lemma BodyCanonical(utf8: Bytes -> bool, kind: int, b: Bytes)
    requires DecodeBody(utf8, kind, b).Some?
    ensures var e := DecodeBody(utf8, kind, b).value; Kind(e) == kind && EncodeBody(utf8, e) == Some(b)
  {
    hide TakeId, TakeU64, TakeText, Details, TakeCreated, TakeAssignment, TakeCommit, Text, ValidText, MemberShort;
    NumbersTaken(b);
    var (store, r1) := TakeId(b).value;
    NumbersTaken(r1);
    var (next, r2) := TakeU64(r1).value;
    TextTaken(utf8, r2);
    var (group, r3) := TakeText(utf8, r2).value;
    if kind == 3 {
      CreatedTaken(store, next, group, r3);
    } else if kind == 4 {
      AssignmentTaken(store, next, group, r3);
    } else {
      CommitTaken(store, next, group, r3);
    }
  }

  // ----------------------------------------------------------------- envelope

  /** encodeSystemEvent */
  function Envelope(kind: int, payload: Bytes): Option<Bytes> {
    if kind <= 0 || kind >= 0x1_0000 || |payload| > MAX_U32 then None
    else Some(EVENT_MAGIC + Le16(kind) + Le16(1) + Le32(|payload|) + Le32(0) + payload)
  }

  /** decodeSystemEvent, for the offsets log. */
  function OpenEnvelope(value: Bytes): Option<(int, Bytes)> {
    if |value| < ENVELOPE_BYTES || value[..4] != EVENT_MAGIC then None
    else
      var kind := U16(value[4..6]);
      if U16(value[6..8]) != 1 || U32(value[12..16]) != 0 || U32(value[8..12]) != |value| - ENVELOPE_BYTES
          || !(3 <= kind <= 5) then None
      else Some((kind, value[16..]))
  }

  lemma EnvelopeOpens(kind: int, payload: Bytes)
    requires 3 <= kind <= 5 && |payload| <= MAX_U32
    ensures OpenEnvelope(Envelope(kind, payload).value) == Some((kind, payload))
  {
    hide Le, Un;
    var v := Envelope(kind, payload).value;
    assert v[..4] == EVENT_MAGIC && v[4..6] == Le16(kind) && v[6..8] == Le16(1) && v[8..12] == Le32(|payload|)
           && v[12..16] == Le32(0) && v[16..] == payload;
    Exact16(kind, Le16(0));
    Exact16(1, Le16(0));
    Exact32(|payload|, Le32(0));
    Exact32(0, Le32(0));
  }

  lemma EnvelopeCloses(value: Bytes)
    requires OpenEnvelope(value).Some?
    ensures Envelope(OpenEnvelope(value).value.0, OpenEnvelope(value).value.1) == Some(value)
  {
    hide Le, Un;
    Exact16(0, value[4..6]);
    Exact16(0, value[6..8]);
    Exact32(0, value[8..12]);
    Exact32(0, value[12..16]);
    assert value == value[..4] + value[4..6] + value[6..8] + value[8..12] + value[12..16] + value[16..];
  }

  function EncodeEvent(utf8: Bytes -> bool, e: Event): Option<Bytes> {
    match EncodeBody(utf8, e) case None => None case Some(b) => Envelope(Kind(e), b)
  }

  function DecodeEvent(utf8: Bytes -> bool, value: Bytes): Option<Event> {
    match OpenEnvelope(value) case None => None case Some((kind, b)) => DecodeBody(utf8, kind, b)
  }

  /** An offsets event survives its bytes, and its bytes survive the event: the two
      are the same thing, which is why projections can be stated over events. */
  lemma EventRoundTrip(utf8: Bytes -> bool, e: Event, value: Bytes)
    ensures EncodeEvent(utf8, e) == Some(value) ==> DecodeEvent(utf8, value) == Some(e)
    ensures DecodeEvent(utf8, value) == Some(e) ==> EncodeEvent(utf8, e) == Some(value)
  {
    hide EncodeBody, DecodeBody, Envelope, OpenEnvelope;
    if EncodeEvent(utf8, e) == Some(value) {
      var b := EncodeBody(utf8, e).value;
      BodyRoundTrip(utf8, e);
      EnvelopeSize(Kind(e), b);
      EnvelopeOpens(Kind(e), b);
    }
    if DecodeEvent(utf8, value) == Some(e) {
      var (kind, b) := OpenEnvelope(value).value;
      BodyCanonical(utf8, kind, b);
      EnvelopeCloses(value);
    }
  }

  lemma EnvelopeSize(kind: int, payload: Bytes)
    ensures Envelope(kind, payload).Some? ==> |payload| <= MAX_U32
  {
  }
}
