/** The tail cache: a ring of recently appended batches in front of the segment
    scan, under a byte limit of its own and a budget shared by all tails. */
module Tail {
  import opened Base
  import opened Codec
  import opened Batches
  import opened Reads
  import opened Coder
  import opened Fetcher

  /** A batch as the cache holds it. */
  datatype Cached = Cached(topic: Id, partition: u32, base: u64, end: nat, durableEnd: nat, bytes: nat,
                           records: seq<Record>)

  function SumBytes(s: seq<Cached>): nat {
    if s == [] then 0 else s[0].bytes + SumBytes(s[1..])
  }

  lemma {:induction false} SumSplit(a: seq<Cached>, b: seq<Cached>)
    ensures SumBytes(a + b) == SumBytes(a) + SumBytes(b)
    decreases a
  {
    if a == [] {
      assert a + b == b;
    } else {
      assert (a + b)[0] == a[0] && (a + b)[1..] == a[1..] + b;
      SumSplit(a[1..], b);
    }
  }

  lemma {:induction false} SumNone(s: seq<Cached>)
    ensures SumBytes(s[..0]) == 0
  {
  }

  lemma {:induction false} SumNext(s: seq<Cached>, i: nat)
    requires i < |s|
    ensures SumBytes(s[..i + 1]) == SumBytes(s[..i]) + s[i].bytes && s[i..][0] == s[i]
  {
    assert s[..i + 1] == s[..i] + [s[i]];
    SumSplit(s[..i], [s[i]]);
  }

  lemma {:induction false} SumParts(s: seq<Cached>, k: nat)
    requires k <= |s|
    ensures SumBytes(s) == SumBytes(s[..k]) + SumBytes(s[k..])
  {
    assert s == s[..k] + s[k..];
    SumSplit(s[..k], s[k..]);
  }

  // ------------------------------------------------------------------ batches

  predicate Uniform(records: seq<Record>, topic: Id, partition: u32, base: nat) {
    forall i | 0 <= i < |records| ::
        records[i].topic == topic && records[i].partition == partition && records[i].offset == base + i
  }

  /** What newDeliveredBatch admits. */
  predicate Deliverable(f: Format, topic: Id, partition: u32, records: seq<Record>, durableEnd: nat) {
    && 0 < |records| <= MAX_BATCH_RECORDS
    && ValidOffsetRange(records[0].offset, |records|) && records[0].offset + |records| <= durableEnd
    && Uniform(records, topic, partition, records[0].offset)
    && (forall i | 0 <= i < |records| :: Chargeable(f, records[i]))
    && RecordSizes(records) <= MAX_U64
  }

  predicate Sized(records: seq<Record>) {
    forall i | 0 <= i < |records| :: 36 + |Payload(records[i].key)| + |Payload(records[i].value)| <= MAX_U64
  }

  /** The record loop of newDeliveredBatch. */
  method Measure(f: Format, topic: Id, partition: u32, records: seq<Record>, base: nat) returns (r: Option<nat>)
    requires Sized(records)
    ensures r == if Uniform(records, topic, partition, base)
            && (forall i | 0 <= i < |records| :: Chargeable(f, records[i]))
                    && RecordSizes(records) <= MAX_U64
                 then Some(RecordSizes(records)) else None
  {
    hide Chargeable, RecordSize, RecordSizes;
    var bytes := 0;
    RecordSizesNone(records);
    for i := 0 to |records|
      invariant forall j | 0 <= j < i ::
                records[j].topic == topic && records[j].partition == partition && records[j].offset == base + j
      invariant forall j | 0 <= j < i :: Chargeable(f, records[j])
      invariant bytes == RecordSizes(records[..i]) <= MAX_U64
    {
      var record := records[i];
      if record.topic != topic || record.partition != partition || record.offset != base + i { return None; }
      var size := EstimateRecord(f, record);
      if size.None? { return None; }
      RecordSizesSplit(records, i);
      var next := CheckedAdd(bytes, size.value);
      if next.None? { return None; }
      bytes := next.value;
    }
    assert records[..|records|] == records;
    r := Some(bytes);
  }

  /** newDeliveredBatch */
  method NewDelivered(f: Format, topic: Id, partition: u32, records: seq<Record>, durableEnd: nat)
    returns (r: Option<Cached>)
    requires Sized(records)
    ensures r.Some? <==> Deliverable(f, topic, partition, records, durableEnd)
    ensures r.Some? ==>
            r.value == Cached(topic, partition, records[0].offset, records[0].offset + |records|, durableEnd,
                              RecordSizes(records), records)
  {
    hide Chargeable, RecordSizes, Uniform;
    if |records| == 0 || |records| > MAX_BATCH_RECORDS { return None; }
    var base := records[0].offset;
    if !ValidOffsetRange(base, |records|) || base + |records| > durableEnd { return None; }
    var bytes := Measure(f, topic, partition, records, base);
    if bytes.None? { return None; }
    r := Some(Cached(topic, partition, base, base + |records|, durableEnd, bytes.value, records));
  }

  /** validDeliveredBatch: may this batch answer a fetch at the offset? */
  predicate Answers(c: Cached, topic: Id, partition: u32, offset: nat, durableEnd: nat) {
    && c.topic == topic && c.partition == partition && c.base <= offset < c.end
    && c.end <= c.durableEnd <= durableEnd
    && 0 < |c.records| <= MAX_BATCH_RECORDS && ValidOffsetRange(c.base, |c.records|) && c.end == c.base + |c.records|
    && Uniform(c.records, topic, partition, c.base)
  }

  method CheckAnswers(c: Cached, topic: Id, partition: u32, offset: nat, durableEnd: nat) returns (ok: bool)
    ensures ok <==> Answers(c, topic, partition, offset, durableEnd)
  {
    if c.topic != topic || c.partition != partition || c.base > offset || offset >= c.end || c.end > c.durableEnd
       || c.durableEnd > durableEnd || |c.records| == 0 || |c.records| > MAX_BATCH_RECORDS
       || !ValidOffsetRange(c.base, |c.records|) || c.end != c.base + |c.records| {
      return false;
    }
    for i := 0 to |c.records|
      invariant forall j | 0 <= j < i ::
                c.records[j].topic == topic && c.records[j].partition == partition && c.records[j].offset == c.base + j
    {
      var r := c.records[i];
      if r.topic != topic || r.partition != partition || r.offset != c.base + i { return false; }
    }
    ok := true;
  }

  // ----------------------------------------------------------------- eviction

  /** How many of the oldest batches must go for `incoming` bytes to fit. */
  function Evictions(s: seq<Cached>, slots: nat, limit: nat, incoming: nat): (k: nat)
    requires incoming <= limit && 0 < slots
    ensures k <= |s|
    decreases s
  {
    if s != [] && (|s| >= slots || SumBytes(s) > limit - incoming) then 1 + Evictions(s[1..], slots, limit, incoming)
        else 0
  }

  /** Exactly enough: what stays fits with the newcomer, and one fewer would not. */
  lemma {:induction false} EvictionsMean(s: seq<Cached>, slots: nat, limit: nat, incoming: nat)
    requires incoming <= limit && 0 < slots
    ensures var k := Evictions(s, slots, limit, incoming);
            && |s| - k < slots && SumBytes(s[k..]) + incoming <= limit
            && (k > 0 ==> |s| - (k - 1) >= slots || SumBytes(s[k - 1..]) + incoming > limit)
    decreases s
  {
    var k := Evictions(s, slots, limit, incoming);
    if k > 0 {
      EvictionsMean(s[1..], slots, limit, incoming);
      assert s[1..][k - 1..] == s[k..];
      if k > 1 { assert s[1..][k - 2..] == s[k - 1..]; } else { assert s[0..] == s; }
    } else {
      assert s[0..] == s;
    }
  }

  lemma {:induction false} EvictNext(s: seq<Cached>, k: nat, slots: nat, limit: nat, incoming: nat)
    requires incoming <= limit && 0 < slots && k < |s|
    ensures SumBytes(s[k..]) == s[k].bytes + SumBytes(s[k + 1..])
    ensures SumBytes(s[..k + 1]) == SumBytes(s[..k]) + s[k].bytes
    ensures |s| - k >= slots || SumBytes(s[k..]) > limit - incoming ==>
              Evictions(s[k..], slots, limit, incoming) == 1 + Evictions(s[k + 1..], slots, limit, incoming)
  {
    var rest := s[k..];
    assert rest[0] == s[k] && rest[1..] == s[k + 1..];
    assert s[..k + 1] == s[..k] + [s[k]];
    SumSplit(s[..k], [s[k]]);
  }

  lemma {:induction false} EvictLast(s: seq<Cached>, k: nat, slots: nat, limit: nat, incoming: nat)
    requires incoming <= limit && 0 < slots && k <= |s|
    requires |s| - k < slots && SumBytes(s[k..]) <= limit - incoming
    ensures Evictions(s[k..], slots, limit, incoming) == 0
  {
  }

  lemma {:induction false} EvictStarts(s: seq<Cached>)
    ensures s[0..] == s && SumBytes(s[..0]) == 0 && SumBytes(s[|s|..]) == 0
  {
  }

  // --------------------------------------------------------------- refinement

  /** The cached records are the ones the log has at those offsets. */
  predicate Faithful(c: Cached, history: seq<Record>, origin: nat) {
    && origin <= c.base && c.base - origin + |c.records| <= |history| && c.end == c.base + |c.records|
    && c.records == history[c.base - origin..c.base - origin + |c.records|]
  }

  /** What a hit returns: the limits applied to the rest of one cached batch. */
  function Hit(c: Cached, offset: nat, lim: Limits): Progress
    requires c.base <= offset && offset - c.base <= |c.records|
  {
    FeedAll(START, c.records[offset - c.base..], offset, lim)
  }

  /** A hit is what the segment scan returns, or a nonempty prefix of it when the
      cached batch ran out first; a too small limit is the same error. */
  lemma {:induction false} HitRefinesScan(c: Cached, history: seq<Record>, origin: nat, start: nat, topic: Id,
                                          partition: u32, offset: nat, durableEnd: nat, lim: Limits)
    requires Faithful(c, history, origin) && Numbered(history, origin) && origin <= start <= offset
    requires start - origin <= |history|
    requires Answers(c, topic, partition, offset, durableEnd) && lim.maxRecords > 0
    ensures var hit, scan := Hit(c, offset, lim), FeedAll(START, history[start - origin..], offset, lim);
            && (!hit.status.More? ==> hit == scan)
            && hit.records <= scan.records
            && (hit.status.TooSmall? <==> scan.status.TooSmall?)
            && (hit.records == [] <==> hit.status.TooSmall?)
  {
    hide FeedAll, ValidOffsetRange;
    var low, mid, high := start - origin, offset - origin, c.end - origin;
    var part := c.records[offset - c.base..];
    assert part == history[mid..high];
    assert history[low..] == history[low..mid] + (history[mid..high] + history[high..]);
    NumberedSlice(history, origin, low, mid);
    FeedSplit(START, history[low..mid], history[mid..high] + history[high..], offset, lim);
    FeedSkip(START, history[low..mid], start, offset, lim);
    FeedSplit(START, part, history[high..], offset, lim);
    var hit := Hit(c, offset, lim);
    FeedGrows(hit, history[high..], offset, lim);
    NumberedSlice(history, origin, mid, high);
    HitOutcome(part, offset, lim);
  }

  lemma NumberedSlice(history: seq<Record>, origin: nat, a: nat, b: nat)
    requires Numbered(history, origin) && a <= b <= |history|
    ensures Numbered(history[a..b], origin + a)
  {
  }

  lemma {:induction false} FeedGrows(p: Progress, records: seq<Record>, offset: nat, lim: Limits)
    ensures p.records <= FeedAll(p, records, offset, lim).records
    ensures !p.status.More? ==> FeedAll(p, records, offset, lim) == p
    ensures p.records != [] && p.status != TooSmall ==> FeedAll(p, records, offset, lim).status != TooSmall
    decreases records
  {
    if p.status.More? && records != [] { FeedGrows(Feed(p, records[0], offset, lim), records[1..], offset, lim); }
  }

  /** Feeding a nonempty run returns something, unless its first record is too big. */
  lemma {:induction false} HitOutcome(part: seq<Record>, offset: nat, lim: Limits)
    requires part != [] && Numbered(part, offset) && lim.maxRecords > 0
    ensures var p := FeedAll(START, part, offset, lim); p.records == [] <==> p.status.TooSmall?
  {
    hide RecordSize;
    assert part[0].offset == offset;
    var p := Feed(START, part[0], offset, lim);
    FeedGrows(p, part[1..], offset, lim);
  }

  // --------------------------------------------------------------------- ring

  /** Whether a budget that holds `held` can swap `removed` bytes for `added`. */
  predicate FitsBudget(held: nat, limit: nat, removed: nat, added: nat) {
    removed <= held && held - removed + added <= limit
  }

  /** The bytes all tails of a store may hold together. */
  class Budget {
    const limit: nat
    var bytes: nat

    constructor (limit: nat)
      ensures this.limit == limit && bytes == 0
    {
      this.limit, bytes := limit, 0;
    }

    /** tryReplaceLocked */
    method TryReplace(removed: nat, added: nat) returns (ok: bool)
      requires bytes <= limit
      modifies this
      ensures ok <==> FitsBudget(old(bytes), limit, removed, added)
      ensures bytes == if ok then old(bytes) - removed + added else old(bytes)
    {
      if removed > bytes { return false; }
      var afterRemoval := bytes - removed;
      if added > limit - afterRemoval { return false; }
      bytes := afterRemoval + added;
      ok := true;
    }

    /** release clamps at zero; with correct accounting the clamp never acts. */
    method Release(n: nat)
      modifies this
      ensures bytes == if n >= old(bytes) then 0 else old(bytes) - n
      ensures n <= old(bytes) ==> bytes == old(bytes) - n
    {
      if n == 0 { return; }
      if n >= bytes { bytes := 0; } else { bytes := bytes - n; }
    }
  }

  /** Position `i` places after `head` in a ring of `n` slots. */
  function Wrap(head: nat, i: nat, n: nat): (r: nat)
    requires head < n && i <= n
    ensures r < n
  {
    if head + i < n then head + i else head + i - n
  }

  lemma WrapIs(head: nat, i: nat, n: nat)
    requires head < n && i <= n
    ensures (head + i) % n == Wrap(head, i, n)
  {
    var x := head + i;
    var q := x / n;
    assert x == n * q + x % n && 0 <= x % n < n;
    Scaled(n, q);
    assert q == 0 || q == 1;
  }

  lemma Scaled(n: nat, q: int)
    requires n > 0
    ensures q >= 2 ==> n * q >= n * 2
    ensures q < 0 ==> n * q < 0
  {
    if q >= 2 { assert n * (q - 2) >= 0; }
    if q < 0 { assert n * (0 - q) > 0; }
  }

  class Ring {
    const slots: array<Option<Cached>>
    const limit: nat
    const budget: Budget?
    var head: nat
    var count: nat
    var bytes: nat
    var closed: bool

    ghost predicate Shape()
      reads this, slots
    {
      && 0 < slots.Length && head < slots.Length && count <= slots.Length
      && (forall i | 0 <= i < count :: slots[Wrap(head, i, slots.Length)].Some?)
      && (forall i | count <= i < slots.Length :: slots[Wrap(head, i, slots.Length)].None?)
    }

    /** The cached batches, oldest first. */
    ghost function Contents(): seq<Cached>
      requires Shape()
      reads this, slots
    {
      seq(count, i requires 0 <= i < count && Shape() reads this, slots => slots[Wrap(head, i, slots.Length)].value)
    }

    /** The byte count is the sum of the live batches and never above the limit. */
    ghost predicate Valid()
      reads this, slots
    {
      && Shape()
      && bytes == SumBytes(Contents()) <= limit
      && (closed ==> count == 0)
    }

    constructor (slotCount: nat, limit: nat, budget: Budget?)
      requires slotCount > 0
      ensures Valid() && Contents() == [] && !closed && fresh(slots) && slots.Length == slotCount
      ensures this.limit == limit && this.budget == budget
    {
      slots := new Option<Cached>[slotCount](_ => None);
      this.limit, this.budget := limit, budget;
      head, count, bytes, closed := 0, 0, 0, false;
    }

    /** evictionPlan: counts the oldest batches that must go. */
    method EvictionPlan(incoming: nat) returns (evictions: nat, removed: nat, ok: bool)
      requires Valid()
      ensures ok <==> incoming <= limit
      ensures ok ==> evictions == Evictions(Contents(), slots.Length, limit, incoming)
      ensures ok ==> removed == SumBytes(Contents()[..evictions])
    {
      hide SumBytes, Evictions;
      if incoming > limit { return 0, 0, false; }
      var left, size := count, bytes;
      evictions, removed := 0, 0;
      ghost var s := Contents();
      EvictStarts(s);
      while left == slots.Length || size > limit - incoming
        invariant 0 <= left && evictions + left == count && size == SumBytes(s[evictions..])
        invariant removed == SumBytes(s[..evictions])
        invariant Evictions(s, slots.Length, limit, incoming) == evictions
                  + Evictions(s[evictions..], slots.Length, limit, incoming)
        decreases left
      {
        WrapIs(head, evictions, slots.Length);
        var batch := slots[(head + evictions) % slots.Length];
        EvictNext(s, evictions, slots.Length, limit, incoming);
        size := size - batch.value.bytes;
        removed := removed + batch.value.bytes;
        left := left - 1;
        evictions := evictions + 1;
      }
      EvictLast(s, evictions, slots.Length, limit, incoming);
      ok := true;
    }

    /** evict: drops the oldest batches. */
    method Evict(n: nat)
      requires Valid() && n <= count
      modifies this, slots
      ensures Valid() && Contents() == old(Contents())[n..] && closed == old(closed)
      ensures bytes == old(bytes) - SumBytes(old(Contents())[..n])
    {
      hide Ring.Contents, Ring.Shape, SumBytes;
      ghost var s := Contents();
      assert s[0..] == s;
      Counted();
      SumNone(s);
      for i := 0 to n
        invariant Valid() && count == old(count) - i && Contents() == s[i..] && closed == old(closed)
        invariant bytes == old(bytes) - SumBytes(s[..i])
      {
        Counted();
        SumNext(s, i);
        EvictOne();
        assert s[i..][1..] == s[i + 1..];
      }
    }

    lemma Counted()
      requires Valid()
      ensures |Contents()| == count && slots.Length > 0
    {
    }

    method EvictOne()
      requires Valid() && count > 0
      modifies this, slots
      ensures Valid() && Contents() == old(Contents())[1..] && closed == old(closed) && count == old(count) - 1
      ensures |old(Contents())| > 0 && bytes == old(bytes) - old(Contents())[0].bytes
    {
      ghost var s := Contents();
      var n := slots.Length;
      assert s[0] == slots[head].value;
      bytes := bytes - slots[head].value.bytes;
      slots[head] := None;
      WrapIs(head, 1, n);
      head := (head + 1) % n;
      count := count - 1;
      assert forall i | 0 <= i < n :: Wrap(head, i, n) == if i + 1 < n then Wrap(old(head), i + 1, n) else old(head);
      assert Contents() == s[1..];
    }

    /** offer: never waits. A held lock, a full budget or an unfit batch leaves the
        cache as it was; otherwise the newest batch joins and just enough of the
        oldest leave. */
    method Offer(f: Format, topic: Id, partition: u32, records: seq<Record>, durableEnd: nat, contended: bool)
      returns (taken: bool)
      requires Valid() && Sized(records) && (budget != null ==> budget.bytes <= budget.limit)
      modifies this, slots, budget
      ensures Valid() && closed == old(closed)
      ensures budget != null ==> budget.bytes <= budget.limit && budget.bytes + old(bytes) == old(budget.bytes) + bytes
      ensures taken <==>
                && !contended && !old(closed) && Deliverable(f, topic, partition, records, durableEnd)
                && RecordSizes(records) <= limit
                && (budget == null ||
                    var k := Evictions(old(Contents()), slots.Length, limit, RecordSizes(records));
                    FitsBudget(old(budget.bytes), budget.limit, SumBytes(old(Contents())[..k]), RecordSizes(records)))
      ensures !taken ==> Contents() == old(Contents())
      ensures taken ==>
                Contents() == old(Contents())[Evictions(old(Contents()), slots.Length, limit, RecordSizes(records))..]
                              + [Cached(topic, partition, records[0].offset, records[0].offset + |records|, durableEnd,
                                        RecordSizes(records), records)]
    {
      hide Deliverable, Evictions, RecordSizes, Ring.Valid;
      taken := false;
      if contended || closed { return; }
      var batch := NewDelivered(f, topic, partition, records, durableEnd);
      if batch.None? || batch.value.bytes > limit { return; }
      taken := Install(batch.value);
    }

    /** Makes room within the limit and the budget, then adds the batch. */
    method Install(c: Cached) returns (taken: bool)
      requires Valid() && !closed && c.bytes <= limit && (budget != null ==> budget.bytes <= budget.limit)
      modifies this, slots, budget
      ensures Valid() && !closed
      ensures budget != null ==> budget.bytes <= budget.limit && budget.bytes + old(bytes) == old(budget.bytes) + bytes
      ensures var k := Evictions(old(Contents()), slots.Length, limit, c.bytes);
              && (taken <==> budget == null || FitsBudget(old(budget.bytes), budget.limit,
                                                          SumBytes(old(Contents())[..k]), c.bytes))
              && Contents() == if taken then old(Contents())[k..] + [c] else old(Contents())
    {
      hide SumBytes, Evictions, Wrap, Ring.Contents, Ring.Shape;
      Counted();
      var evictions, removed, ok := EvictionPlan(c.bytes);
      ghost var s := Contents();
      EvictionsMean(s, slots.Length, limit, c.bytes);
      SumParts(s, evictions);
      if budget != null {
        var room := budget.TryReplace(removed, c.bytes);
        if !room { return false; }
      }
      Evict(evictions);
      Counted();
      Push(c);
      taken := true;
    }

    method Push(c: Cached)
      requires Valid() && count < slots.Length && bytes + c.bytes <= limit && !closed
      modifies this, slots
      ensures Valid() && Contents() == old(Contents()) + [c] && !closed && bytes == old(bytes) + c.bytes
    {
      ghost var s := Contents();
      var n := slots.Length;
      WrapIs(head, count, n);
      var index := (head + count) % n;
      assert forall i | 0 <= i < n && i != count :: Wrap(head, i, n) != index;
      slots[index] := Some(c);
      count := count + 1;
      bytes := bytes + c.bytes;
      assert Contents() == s + [c];
      SumSplit(s, [c]);
    }

    /** clear and close: every batch goes, and the budget gets its bytes back. */
    method Clear(closing: bool)
      requires Valid() && (budget != null ==> bytes <= budget.bytes)
      modifies this, slots, budget
      ensures Valid() && bytes == 0 && (closing || !old(closed) ==> Contents() == [])
      ensures closed == (closing || old(closed))
      ensures budget != null ==> budget.bytes + old(bytes) == old(budget.bytes)
    {
      if closed { return; }
      closed := closing;
      var released := bytes;
      var i := 0;
      while i < slots.Length
        invariant 0 <= i <= slots.Length
        invariant forall j | 0 <= j < i :: slots[j].None?
        invariant head == old(head) && count == old(count) && bytes == old(bytes) && closed == closing
        invariant budget != null ==> budget.bytes == old(budget.bytes)
        modifies slots
      {
        slots[i] := None;
        i := i + 1;
      }
      head, count, bytes := 0, 0, 0;
      if budget != null { budget.Release(released); }
    }

    /** fetch: the first slot that can answer does; a held lock or a closed cache is
        a miss. */
    method Fetch(topic: Id, partition: u32, offset: nat, durableEnd: nat, lim: Limits, contended: bool)
      returns (r: Option<Progress>, ghost at: nat)
      requires Valid()
      ensures r.None? <==> contended || closed || forall c | c in Contents() ::
              !Answers(c, topic, partition, offset, durableEnd)
      ensures r.Some? ==> && at < |Contents()| && Answers(Contents()[at], topic, partition, offset, durableEnd)
                          && r.value == Hit(Contents()[at], offset, lim)
    {
      hide Answers, FeedAll;
      if contended || closed { return None, 0; }
      for i := 0 to slots.Length
        invariant forall k | 0 <= k < i :: slots[k].Some? ==>
                  !Answers(slots[k].value, topic, partition, offset, durableEnd)
      {
        if slots[i].Some? {
          var c := slots[i].value;
          var answers := CheckAnswers(c, topic, partition, offset, durableEnd);
          if answers {
            AnswerSpan(c, topic, partition, offset, durableEnd);
            at := SlotLive(i);
            var p := FeedCached(c, offset, lim);
            return Some(p), at;
          }
        }
      }
      forall c | c in Contents() ensures !Answers(c, topic, partition, offset, durableEnd) {
        var j :| 0 <= j < |Contents()| && Contents()[j] == c;
        assert slots[Wrap(head, j, slots.Length)] == Some(c);
      }
      r := None;
      at := 0;
    }

    lemma SlotLive(i: nat) returns (j: nat)
      requires Valid() && i < slots.Length && slots[i].Some?
      ensures j < |Contents()| && Contents()[j] == slots[i].value
    {
      var n := slots.Length;
      j := if i >= head then i - head else i + n - head;
      assert Wrap(head, j, n) == i;
      assert j < count;
    }
  }

  lemma AnswerSpan(c: Cached, topic: Id, partition: u32, offset: nat, durableEnd: nat)
    requires Answers(c, topic, partition, offset, durableEnd)
    ensures c.base <= offset && offset - c.base < |c.records|
  {
  }

  /** The record loop of a hit. */
  method FeedCached(c: Cached, offset: nat, lim: Limits) returns (p: Progress)
    requires c.base <= offset && offset - c.base <= |c.records|
    ensures p == Hit(c, offset, lim)
  {
    p := FeedRecords(c.records[offset - c.base..], offset, lim, START);
  }

  // ------------------------------------------------------------ shared budget

  function Sum(s: seq<nat>): nat {
    if s == [] then 0 else Sum(s[..|s| - 1]) + s[|s| - 1]
  }

  lemma {:induction false} SumUpdate(s: seq<nat>, i: nat, v: nat)
    requires i < |s|
    ensures Sum(s[i := v]) + s[i] == Sum(s) + v
    decreases s
  {
    var n := |s| - 1;
    if i == n {
      assert s[i := v][..n] == s[..n];
    } else {
      assert s[i := v][..n] == s[..n][i := v];
      SumUpdate(s[..n], i, v);
    }
  }

  lemma {:induction false} SumHolds(s: seq<nat>, i: nat)
    requires i < |s|
    ensures s[i] <= Sum(s)
    decreases s
  {
    if i < |s| - 1 { SumHolds(s[..|s| - 1], i); }
  }

  /** A store's tails and the budget they share. */
  class Tails {
    const budget: Budget
    var tails: seq<Ring>

    ghost function Held(): seq<nat>
      reads this, tails
    {
      seq(|tails|, i requires 0 <= i < |tails| reads this, tails => tails[i].bytes)
    }

    ghost predicate Separate()
      reads this, tails
    {
      && (forall i | 0 <= i < |tails| :: tails[i].budget == budget)
      && (forall i, j | 0 <= i < j < |tails| :: tails[i] != tails[j] && tails[i].slots != tails[j].slots)
    }

    /** The shared budget is exactly what the tails hold, and within its limit. */
    ghost predicate Valid()
      reads this, budget, tails, set i | 0 <= i < |tails| :: tails[i].slots
    {
      && Separate()
      && (forall i | 0 <= i < |tails| :: tails[i].Valid())
      && budget.bytes == Sum(Held()) <= budget.limit
    }

    constructor (limit: nat)
      ensures Valid() && tails == [] && budget.limit == limit && fresh(budget)
    {
      budget := new Budget(limit);
      tails := [];
    }

    /** A partition is opened with a tail of its own. */
    method Attach(slotCount: nat, limit: nat)
      requires Valid() && slotCount > 0
      modifies this
      ensures Valid() && |tails| == |old(tails)| + 1 && tails[..|old(tails)|] == old(tails)
      ensures fresh(tails[|old(tails)|]) && tails[|old(tails)|].Contents() == []
    {
      ghost var before := Held();
      var ring := new Ring(slotCount, limit, budget);
      tails := tails + [ring];
      assert Held()[..|before|] == before && Held()[|before|] == 0;
    }

    method Offer(i: nat, f: Format, topic: Id, partition: u32, records: seq<Record>, durableEnd: nat, contended: bool)
      returns (taken: bool)
      requires Valid() && i < |tails| && Sized(records)
      modifies tails[i], tails[i].slots, budget
      ensures Valid() && tails == old(tails)
      ensures !taken ==> tails[i].Contents() == old(tails[i].Contents())
      ensures taken ==> tails[i].Contents() != [] && tails[i].Contents()[|tails[i].Contents()| - 1].records == records
    {
      hide Deliverable, Evictions, RecordSizes, SumBytes, Ring.Valid;
      ghost var before := Held();
      taken := tails[i].Offer(f, topic, partition, records, durableEnd, contended);
      Rebalance(before, i);
    }

    method Clear(i: nat, closing: bool)
      requires Valid() && i < |tails|
      modifies tails[i], tails[i].slots, budget
      ensures Valid() && tails == old(tails) && tails[i].bytes == 0
      ensures closing || !old(tails[i].closed) ==> tails[i].Contents() == []
    {
      hide SumBytes, Ring.Valid;
      ghost var before := Held();
      SumHolds(before, i);
      tails[i].Clear(closing);
      Rebalance(before, i);
    }

    /** Only one tail changed, and the budget by as much. */
    lemma {:induction false} Rebalance(before: seq<nat>, i: nat)
      requires i < |tails| == |before| && forall j | 0 <= j < |tails| && j != i :: tails[j].bytes == before[j]
      ensures Sum(Held()) + before[i] == Sum(before) + tails[i].bytes
    {
      assert Held() == before[i := tails[i].bytes];
      SumUpdate(before, i, tails[i].bytes);
    }
  }

  // ---------------------------------------------------------- cache over a log

  predicate AllFaithful(s: seq<Cached>, history: seq<Record>, origin: nat) {
    forall i | 0 <= i < |s| :: Faithful(s[i], history, origin)
  }

  /** A ring that lost its oldest batches and gained records `a..` of the history. */
  lemma FaithfulTaken(before: seq<Cached>, after: seq<Cached>, history: seq<Record>, origin: nat, a: nat)
    requires AllFaithful(before, history, origin) && Numbered(history, origin) && 0 < |after| <= |before| + 1
    requires after[..|after| - 1] == before[|before| - (|after| - 1)..]
    requires var c := after[|after| - 1];
             && c.records != [] && a + |c.records| <= |history| && c.records == history[a..a + |c.records|]
             && c.base == c.records[0].offset && c.end == c.base + |c.records|
    ensures AllFaithful(after, history, origin)
  {
    var n := |after| - 1;
    assert after[n].records[0] == history[a];
    forall i | 0 <= i < n ensures Faithful(after[i], history, origin) {
      assert after[i] == after[..n][i] == before[|before| - n + i];
    }
  }

  lemma FaithfulGrows(s: seq<Cached>, history: seq<Record>, more: seq<Record>, origin: nat)
    requires AllFaithful(s, history, origin)
    ensures AllFaithful(s, history + more, origin)
  {
    forall i | 0 <= i < |s| ensures Faithful(s[i], history + more, origin) {
      assert Faithful(s[i], history, origin);
      var a, b := s[i].base - origin, s[i].base - origin + |s[i].records|;
      assert (history + more)[a..b] == history[a..b];
    }
  }

  /** A partition's records with its tail in front. The tail is offered a batch
      only after the append released its lock, so a retention pass may run first
      and clear the tail before an already retired batch arrives. */
  class TailedLog {
    const ring: Ring
    const topic: Id
    const partition: u32
    var start: nat
    var logEnd: nat
    ghost var history: seq<Record>
    ghost const origin: nat

    ghost predicate Valid()
      reads this, ring, ring.slots
    {
      && ring.Valid() && ring.budget == null
      && origin <= start <= logEnd == origin + |history|
      && Numbered(history, origin)
      && AllFaithful(ring.Contents(), history, origin)
    }

    constructor (topic: Id, partition: u32, base: nat, slotCount: nat, limit: nat)
      requires slotCount > 0
      ensures Valid() && fresh(ring) && fresh(ring.slots) && start == logEnd == base
    {
      ring := new Ring(slotCount, limit, null);
      this.topic, this.partition := topic, partition;
      start, logEnd, history, origin := base, base, [], base;
    }

    method Append(records: seq<Record>)
      requires Valid() && Numbered(records, logEnd)
      modifies this
      ensures Valid() && history == old(history) + records && start == old(start)
    {
      hide Faithful;
      FaithfulGrows(ring.Contents(), history, records, origin);
      NumberedJoin(history, records, origin);
      history := history + records;
      logEnd := logEnd + |records|;
    }

    /** publishTail, any time after the append of history `a` up to `b`. */
    method Publish(f: Format, records: seq<Record>, ghost a: nat, durableEnd: nat, contended: bool)
      requires Valid() && Sized(records) && a + |records| <= |history| && records == history[a..a + |records|]
      modifies ring, ring.slots
      ensures Valid() && history == old(history)
    {
      hide Deliverable, Evictions, RecordSizes, SumBytes, FitsBudget, Ring.Shape, Faithful, AllFaithful, Numbered,
           Sized;
      ghost var before := ring.Contents();
      var taken := ring.Offer(f, topic, partition, records, durableEnd, contended);
      DeliverableSome(f, topic, partition, records, durableEnd);
      if taken { FaithfulTaken(before, ring.Contents(), history, origin, a); }
    }

    /** Retention moves the start and clears the tail. */
    method Retain(newStart: nat)
      requires Valid() && start <= newStart <= logEnd
      modifies this, ring, ring.slots
      ensures Valid() && start == newStart && history == old(history) && (ring.closed || ring.Contents() == [])
    {
      ring.Clear(false);
      start := newStart;
    }

    /** A hit agrees with the segment scan of the retained records: the same result
        and the same error, or a nonempty prefix of the result when the cached
        batch ended first. */
    method Fetch(offset: nat, lim: Limits, contended: bool) returns (r: Option<Progress>)
      requires Valid() && start <= offset <= logEnd && lim.maxRecords > 0
      ensures r.None? <==> contended || ring.closed || forall c | c in ring.Contents() ::
              !Answers(c, topic, partition, offset, logEnd)
      ensures r.Some? ==>
                var scan := FeedAll(START, history[start - origin..], offset, lim);
                && (!r.value.status.More? ==> r.value == scan)
                && r.value.records <= scan.records
                && (r.value.status.TooSmall? <==> scan.status.TooSmall?)
                && (r.value.records == [] <==> r.value.status.TooSmall?)
    {
      hide FeedAll, Answers, Faithful, SumBytes;
      ghost var at;
      r, at := ring.Fetch(topic, partition, offset, logEnd, lim, contended);
      if r.Some? {
        ghost var c := ring.Contents()[at];
        AnswerSpan(c, topic, partition, offset, logEnd);
        HitRefinesScan(c, history, origin, start, topic, partition, offset, logEnd, lim);
      }
    }
  }

  lemma {:induction false} DeliverableSome(f: Format, topic: Id, partition: u32, records: seq<Record>, durableEnd: nat)
    ensures Deliverable(f, topic, partition, records, durableEnd) ==> records != []
  {
  }
}
