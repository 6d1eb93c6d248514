/** Admission to a partition's writer: credits taken before a request is copied,
    the bounded ring, batching, and exactly one result for each published request. */
module Ingress {
  import opened Base

  const BATCH_OVERHEAD: nat := 52
  const DESCRIPTOR_BYTES: nat := 128

  /** An admitted request: its encoded size and what it was charged. */
  datatype Request = Request(id: nat, size: nat, charge: nat)

  datatype Options = Options(batchRecords: nat, batchBytes: nat, recordBytes: nat,
                             inFlightBytes: nat, inFlightRecords: nat, capacity: nat, waiters: nat)

  /** requestCharge: a request that passes fits a batch alone. */
  function Charge(o: Options, size: nat): Option<nat> {
    if size > o.recordBytes || BATCH_OVERHEAD + size > o.batchBytes || DESCRIPTOR_BYTES + size > MAX_U64 then None
    else Some(DESCRIPTOR_BYTES + size)
  }

  predicate Chargeable(o: Options, r: Request) { Charge(o, r.size) == Some(r.charge) }

  /** Every release subtracts this way; exact contracts below show that the clamp
      at zero never acts. */
  function Clamped(a: nat, b: nat): nat { if b <= a then a - b else 0 }

  function Charges(s: seq<Request>): nat {
    if s == [] then 0 else Charges(s[..|s| - 1]) + s[|s| - 1].charge
  }

  function Sizes(s: seq<Request>): nat {
    if s == [] then 0 else Sizes(s[..|s| - 1]) + s[|s| - 1].size
  }

  lemma {:induction false} ChargesSplit(a: seq<Request>, b: seq<Request>)
    ensures Charges(a + b) == Charges(a) + Charges(b)
    decreases b
  {
    if b == [] {
      assert a + b == a;
    } else {
      assert (a + b)[..|a + b| - 1] == a + b[..|b| - 1];
      ChargesSplit(a, b[..|b| - 1]);
    }
  }

  function Without(s: seq<Request>, i: nat): seq<Request>
    requires i < |s|
  {
    s[..i] + s[i + 1..]
  }

  lemma {:induction false} ChargesWithout(s: seq<Request>, i: nat)
    requires i < |s|
    ensures Charges(s) == Charges(Without(s, i)) + s[i].charge
  {
    assert s == s[..i] + ([s[i]] + s[i + 1..]);
    ChargesSplit(s[..i], [s[i]] + s[i + 1..]);
    ChargesSplit([s[i]], s[i + 1..]);
    ChargesSplit(s[..i], s[i + 1..]);
    assert [s[i]][..0] == [];
  }

  // ----------------------------------------------------------------- batching

  predicate BatchFits(o: Options, b: seq<Request>) {
    0 < |b| <= o.batchRecords && BATCH_OVERHEAD + Sizes(b) <= o.batchBytes
  }

  function Concat(batches: seq<seq<Request>>): seq<Request> {
    if batches == [] then [] else Concat(batches[..|batches| - 1]) + batches[|batches| - 1]
  }

  predicate AllFit(o: Options, batches: seq<seq<Request>>) {
    forall i | 0 <= i < |batches| :: BatchFits(o, batches[i])
  }

  /** A batch was closed only because the next request did not fit in it. */
  predicate Packed(o: Options, batches: seq<seq<Request>>) {
    forall i | 0 < i < |batches| && batches[i] != [] :: !BatchFits(o, batches[i - 1] + [batches[i][0]])
  }

  lemma {:induction false} SizesOne(b: seq<Request>, r: Request)
    ensures Sizes(b + [r]) == Sizes(b) + r.size
  {
    assert (b + [r])[..|b|] == b;
  }

  lemma {:induction false} ConcatOne(batches: seq<seq<Request>>, b: seq<Request>)
    ensures Concat(batches + [b]) == Concat(batches) + b
  {
    assert (batches + [b])[..|batches|] == batches;
  }

  lemma PackedOne(o: Options, batches: seq<seq<Request>>, b: seq<Request>, r: Request)
    requires Packed(o, batches + [b]) && !BatchFits(o, b + [r])
    ensures Packed(o, batches + [b] + [[r]])
  {
    hide BatchFits;
    var all := batches + [b] + [[r]];
    forall i | 0 < i < |all| && all[i] != [] ensures !BatchFits(o, all[i - 1] + [all[i][0]]) {
      if i < |batches| + 1 {
        assert all[i] == (batches + [b])[i] && all[i - 1] == (batches + [b])[i - 1];
      }
    }
  }

  lemma PackedGrow(o: Options, batches: seq<seq<Request>>, b: seq<Request>, r: Request)
    requires b != [] && Packed(o, batches + [b])
    ensures Packed(o, batches + [b + [r]])
  {
    hide BatchFits;
    var was, all := batches + [b], batches + [b + [r]];
    forall i | 0 < i < |all| && all[i] != [] ensures !BatchFits(o, all[i - 1] + [all[i][0]]) {
      assert all[i - 1] == was[i - 1] && all[i][0] == was[i][0];
    }
  }

  /** writeIngressBatches, up to what it writes: batches that concatenate to the
      requests in order, each within both limits and none closed early. */
  method SplitBatches(o: Options, requests: seq<Request>) returns (batches: seq<seq<Request>>)
    requires o.batchRecords > 0 && forall i | 0 <= i < |requests| :: Chargeable(o, requests[i])
    ensures Concat(batches) == requests && AllFit(o, batches) && Packed(o, batches)
  {
    hide Sizes, Concat, Packed;
    batches := [];
    var batch: seq<Request> := [];
    var batchBytes := BATCH_OVERHEAD;
    SplitBegin(o);
    for i := 0 to |requests|
      invariant Concat(batches) + batch == requests[..i]
      invariant AllFit(o, batches) && (batch != [] ==> BatchFits(o, batch) && Packed(o, batches + [batch]))
      invariant batch == [] ==> i == 0 && batches == [] && Packed(o, batches)
      invariant batchBytes == BATCH_OVERHEAD + Sizes(batch)
    {
      var r := requests[i];
      assert requests[..i + 1] == requests[..i] + [r];
      SizesOne(batch, r);
      SizesOne([], r);
      assert [] + [r] == [r];
      if |batch| != 0 && (|batch| == o.batchRecords || batchBytes + r.size > o.batchBytes) {
        ConcatOne(batches, batch);
        PackedOne(o, batches, batch, r);
        batches := batches + [batch];
        batch := [r];
        batchBytes := BATCH_OVERHEAD + r.size;
      } else {
        if batch == [] { FirstPacked(o, r); } else { PackedGrow(o, batches, batch, r); }
        batch := batch + [r];
        batchBytes := batchBytes + r.size;
      }
    }
    assert requests[..|requests|] == requests;
    if |batch| != 0 {
      ConcatOne(batches, batch);
      batches := batches + [batch];
    }
  }

  lemma SplitBegin(o: Options)
    ensures Concat([]) == [] && Packed(o, []) && Sizes([]) == 0
  {
  }

  lemma FirstPacked(o: Options, r: Request)
    ensures Packed(o, [] + [[r]]) && Packed(o, [] + [[] + [r]])
  {
  }

  // ------------------------------------------------------------------- writer

  datatype Result = Durable | Failed | UnknownOutcome

  datatype Admission = Admitted | TooLarge | MustWait | Backpressure | Refused

  function Ids(s: seq<Request>): seq<nat> { seq(|s|, i requires 0 <= i < |s| => s[i].id) }

  predicate DistinctIds(s: seq<Request>) {
    forall i, j | 0 <= i < j < |s| :: s[i].id != s[j].id
  }

  predicate Answered(results: map<nat, Result>, s: seq<Request>) {
    && (forall i | 0 <= i < |s| :: s[i].id in results)
    && (forall k | k in results :: k in Ids(s))
  }

  /** Every request of the batch has this result. */
  predicate Told(results: map<nat, Result>, s: seq<Request>, result: Result) {
    forall i | 0 <= i < |s| :: s[i].id in results && results[s[i].id] == result
  }

  lemma ToldStays(before: map<nat, Result>, after: map<nat, Result>, s: seq<Request>, result: Result)
    requires Told(before, s, result) && (forall k | k in before :: k in after && after[k] == before[k])
    ensures Told(after, s, result)
  {
  }

  /** Credits are exactly what the unfinished requests hold, and within limits. */
  ghost predicate Balanced(o: Options, bytes: nat, records: nat, credits: nat,
                           reserved: seq<Request>, ring: seq<Request>, held: seq<Request>)
  {
    && bytes == Charges(reserved) + Charges(ring) + Charges(held) <= o.inFlightBytes
    && records == |reserved| + |ring| + |held| <= o.inFlightRecords
    && credits == |reserved| + |ring| <= o.capacity
  }

  predicate AllChargeable(o: Options, s: seq<Request>) {
    forall i | 0 <= i < |s| :: Chargeable(o, s[i])
  }

  /** Whether new requests are let in: not while the store or the partition closes,
      nor once the writer is unavailable. */
  datatype Door = Ajar | Closing | Unavailable

  class Writer {
    const o: Options

    var admittedBytes: nat
    var admittedRecords: nat
    var credits: nat
    var waiting: nat
    var stopped: bool
    var closed: bool
    var door: Door
    var ring: seq<Request>
    var held: seq<Request>
    var results: map<nat, Result>

    /** Admitted but not yet published; published in order; finished in order, as
        the batches written and then whatever a failure cut off; those waiting. */
    ghost var reserved: seq<Request>
    ghost var published: seq<Request>
    ghost var written: seq<seq<Request>>
    ghost var failed: seq<Request>
    ghost var waiters: nat

    ghost function Finished(): seq<Request>
      reads this
    {
      Concat(written) + failed
    }

    ghost predicate Valid()
      reads this
    {
      && o.batchRecords > 0
      && Balanced(o, admittedBytes, admittedRecords, credits, reserved, ring, held)
      && waiting == waiters <= o.waiters
      && published == Finished() + (held + ring)
      && DistinctIds(published + reserved)
      && AllChargeable(o, reserved) && AllChargeable(o, ring) && AllChargeable(o, held)
      && Answered(results, Finished())
      && AllFit(o, written)
      && (failed != [] || closed ==> stopped)
    }

    constructor (o: Options)
      requires o.batchRecords > 0
      ensures Valid() && this.o == o && !stopped && !closed && door == Ajar && published == [] && reserved == []
    {
      this.o := o;
      admittedBytes, admittedRecords, credits, waiting, stopped, closed := 0, 0, 0, 0, false, false;
      ring, held, results, door := [], [], map[], Ajar;
      reserved, published, written, failed, waiters := [], [], [], [], 0;
    }

    /** admit: takes all three credits at once, or none. */
    method Admit(r: Request) returns (a: Admission)
      requires Valid() && Chargeable(o, r) && DistinctIds(published + (reserved + [r]))
      modifies this
      ensures Valid() && published == old(published) && ring == old(ring) && held == old(held)
              && results == old(results)
      ensures a.Admitted? <==> && !closed && door == Ajar && r.charge <= o.inFlightBytes
                               && old(admittedRecords) < o.inFlightRecords
                               && old(admittedBytes) + r.charge <= o.inFlightBytes && old(credits) < o.capacity
      ensures closed == old(closed) && door == old(door) && (a.Refused? <==> closed || door != Ajar)
      ensures a.TooLarge? <==> !a.Refused? && r.charge > o.inFlightBytes
      ensures a.MustWait? ==> old(waiting) < o.waiters
      ensures a.Backpressure? ==> old(waiting) >= o.waiters
      ensures reserved == if a.Admitted? then old(reserved) + [r] else old(reserved)
      ensures waiters == if a.MustWait? then old(waiters) + 1 else old(waiters)
    {
      hide Charges, Concat, Answered, DistinctIds, AllFit;
      if closed || door != Ajar { return Refused; }
      if r.charge > o.inFlightBytes { return TooLarge; }
      if admittedRecords < o.inFlightRecords && admittedBytes <= o.inFlightBytes - r.charge && credits < o.capacity {
        ChargesOne(reserved, r);
        admittedBytes := admittedBytes + r.charge;
        admittedRecords := admittedRecords + 1;
        credits := credits + 1;
        reserved := reserved + [r];
        return Admitted;
      }
      if waiting >= o.waiters { return Backpressure; }
      waiting := waiting + 1;
      waiters := waiters + 1;
      a := MustWait;
    }

    /** The store or the partition begins to close, or the writer fails. */
    method Shut(to: Door)
      requires Valid()
      modifies `door
      ensures Valid() && door == to
    {
      door := to;
    }

    /** A waiter leaves: space, cancellation or close. The clamp never acts. */
    method StopWaiting()
      requires Valid() && waiters > 0
      modifies this
      ensures Valid() && waiting == old(waiting) - 1 && waiters == old(waiters) - 1
      ensures published == old(published) && reserved == old(reserved)
    {
      hide Charges, Concat, Answered, DistinctIds, AllFit;
      waiting := Clamped(waiting, 1);
      waiters := waiters - 1;
    }

    /** releaseReservationLocked: a request that will not be published gives every
        credit back; no clamp acts. */
    method Release(r: Request, ghost i: nat)
      requires Valid() && i < |reserved| && reserved[i] == r
      modifies this
      ensures Valid() && reserved == Without(old(reserved), i) && published == old(published) && results == old(results)
      ensures admittedBytes == old(admittedBytes) - r.charge
      ensures admittedRecords == old(admittedRecords) - 1 && credits == old(credits) - 1
    {
      hide Charges, Concat, Answered, AllFit;
      ChargesWithout(reserved, i);
      DistinctWithout(published, reserved, i);
      credits := Clamped(credits, 1);
      admittedBytes := Clamped(admittedBytes, r.charge);
      admittedRecords := Clamped(admittedRecords, 1);
      reserved := Without(reserved, i);
    }

    /** publish: the request enters the ring behind everything published before. */
    method Publish(r: Request, ghost i: nat)
      requires Valid() && i < |reserved| && reserved[i] == r && !closed
      modifies this
      ensures Valid() && published == old(published) + [r] && ring == old(ring) + [r]
      ensures reserved == Without(old(reserved), i) && results == old(results)
    {
      hide Charges, Concat, Answered, AllFit;
      ChargesWithout(reserved, i);
      ChargesOne(ring, r);
      DistinctMoved(published, reserved, i);
      assert published + [r] == Finished() + (held + (ring + [r]));
      ring := ring + [r];
      published := published + [r];
      reserved := Without(reserved, i);
    }

    /** complete, for a run of requests: each gets its result once and gives back its
        admission; no clamp acts. */
    method CompleteAll(s: seq<Request>, result: Result)
      requires Charges(s) <= admittedBytes && |s| <= admittedRecords
      requires forall i | 0 <= i < |s| :: s[i].id !in results
      requires DistinctIds(s)
      modifies `admittedBytes, `admittedRecords, `results
      ensures admittedBytes == old(admittedBytes) - Charges(s) && admittedRecords == old(admittedRecords) - |s|
      ensures forall k :: k in results <==> k in old(results) || k in Ids(s)
      ensures forall k | k in old(results) :: k in results && results[k] == old(results)[k]
      ensures Told(results, s, result)
    {
      hide Charges;
      ChargesNone();
      for i := 0 to |s|
        invariant admittedBytes == old(admittedBytes) - Charges(s[..i]) && admittedRecords == old(admittedRecords) - i
        invariant forall k :: k in results <==> k in old(results) || k in Ids(s[..i])
        invariant forall k | k in old(results) :: results[k] == old(results)[k]
        invariant forall j | 0 <= j < i :: s[j].id in results && results[s[j].id] == result
        invariant forall j | i <= j < |s| :: s[j].id !in results
      {
        var r := s[i];
        assert s[..i + 1] == s[..i] + [r];
        ChargesOne(s[..i], r);
        ChargesPrefix(s, i + 1);
        IdsOne(s[..i], r);
        if r.id !in results {
          results := results[r.id := result];
          admittedBytes := Clamped(admittedBytes, r.charge);
          admittedRecords := Clamped(admittedRecords, 1);
        }
      }
      assert s[..|s|] == s;
    }

    /** The end of a ring batch: everything held is written, batch by batch, and
        every request learns the outcome of its own batch. */
    method WriteHeld(decide: seq<Request> -> Result)
      requires Valid() && !stopped
      modifies this
      ensures Valid() && !stopped && held == [] && ring == old(ring) && reserved == old(reserved)
              && published == old(published)
      ensures Finished() == old(Finished()) + old(held)
      ensures |old(written)| <= |written| && written[..|old(written)|] == old(written)
      ensures Packed(o, written[|old(written)|..])
      ensures forall k | |old(written)| <= k < |written| :: Told(results, written[k], decide(written[k]))
    {
      hide Charges, Concat, AllFit, Packed, Answered, DistinctIds, Ids, Told, Chargeable;
      var batches := SplitBatches(o, held);
      ghost var all, done := held, written;
      ConcatFacts(o, batches);
      ChargesNone();
      assert Finished() + [] == Finished() && Finished() == Concat(written) && done + [] == done;
      for k := 0 to |batches|
        invariant stopped == old(stopped) && closed == old(closed) && failed == [] && held == all && ring == old(ring)
                  && reserved == old(reserved)
        invariant credits == old(credits) && waiting == old(waiting) && waiters == old(waiters)
                  && published == old(published)
        invariant admittedBytes == old(admittedBytes) - Charges(Concat(batches[..k]))
        invariant admittedRecords == old(admittedRecords) - |Concat(batches[..k])|
        invariant written == done + batches[..k]
        invariant Answered(results, old(Finished()) + Concat(batches[..k]))
        invariant forall j | 0 <= j < k :: Told(results, batches[j], decide(batches[j]))
      {
        var batch := batches[k];
        BatchStep(batches, k, all);
        FreshBatch(results, published, old(Finished()), Concat(batches[..k]), batch, all, ring, reserved);
        ghost var before := results;
        CompleteAll(batch, decide(batch));
        AnsweredMore(before, results, old(Finished()) + Concat(batches[..k]), batch);
        forall j | 0 <= j < k ensures Told(results, batches[j], decide(batches[j])) {
          ToldStays(before, results, batches[j], decide(batches[j]));
        }
        assert old(Finished()) + Concat(batches[..k]) + batch == old(Finished()) + Concat(batches[..k + 1]);
        assert done + batches[..k] + [batch] == done + batches[..k + 1];
        written := written + [batch];
      }
      assert batches[..|batches|] == batches && written[|done|..] == batches;
      ConcatJoin(done, batches);
      FitsJoin(o, done, batches);
      held := [];
      assert Concat(written) + [] == Concat(written);
      assert old(Finished()) + (all + ring) == old(Finished()) + all + ([] + ring);
    }

    /** Handle: takes the next event off the ring, and writes at the end of a batch. */
    method Handle(endOfBatch: bool, decide: seq<Request> -> Result)
      requires Valid() && ring != [] && !stopped
      modifies this
      ensures Valid() && !stopped && ring == old(ring)[1..] && reserved == old(reserved) && published == old(published)
      ensures if endOfBatch then held == [] && Finished() == old(Finished()) + (old(held) + [old(ring)[0]])
              else held == old(held) + [old(ring)[0]] && results == old(results)
    {
      hide Concat, AllFit, Answered, DistinctIds, Charges;
      var r := ring[0];
      RingHead(ring, held);
      assert held + ring == held + [r] + ring[1..];
      ring := ring[1..];
      credits := Clamped(credits, 1);
      held := held + [r];
      if endOfBatch { WriteHeld(decide); }
    }

    /** Answers a run of pending requests with an unknown outcome. */
    method Settle(pending: seq<Request>, ghost rest: seq<Request>)
      requires published == Finished() + (pending + rest) && DistinctIds(published + reserved)
               && Answered(results, Finished())
      requires Charges(pending) <= admittedBytes && |pending| <= admittedRecords
      modifies `admittedBytes, `admittedRecords, `results
      ensures admittedBytes == old(admittedBytes) - Charges(pending)
              && admittedRecords == old(admittedRecords) - |pending|
      ensures Answered(results, Finished() + pending) && Told(results, pending, UnknownOutcome)
    {
      hide Concat, Answered, DistinctIds, Charges, Told, Ids;
      ghost var done, before := Finished(), results;
      assert [] + pending == pending && done + [] == done;
      FreshBatch(results, published, done, [], pending, pending, rest, reserved);
      CompleteAll(pending, UnknownOutcome);
      AnsweredMore(before, results, done, pending);
    }

    /** failPending: the processor stopped, and what it held has an unknown outcome. */
    method FailPending()
      requires Valid() && !stopped
      modifies this
      ensures Valid() && stopped && held == [] && ring == old(ring) && reserved == old(reserved)
              && published == old(published)
      ensures Finished() == old(Finished()) + old(held) && Told(results, old(held), UnknownOutcome)
    {
      hide Concat, AllFit, Answered, DistinctIds, Charges, Told, Chargeable;
      Settle(held, ring);
      assert Concat(written) + [] == Concat(written);
      assert Concat(written) + (held + ring) == Concat(written) + held + ([] + ring);
      failed := held;
      held, stopped := [], true;
      ChargesNone();
    }

    /** drainPending, after the last publisher left: the rest of the ring too. */
    method DrainPending()
      requires Valid() && stopped && held == []
      modifies this
      ensures Valid() && closed && ring == [] && held == [] && reserved == old(reserved) && published == old(published)
      ensures Finished() == published && Told(results, old(ring), UnknownOutcome)
      ensures credits == |reserved| && admittedRecords == |reserved| && admittedBytes == Charges(reserved)
    {
      hide Concat, AllFit, Answered, DistinctIds, Charges, Told, Chargeable;
      assert [] + ring == ring && ring + [] == ring;
      Settle(ring, []);
      credits := Clamped(credits, |ring|);
      Reassociate(Concat(written), failed, ring);
      failed := failed + ring;
      ring, closed := [], true;
      ChargesNone();
      assert [] + [] == held + ring;
    }

    /** Once nothing is admitted any more, every credit is back. */
    lemma DrainedIsZero()
      requires Valid() && reserved == [] && ring == [] && held == []
      ensures admittedBytes == 0 && admittedRecords == 0 && credits == 0 && published == Finished()
    {
    }

    /** Each published request has exactly one result or is still on its way. */
    lemma OneResultEach(i: nat)
      requires Valid() && i < |published|
      ensures published[i].id in results <==> i < |Finished()|
    {
      hide Concat, Charges, AllFit;
      var done := Finished();
      var all := published + reserved;
      assert all[i] == published[i] && forall j | 0 <= j < |done| :: all[j] == done[j] == published[j];
      if i >= |done| {
        assert forall j | 0 <= j < |done| :: Ids(done)[j] != published[i].id;
        assert published[i].id !in Ids(done);
      }
    }
  }

  lemma Reassociate(a: seq<Request>, b: seq<Request>, c: seq<Request>)
    ensures a + b + c == a + (b + c) && a + (b + c) + [] == a + (b + c)
  {
  }

  lemma {:induction false} RingHead(ring: seq<Request>, held: seq<Request>)
    requires ring != []
    ensures Charges(ring) == ring[0].charge + Charges(ring[1..])
            && Charges(held + [ring[0]]) == Charges(held) + ring[0].charge
  {
    assert ring == [ring[0]] + ring[1..];
    ChargesSplit([ring[0]], ring[1..]);
    assert [ring[0]][..0] == [];
    ChargesOne(held, ring[0]);
  }

  lemma ConcatFacts(o: Options, batches: seq<seq<Request>>)
    ensures Concat(batches[..0]) == [] && batches[..0] == []
  {
  }

  lemma {:induction false} ConcatJoin(a: seq<seq<Request>>, b: seq<seq<Request>>)
    ensures Concat(a + b) == Concat(a) + Concat(b)
    decreases b
  {
    if b == [] {
      assert a + b == a;
    } else {
      assert (a + b)[..|a + b| - 1] == a + b[..|b| - 1];
      ConcatJoin(a, b[..|b| - 1]);
    }
  }

  lemma FitsJoin(o: Options, a: seq<seq<Request>>, b: seq<seq<Request>>)
    requires AllFit(o, a) && AllFit(o, b)
    ensures AllFit(o, a + b)
  {
    hide BatchFits;
  }

  /** Batch `k` continues the requests where the earlier batches stopped. */
  lemma {:induction false} BatchStep(batches: seq<seq<Request>>, k: nat, all: seq<Request>)
    requires k < |batches| && Concat(batches) == all
    ensures Concat(batches[..k + 1]) == Concat(batches[..k]) + batches[k]
    ensures Charges(Concat(batches[..k + 1])) == Charges(Concat(batches[..k])) + Charges(batches[k])
    ensures Concat(batches[..k + 1]) <= all && Charges(Concat(batches[..k + 1])) <= Charges(all)
  {
    hide Charges;
    assert batches[..k + 1] == batches[..k] + [batches[k]];
    ConcatOne(batches[..k], batches[k]);
    ChargesSplit(Concat(batches[..k]), batches[k]);
    assert batches == batches[..k + 1] + batches[k + 1..];
    ConcatJoin(batches[..k + 1], batches[k + 1..]);
    ChargesSplit(Concat(batches[..k + 1]), Concat(batches[k + 1..]));
  }

  /** Requests of one batch are answered for the first time. */
  lemma {:induction false} FreshBatch(results: map<nat, Result>, published: seq<Request>, finished: seq<Request>,
                                      front: seq<Request>, batch: seq<Request>, held: seq<Request>, ring: seq<Request>,
                                      reserved: seq<Request>)
    requires published == finished + (held + ring) && DistinctIds(published + reserved)
    requires front + batch <= held && Answered(results, finished + front)
    ensures DistinctIds(batch) && forall i | 0 <= i < |batch| :: batch[i].id !in results
  {
    hide Charges;
    var n, m := |finished|, |front|;
    var all, done := published + reserved, finished + front;
    assert forall j | 0 <= j < |done| :: done[j] == all[j] by {
      assert forall j | 0 <= j < m :: front[j] == (front + batch)[j];
    }
    forall i | 0 <= i < |batch| ensures batch[i] == all[n + m + i] {
      assert batch[i] == (front + batch)[m + i];
    }
    assert forall i, j | 0 <= i < |batch| && 0 <= j < |done| :: batch[i].id != done[j].id;
    forall i | 0 <= i < |batch| ensures batch[i].id !in results {
      assert forall j | 0 <= j < |done| :: Ids(done)[j] == done[j].id;
      assert batch[i].id !in Ids(done);
    }
  }

  lemma AnsweredMore(before: map<nat, Result>, after: map<nat, Result>, done: seq<Request>, batch: seq<Request>)
    requires Answered(before, done)
    requires forall k :: k in after <==> k in before || k in Ids(batch)
    ensures Answered(after, done + batch)
  {
    assert Ids(done + batch) == Ids(done) + Ids(batch);
    forall i | 0 <= i < |done + batch| ensures (done + batch)[i].id in after {
      if i >= |done| { assert Ids(batch)[i - |done|] == batch[i - |done|].id; }
    }
  }

  lemma {:induction false} ChargesNone()
    ensures Charges([]) == 0
  {
  }

  lemma {:induction false} ChargesPrefix(s: seq<Request>, i: nat)
    requires i <= |s|
    ensures Charges(s[..i]) <= Charges(s)
  {
    assert s == s[..i] + s[i..];
    ChargesSplit(s[..i], s[i..]);
  }

  lemma IdsOne(s: seq<Request>, r: Request)
    ensures forall k :: k in Ids(s + [r]) <==> k in Ids(s) || k == r.id
  {
    assert Ids(s + [r]) == Ids(s) + [r.id];
  }

  lemma {:induction false} ChargesOne(s: seq<Request>, r: Request)
    ensures Charges(s + [r]) == Charges(s) + r.charge
  {
    assert (s + [r])[..|s|] == s;
  }

  lemma DistinctWithout(p: seq<Request>, s: seq<Request>, i: nat)
    requires i < |s| && DistinctIds(p + s)
    ensures DistinctIds(p + Without(s, i))
  {
    var t := p + Without(s, i);
    forall a, b | 0 <= a < b < |t| ensures t[a].id != t[b].id {
      var a', b' := if a < |p| + i then a else a + 1, if b < |p| + i then b else b + 1;
      assert t[a] == (p + s)[a'] && t[b] == (p + s)[b'];
    }
  }

  lemma DistinctMoved(p: seq<Request>, s: seq<Request>, i: nat)
    requires i < |s| && DistinctIds(p + s)
    ensures DistinctIds(p + [s[i]] + Without(s, i))
  {
    var t := p + [s[i]] + Without(s, i);
    forall a, b | 0 <= a < b < |t| ensures t[a].id != t[b].id {
      var a' := if a < |p| then a else if a == |p| then |p| + i else if a - 1 < |p| + i then a - 1 else a;
      var b' := if b < |p| then b else if b == |p| then |p| + i else if b - 1 < |p| + i then b - 1 else b;
      assert t[a] == (p + s)[a'] && t[b] == (p + s)[b'] && a' != b';
    }
  }

  // ----------------------------------------------------------------- capacity

  const MAX_IN_FLIGHT_RECORDS: nat := 65_536
  const MAX_INGRESS_SLOTS: nat := 131_072

  function Pow2(n: nat): (p: nat)
    ensures p > 0
  {
    if n == 0 then 1 else 2 * Pow2(n - 1)
  }

  /** ingressCapacity: the least power of two that holds two admission windows. */
  method IngressCapacity(limit: nat) returns (r: Option<nat>, ghost n: nat)
    ensures r.Some? <==> 0 < limit <= MAX_IN_FLIGHT_RECORDS
    ensures r.Some? ==> r.value == Pow2(n) && 2 * limit <= r.value < 4 * limit
  {
    n := 0;
    if limit == 0 || limit > MAX_IN_FLIGHT_RECORDS { return None, n; }
    var needed := limit * 2;
    if needed > MAX_INGRESS_SLOTS { return None, n; }
    var capacity := 1;
    while capacity < needed
      invariant capacity == Pow2(n) && capacity < 2 * needed
      decreases needed - capacity
    {
      capacity := capacity * 2;
      n := n + 1;
    }
    r := Some(capacity);
  }

  /** With such a ring the publication credit never is what holds a request back. */
  lemma CreditsNeverBlock(o: Options, bytes: nat, records: nat, credits: nat, reserved: seq<Request>,
                          ring: seq<Request>, held: seq<Request>)
    requires Balanced(o, bytes, records, credits, reserved, ring, held) && 2 * o.inFlightRecords <= o.capacity
    ensures records < o.inFlightRecords ==> credits < o.capacity
  {
  }
}
