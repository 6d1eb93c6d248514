/** Retention: which prefix of sealed segments is retired, and why the catalog
    accepts every proposal. */
module Retention {
  import opened Base
  import opened Wire
  import Catalog
  type Anchor = Catalog.Anchor
  type Policy = Catalog.Config
  type Mask = Catalog.Mask

  /** A segment as retention sees it. */
  datatype Piece = Piece(base: u64, end: u64, size: u64, records: nat, maxTime: i64, anchor: Anchor)

  const HEADER_BYTES: u64 := 72

  /** Adjacent pieces meet, only the last may be empty, and identities differ. */
  predicate PieceOk(p: Piece) {
    && p.base <= p.end <= MAX_OFFSET && p.size >= HEADER_BYTES && Catalog.ValidAnchor(p.anchor)
    && (p.records == 0 <==> p.base == p.end)
  }

  predicate Follows(a: Piece, b: Piece) { a.base < a.end == b.base }

  predicate PiecesOk(pieces: seq<Piece>) {
    && pieces != []
    && (forall i | 0 <= i < |pieces| :: PieceOk(pieces[i]))
    && (forall i | 0 < i < |pieces| :: Follows(pieces[i - 1], pieces[i]))
    && (forall i, j | 0 <= i < j < |pieces| :: pieces[i].anchor.id != pieces[j].anchor.id)
  }

  // -------------------------------------------------------------- eligibility

  /** elapsedAtLeast, in the unsigned arithmetic it runs in. */
  predicate ElapsedAtLeast(now: i64, timestamp: i64, duration: u64) {
    timestamp != MIN_INT64 && timestamp <= now && (AsU64(now) - AsU64(timestamp)) % TWO_64 >= duration
  }

  /** The unsigned subtraction is the true distance, whatever the signs. */
  lemma ElapsedExact(now: i64, timestamp: i64, duration: u64)
    ensures ElapsedAtLeast(now, timestamp, duration) <==>
            timestamp != MIN_INT64 && timestamp <= now && now - timestamp >= duration
  {
    var d := AsU64(now) - AsU64(timestamp);
    if timestamp <= now {
      assert 0 <= now - timestamp < TWO_64;
      assert d == now - timestamp || d == now - timestamp - TWO_64;
      assert d % TWO_64 == now - timestamp;
    }
  }

  function Total(pieces: seq<Piece>): nat {
    if pieces == [] then 0 else Total(pieces[..|pieces| - 1]) + pieces[|pieces| - 1].size
  }

  lemma {:induction false} TotalSplit(a: seq<Piece>, b: seq<Piece>)
    ensures Total(a + b) == Total(a) + Total(b)
    decreases b
  {
    if b == [] {
      assert a + b == a;
    } else {
      assert (a + b)[..|a + b| - 1] == a + b[..|b| - 1];
      TotalSplit(a, b[..|b| - 1]);
    }
  }

  predicate NeedsRoll(active: Piece, total: nat, policy: Policy, now: i64) {
    || (policy.mask.size && total > policy.retentionBytes)
    || (policy.mask.time && ElapsedAtLeast(now, active.maxTime, policy.maxSegmentAgeMillis))
  }

  predicate TimeEligible(p: Piece, policy: Policy, now: i64) {
    policy.mask.time && ElapsedAtLeast(now, p.maxTime, policy.retentionMillis)
  }

  predicate SizeEligible(total: nat, policy: Policy) {
    policy.mask.size && total > policy.retentionBytes
  }

  predicate Eligible(p: Piece, total: nat, policy: Policy, now: i64) {
    TimeEligible(p, policy, now) || SizeEligible(total, policy)
  }

  const MAX_RETIRED_PER_EVENT: nat :=
    if (16 * 1024 * 1024 - 28 - 8 - 16 - 160) / 72 > Catalog.MAX_TOPIC_PARTITIONS then Catalog.MAX_TOPIC_PARTITIONS
    else (16 * 1024 * 1024 - 28 - 8 - 16 - 160) / 72

  /** Bytes still retained once the first `k` pieces are gone. */
  function Remaining(pieces: seq<Piece>, k: nat): nat
    requires k <= |pieces|
  {
    Total(pieces[k..])
  }

  /** The first `k` pieces are retired, and the next one is not: each retired piece
      was eligible against what was still retained then, the active piece is never
      among them, and the scan stopped only at a limit or at an ineligible piece. */
  predicate RetiresPrefix(pieces: seq<Piece>, k: nat, policy: Policy, now: i64) {
    && k < |pieces| && k <= MAX_RETIRED_PER_EVENT
    && (forall i | 0 <= i < k :: Eligible(pieces[i], Remaining(pieces, i), policy, now))
    && (k + 1 < |pieces| && k < MAX_RETIRED_PER_EVENT ==> !Eligible(pieces[k], Remaining(pieces, k), policy, now))
  }

  /** The reasons some retired piece had. */
  predicate ReasonIs(reason: Mask, pieces: seq<Piece>, k: nat, policy: Policy, now: i64)
    requires k <= |pieces|
  {
    && (reason.time <==> exists i :: 0 <= i < k && TimeEligible(pieces[i], policy, now))
    && (reason.size <==> exists i :: 0 <= i < k && SizeEligible(Remaining(pieces, i), policy))
  }

  datatype Proposal = Proposal(retired: seq<Piece>, retained: seq<Piece>, newL: u64, anchor: Anchor,
                               reason: Mask, remaining: u64)

  /** retainedSegmentBytes */
  method RetainedBytes(pieces: seq<Piece>) returns (r: Option<u64>)
    ensures r == if Total(pieces) <= MAX_U64 then Some(Total(pieces)) else None
  {
    var total := 0;
    for i := 0 to |pieces|
      invariant total == Total(pieces[..i]) <= MAX_U64
    {
      assert pieces[..i + 1][..i] == pieces[..i];
      assert pieces == pieces[..i + 1] + pieces[i + 1..];
      TotalSplit(pieces[..i + 1], pieces[i + 1..]);
      if pieces[i].size > MAX_U64 - total { return None; }
      total := total + pieces[i].size;
    }
    assert pieces[..|pieces|] == pieces;
    r := Some(total);
  }

  lemma RemainingNext(pieces: seq<Piece>, k: nat)
    requires k < |pieces|
    ensures Remaining(pieces, k + 1) == Remaining(pieces, k) - pieces[k].size
  {
    assert pieces[k..] == [pieces[k]] + pieces[k + 1..];
    TotalSplit([pieces[k]], pieces[k + 1..]);
    assert [pieces[k]][..0] == [];
  }

  /** How many pieces the scan retires, going on from `k`. */
  function RetireCount(pieces: seq<Piece>, k: nat, policy: Policy, now: i64): nat
    requires k <= |pieces|
    decreases |pieces| - k
  {
    if k + 1 < |pieces| && k < MAX_RETIRED_PER_EVENT && Eligible(pieces[k], Remaining(pieces, k), policy, now)
    then RetireCount(pieces, k + 1, policy, now) else k
  }

  function ReasonOf(pieces: seq<Piece>, k: nat, policy: Policy, now: i64): Mask
    requires k <= |pieces|
  {
    if k == 0 then Catalog.Mask(false, false)
    else
      var r := ReasonOf(pieces, k - 1, policy, now);
      Catalog.Mask(r.time || TimeEligible(pieces[k - 1], policy, now), r.size
                   || SizeEligible(Remaining(pieces, k - 1), policy))
  }

  function ProposalOf(pieces: seq<Piece>, policy: Policy, now: i64): Option<Proposal>
    requires pieces != [] && Total(pieces) <= MAX_U64
  {
    var k := RetireCount(pieces, 0, policy, now);
    CountBound(pieces, 0, policy, now);
    RemainingBound(pieces, k);
    if k == 0 then None
    else Some(Proposal(pieces[..k], pieces[k..], pieces[k - 1].end, pieces[k].anchor, ReasonOf(pieces, k, policy, now),
                       Remaining(pieces, k)))
  }

  lemma {:induction false} CountBound(pieces: seq<Piece>, k: nat, policy: Policy, now: i64)
    requires k < |pieces|
    ensures k <= RetireCount(pieces, k, policy, now) < |pieces|
    decreases |pieces| - k
  {
    if RetireCount(pieces, k, policy, now) != k { CountBound(pieces, k + 1, policy, now); }
  }

  lemma {:induction false} RemainingBound(pieces: seq<Piece>, k: nat)
    requires k <= |pieces|
    ensures Remaining(pieces, k) <= Total(pieces)
  {
    assert pieces == pieces[..k] + pieces[k..];
    TotalSplit(pieces[..k], pieces[k..]);
  }

  lemma {:induction false} CountPrefix(pieces: seq<Piece>, k: nat, policy: Policy, now: i64)
    requires k < |pieces| && k <= MAX_RETIRED_PER_EVENT
    requires forall i | 0 <= i < k :: Eligible(pieces[i], Remaining(pieces, i), policy, now)
    ensures RetiresPrefix(pieces, RetireCount(pieces, k, policy, now), policy, now)
    decreases |pieces| - k
  {
    hide Eligible, Remaining;
    if k + 1 < |pieces| && k < MAX_RETIRED_PER_EVENT && Eligible(pieces[k], Remaining(pieces, k), policy, now) {
      CountPrefix(pieces, k + 1, policy, now);
    }
  }

  lemma {:induction false} ReasonOfIs(pieces: seq<Piece>, k: nat, policy: Policy, now: i64)
    requires k <= |pieces|
    ensures ReasonIs(ReasonOf(pieces, k, policy, now), pieces, k, policy, now)
  {
    hide TimeEligible, SizeEligible, Remaining;
    if k > 0 {
      ReasonOfIs(pieces, k - 1, policy, now);
      ReasonNext(pieces, k - 1, policy, now);
    }
  }

  lemma ReasonNext(pieces: seq<Piece>, k: nat, policy: Policy, now: i64)
    requires k < |pieces|
    ensures (exists i :: 0 <= i < k + 1 && TimeEligible(pieces[i], policy, now)) <==>
            (exists i :: 0 <= i < k && TimeEligible(pieces[i], policy, now)) || TimeEligible(pieces[k], policy, now)
    ensures (exists i :: 0 <= i < k + 1 && SizeEligible(Remaining(pieces, i), policy)) <==>
            (exists i :: 0 <= i < k && SizeEligible(Remaining(pieces, i), policy))
                || SizeEligible(Remaining(pieces, k), policy)
  {
    hide TimeEligible, SizeEligible, Remaining;
  }

  /** What a proposal is: a nonempty prefix without the active piece, as long as it
      can be, for exactly the reasons its pieces had, and nothing else retired. */
  lemma {:induction false} ProposalMeans(pieces: seq<Piece>, policy: Policy, now: i64)
    requires pieces != [] && Total(pieces) <= MAX_U64
    ensures var r := ProposalOf(pieces, policy, now);
            && (r.None? <==> RetiresPrefix(pieces, 0, policy, now))
            && (r.Some? ==>
                  && r.value.retired != [] && r.value.retained != [] && r.value.retired + r.value.retained == pieces
                  && RetiresPrefix(pieces, |r.value.retired|, policy, now)
                  && r.value.newL == pieces[|r.value.retired| - 1].end && r.value.anchor == r.value.retained[0].anchor
                  && ReasonIs(r.value.reason, pieces, |r.value.retired|, policy, now)
                  && r.value.remaining == Total(r.value.retained))
  {
    hide Eligible, TimeEligible, SizeEligible;
    var k := RetireCount(pieces, 0, policy, now);
    CountBound(pieces, 0, policy, now);
    CountPrefix(pieces, 0, policy, now);
    ReasonOfIs(pieces, k, policy, now);
    if k > 0 { assert Eligible(pieces[0], Remaining(pieces, 0), policy, now); }
  }

  /** planRetentionLocked after its roll: retires eligible pieces from the front. */
  method Plan(pieces: seq<Piece>, policy: Policy, now: i64, total: u64) returns (r: Option<Proposal>)
    requires pieces != [] && total == Total(pieces)
    ensures r == ProposalOf(pieces, policy, now)
  {
    hide Total, TimeEligible, SizeEligible;
    var left := total;
    var retired: seq<Piece> := [];
    var reason := Catalog.Mask(false, false);
    assert pieces[0..] == pieces;
    var k := 0;
    while k + 1 < |pieces| && k < MAX_RETIRED_PER_EVENT
      invariant 0 <= k < |pieces| && retired == pieces[..k] && left == Remaining(pieces, k) <= total
      invariant RetireCount(pieces, 0, policy, now) == RetireCount(pieces, k, policy, now)
      invariant reason == ReasonOf(pieces, k, policy, now)
    {
      var timeEligible, sizeEligible := TimeEligible(pieces[k], policy, now), SizeEligible(left, policy);
      if !timeEligible && !sizeEligible { break; }
      if timeEligible { reason := reason.(time := true); }
      if sizeEligible { reason := reason.(size := true); }
      RemainingNext(pieces, k);
      left := left - pieces[k].size;
      retired := retired + [pieces[k]];
      k := k + 1;
    }
    if |retired| == 0 { return None; }
    r := Some(Proposal(retired, pieces[k..], pieces[k - 1].end, pieces[k].anchor, reason, left));
  }

  // -------------------------------------------------------------------- event

  function RetiredEvents(pieces: seq<Piece>): seq<Catalog.Retired> {
    seq(|pieces|, i requires 0 <= i < |pieces| =>
        Catalog.Retired(pieces[i].base, pieces[i].end, pieces[i].size, pieces[i].anchor))
  }

  function EventOf(store: Id, next: u64, key: TopicKey, oldL: u64, logEnd: u64, p: Proposal): Catalog.Event {
    Catalog.LogStartAdvanced(store, next, key, oldL, p.newL, logEnd, p.anchor, p.reason, RetiredEvents(p.retired))
  }

  lemma {:induction false} PiecesIncrease(pieces: seq<Piece>, i: nat, j: nat)
    requires PiecesOk(pieces) && i < j < |pieces|
    ensures pieces[i].end <= pieces[j].base && pieces[i].base < pieces[i].end
    decreases j
  {
    hide PieceOk;
    assert Follows(pieces[j - 1], pieces[j]);
    assert Follows(pieces[i], pieces[i + 1]);
    if i < j - 1 { PiecesIncrease(pieces, i, j - 1); }
  }

  lemma {:induction false} PrefixSpans(pieces: seq<Piece>, k: nat)
    requires PiecesOk(pieces) && 0 < k < |pieces|
    ensures Catalog.Spans(RetiredEvents(pieces[..k]), pieces[0].base, pieces[k - 1].end)
    decreases k
  {
    var events := RetiredEvents(pieces[..k]);
    PiecesIncrease(pieces, k - 1, k);
    assert PieceOk(pieces[k - 1]);
    if k == 1 {
      assert events[1..] == [];
    } else {
      PrefixSpans(pieces, k - 1);
      assert Follows(pieces[k - 2], pieces[k - 1]);
      assert events == RetiredEvents(pieces[..k - 1]) + [events[k - 1]];
      Catalog.SpansAppend(RetiredEvents(pieces[..k - 1]), pieces[0].base, pieces[k - 2].end, pieces[k - 1].end,
                          events[k - 1]);
    }
  }

  lemma PrefixPayload(pieces: seq<Piece>, k: nat)
    requires PiecesOk(pieces) && 0 < k < |pieces|
    ensures var e := RetiredEvents(pieces[..k]);
            && (forall i | 0 <= i < |e| :: e[i].base < e[i].end && Catalog.ValidAnchor(e[i].anchor))
            && (forall i | 0 < i < |e| :: e[i - 1].base < e[i].base)
            && Catalog.FreshIdentities(e, pieces[k].anchor.id)
  {
    var e := RetiredEvents(pieces[..k]);
    forall i | 0 <= i < |e| ensures e[i].base < e[i].end && Catalog.ValidAnchor(e[i].anchor) {
      assert PieceOk(pieces[i]);
      PiecesIncrease(pieces, i, i + 1);
    }
    forall i | 0 < i < |e| ensures e[i - 1].base < e[i].base {
      PiecesIncrease(pieces, i - 1, i);
    }
  }

  lemma ReasonWithin(reason: Mask, pieces: seq<Piece>, k: nat, policy: Policy, now: i64)
    requires 0 < k <= |pieces| && ReasonIs(reason, pieces, k, policy, now)
    requires Eligible(pieces[0], Remaining(pieces, 0), policy, now)
    ensures Catalog.WithinMask(reason, policy.mask) && !Catalog.NoReason(reason)
  {
  }

  lemma LastEnd(pieces: seq<Piece>, k: nat)
    requires PiecesOk(pieces) && 0 < k < |pieces|
    ensures pieces[0].base < pieces[k - 1].end <= pieces[|pieces| - 1].end
  {
    PiecesIncrease(pieces, 0, k);
    PiecesIncrease(pieces, k - 1, k);
    assert Follows(pieces[k - 1], pieces[k]);
    var n := |pieces| - 1;
    assert PieceOk(pieces[n]);
    if k < n { PiecesIncrease(pieces, k - 1, n); }
    if k - 1 > 0 { PiecesIncrease(pieces, 0, k - 1); }
  }

  /** The catalog's partition starts at the first piece and names it as its anchor. */
  predicate Anchored(p: Catalog.Partition, pieces: seq<Piece>, logEnd: u64) {
    && pieces != [] && pieces[0].base == p.retainedL && pieces[0].anchor == p.current
    && pieces[|pieces| - 1].end == logEnd && p.maxRetirementH <= logEnd
  }

  /** Every event the planner proposes is accepted by the catalog, and afterwards
      the first retained piece is the catalog's anchor again. */
  lemma {:induction false} ProposalAccepted(cat: Catalog.State, key: TopicKey, pieces: seq<Piece>, logEnd: u64,
                                            now: i64, offset: Offset)
    requires Catalog.StoreOf(cat) != 0 && ValidKey(key)
    requires key.topic in cat.topics && key.partition < |cat.topics[key.topic].partitions|
    requires PiecesOk(pieces) && Total(pieces) <= MAX_U64
    requires Anchored(cat.topics[key.topic].partitions[key.partition], pieces, logEnd)
    ensures var policy := cat.topics[key.topic].partitions[key.partition].config;
            var r := ProposalOf(pieces, policy, now);
            r.Some? ==>
              var e := EventOf(Catalog.StoreOf(cat), offset, key, pieces[0].base, logEnd, r.value);
              && Catalog.Transition(cat, offset, e).Some?
              && (var t := Catalog.Transition(cat, offset, e).value.topics[key.topic];
                  && key.partition < |t.partitions| && Anchored(t.partitions[key.partition], r.value.retained, logEnd))
              && PiecesOk(r.value.retained)
  {
    hide Eligible, ReasonIs, Catalog.Spans, Catalog.FreshIdentities, ProposalOf, Remaining, Total;
    var policy := cat.topics[key.topic].partitions[key.partition].config;
    ProposalMeans(pieces, policy, now);
    var r := ProposalOf(pieces, policy, now);
    if r.Some? {
      var k := |r.value.retired|;
      assert r.value.retired == pieces[..k] && r.value.retained == pieces[k..];
      assert Eligible(pieces[0], Remaining(pieces, 0), policy, now);
      PrefixSpans(pieces, k);
      PrefixPayload(pieces, k);
      ReasonWithin(r.value.reason, pieces, k, policy, now);
      LastEnd(pieces, k);
      SuffixOk(pieces, k);
      assert PieceOk(pieces[k]);
      var e := EventOf(Catalog.StoreOf(cat), offset, key, pieces[0].base, logEnd, r.value);
      assert e.retired[0].anchor == pieces[0].anchor;
      assert Catalog.ValidPayload(e);
      assert Catalog.AdvanceAllowed(cat.topics[key.topic].partitions[key.partition], e);
    }
  }

  lemma SuffixOk(pieces: seq<Piece>, k: nat)
    requires PiecesOk(pieces) && 0 < k < |pieces|
    ensures PiecesOk(pieces[k..]) && pieces[k..][0].base == pieces[k - 1].end
  {
    hide PieceOk;
    var s := pieces[k..];
    forall i | 0 < i < |s| ensures Follows(s[i - 1], s[i]) { assert Follows(pieces[k + i - 1], pieces[k + i]); }
    assert Follows(pieces[k - 1], pieces[k]);
  }
}
