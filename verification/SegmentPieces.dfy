/** The segment list of a partition as retention sees it: every state the append
    engine reaches is one the planner and its safety argument are about, and each
    of its changes is one of theirs. */
module SegmentPieces {
  import opened Base
  import opened Codec
  import opened Batches
  import opened Segments
  import opened PartitionLog
  import Catalog
  import E = PartitionEngine
  import R = Retention
  import RS = RetentionSafety

  /** The header digest of a segment; the results hold for any that is not zero. */
  datatype Hasher = Hasher(f: Format, digest: Bytes -> Hash)

  function AnchorOf(h: Hasher, header: SegmentHeader): Catalog.Anchor {
    Catalog.Anchor(header.id, h.digest(HeaderImage(h.f, header)))
  }

  predicate Measured(g: Segment) { g.end <= MAX_OFFSET && g.size <= MAX_U64 }

  predicate AllMeasured(segments: seq<Segment>) {
    forall i | 0 <= i < |segments| :: Measured(segments[i])
  }

  function PieceOf(h: Hasher, g: Segment): R.Piece
    requires Measured(g)
  {
    R.Piece(g.header.base, g.end, g.size, g.records, g.maxTime, AnchorOf(h, g.header))
  }

  function PiecesOf(h: Hasher, segments: seq<Segment>): seq<R.Piece>
    requires AllMeasured(segments)
  {
    seq(|segments|, i requires 0 <= i < |segments| => PieceOf(h, segments[i]))
  }

  /** Random identities differ and no header hashes to zero. */
  ghost predicate Identified(h: Hasher, segments: seq<Segment>) {
    && (forall i | 0 <= i < |segments| :: AnchorOf(h, segments[i].header).hash != 0)
    && (forall i, j | 0 <= i < j < |segments| :: segments[i].header.id != segments[j].header.id)
  }

  lemma SegmentAt(c: E.Config, s: E.State, i: nat)
    requires E.Inv(c, s) && i < |s.segments|
    ensures |s.segments| == |s.log| && SegOk(c.f, s.log[i], c.topic, c.partition)
    ensures var g := s.segments[i];
            && Measured(g) && g.header == s.log[i].header && g.header.id != 0 && g.header.base <= g.end
            && g.size >= SEGMENT_HEADER_BYTES && (g.records == 0 <==> g.header.base == g.end)
            && g.end == EndOf(s.log[i]) && (g.records == 0 <==> s.log[i].batches == [])
  {
    hide E.Bounded, E.DiskOk, E.HistoryOk, Contiguous, HeaderImage, View;
    var seg := s.log[i];
    assert s.segments[i] == View(c.f, seg);
    E.ViewFacts(c.f, seg, c.topic, c.partition);
    ViewHeader(c.f, seg);
    ContiguousEnd(c.f, seg.batches, c.topic, c.partition, seg.header.base);
    SizeAt(c, s, i);
  }

  lemma ViewHeader(f: Format, s: Seg)
    ensures View(f, s).header == s.header
    ensures |SegBytes(f, s)| >= SEGMENT_HEADER_BYTES
  {
  }

  lemma SizeAt(c: E.Config, s: E.State, i: nat)
    requires E.Inv(c, s) && i < |s.segments|
    ensures s.segments[i].size <= MAX_U64
  {
    hide E.ChainOk, E.DiskOk, E.HistoryOk;
  }

  lemma MeasuredAll(c: E.Config, s: E.State)
    requires E.Inv(c, s)
    ensures AllMeasured(s.segments) && s.segments != [] && s.segments[|s.segments| - 1].end == s.logEnd
  {
    hide E.Inv, SegOk, EndOf;
    E.Shape(c, s);
    forall i | 0 <= i < |s.segments| ensures Measured(s.segments[i]) { SegmentAt(c, s, i); }
  }

  /** Every reachable segment list is a list of pieces. */
  lemma PiecesRefine(c: E.Config, s: E.State, h: Hasher)
    requires E.Inv(c, s) && Identified(h, s.segments)
    ensures AllMeasured(s.segments) && s.segments != []
    ensures R.PiecesOk(PiecesOf(h, s.segments)) && RS.Last(PiecesOf(h, s.segments)).end == s.logEnd
  {
    hide E.Inv, PieceOf, R.PieceOk, R.Follows, Measured, Identified;
    MeasuredAll(c, s);
    var pieces := PiecesOf(h, s.segments);
    forall i | 0 <= i < |pieces| ensures R.PieceOk(pieces[i]) { PieceAt(c, s, i, h); }
    forall i | 0 < i < |pieces| ensures R.Follows(pieces[i - 1], pieces[i]) { PieceFollows(c, s, i, h); }
    PieceIds(h, s.segments);
  }

  lemma PieceAt(c: E.Config, s: E.State, i: nat, h: Hasher)
    requires E.Inv(c, s) && i < |s.segments| && Identified(h, s.segments) && Measured(s.segments[i])
    ensures R.PieceOk(PieceOf(h, s.segments[i]))
  {
    hide E.Inv, SegOk, HeaderImage;
    SegmentAt(c, s, i);
  }

  lemma PieceFollows(c: E.Config, s: E.State, i: nat, h: Hasher)
    requires E.Inv(c, s) && 0 < i < |s.segments| && Measured(s.segments[i - 1]) && Measured(s.segments[i])
    ensures R.Follows(PieceOf(h, s.segments[i - 1]), PieceOf(h, s.segments[i]))
  {
    hide E.Inv, SegOk, AnchorOf;
    SegmentAt(c, s, i - 1);
    SegmentAt(c, s, i);
    NeighboursMeet(c, s, i);
  }

  lemma PieceIds(h: Hasher, segments: seq<Segment>)
    requires AllMeasured(segments) && Identified(h, segments)
    ensures var p := PiecesOf(h, segments);
            && (forall i | 0 <= i < |p| :: p[i].end == segments[i].end)
            && (forall i, j | 0 <= i < j < |p| :: p[i].anchor.id != p[j].anchor.id)
  {
    hide HeaderImage;
  }

  lemma NeighboursMeet(c: E.Config, s: E.State, i: nat)
    requires E.Inv(c, s) && 0 < i < |s.log|
    ensures EndOf(s.log[i - 1]) == s.log[i].header.base && s.log[i - 1].batches != []
  {
    hide E.DiskOk, E.HistoryOk, E.Bounded, SegOk;
    assert Meets(s.log[i - 1], s.log[i]);
  }

  /** Retiring segments drops that many pieces from the front. */
  lemma RetireRefines(s: E.State, n: nat, h: Hasher)
    requires n <= |s.segments| && n <= |s.files| && n <= |s.log| && AllMeasured(s.segments)
    ensures AllMeasured(E.AfterRetire(s, n).segments)
    ensures PiecesOf(h, E.AfterRetire(s, n).segments) == PiecesOf(h, s.segments)[n..]
  {
  }

  /** A roll adds an empty piece at the log end. */
  lemma RollRefines(c: E.Config, s: E.State, id: Id, h: Hasher)
    requires s.logEnd <= MAX_OFFSET && AllMeasured(s.segments)
    ensures AllMeasured(E.AfterRoll(c, s, id).segments)
    ensures PiecesOf(h, E.AfterRoll(c, s, id).segments) ==
            RS.Rolled(PiecesOf(h, s.segments), s.logEnd, AnchorOf(h, E.NewHeader(c, s.logEnd, id)))
  {
    hide HeaderImage;
  }

  /** An acknowledged batch grows the last piece by its records, its bytes and its
      newest timestamp. */
  lemma WriteRefines(s: E.State, batch: Batch, encoded: Bytes, h: Hasher)
    requires s.files != [] && s.segments != [] && s.log != [] && AllMeasured(s.segments)
    requires |batch.records| <= MAX_BATCH_RECORDS && 32 <= |encoded| <= MAX_BATCH_BYTES
    requires E.Active(s).end + |batch.records| <= MAX_OFFSET && E.Active(s).size + |encoded| <= MAX_U64
    ensures AllMeasured(E.AfterWrite(s, batch, encoded).segments)
    ensures var pieces := PiecesOf(h, s.segments);
            PiecesOf(h, E.AfterWrite(s, batch, encoded).segments) ==
            pieces[..|pieces| - 1] + [RS.Grown(RS.Last(pieces), |batch.records|, |encoded|,
                                               MaxTimestamp(batch.records, MIN_INT64))]
  {
    hide HeaderImage, MaxTimestamp;
    NewestJoins(batch.records, E.Active(s).maxTime);
  }

  lemma {:induction false} NewestJoins(records: seq<Record>, acc: i64)
    ensures var newest := MaxTimestamp(records, MIN_INT64);
            MaxTimestamp(records, acc) == if newest > acc then newest else acc
    decreases records
  {
    if records != [] {
      var first := records[0].timestamp;
      NewestJoins(records[1..], if first > acc then first else acc);
      NewestJoins(records[1..], if first > MIN_INT64 then first else MIN_INT64);
    }
  }
}
