/** Three ways to the same state: live application, full replay, and a
    checkpoint followed by the suffix of the logs. */
module Restart {
  import opened Base
  import Catalog
  import CC = CatalogCheckpoint
  import CatalogHistory
  import O = Offsets
  import OC = OffsetsCheckpoint
  import OH = OffsetsHistory

  /** A pair of logs that replays from the beginning. */
  ghost predicate Accepted(store: Id, c: seq<Catalog.Event>, o: seq<O.Event>) {
    && Catalog.ReplayFrom(Catalog.EMPTY, 0, c).Some?
    && Catalog.StoreOf(Catalog.ReplayFrom(Catalog.EMPTY, 0, c).value) == store
    && store != 0
    && O.ReplayFrom(O.Fresh(store), 0, o, Catalog.ReplayFrom(Catalog.EMPTY, 0, c).value).Some?
  }

  ghost function CatalogOf(c: seq<Catalog.Event>): Catalog.State
    requires Catalog.ReplayFrom(Catalog.EMPTY, 0, c).Some?
  {
    Catalog.ReplayFrom(Catalog.EMPTY, 0, c).value
  }

  ghost function OffsetsOf(store: Id, c: seq<Catalog.Event>, o: seq<O.Event>): O.State
    requires Accepted(store, c, o)
  {
    O.ReplayFrom(O.Fresh(store), 0, o, CatalogOf(c)).value
  }

  lemma AcceptedValid(store: Id, c: seq<Catalog.Event>, o: seq<O.Event>)
    requires Accepted(store, c, o)
    ensures CatalogHistory.Valid(CatalogOf(c)) && CatalogOf(c).revision == |c|
    ensures CatalogOf(c).init.Some?
    ensures OH.Valid(OffsetsOf(store, c, o), CatalogOf(c)) && OffsetsOf(store, c, o).revision == |o|
    ensures OffsetsOf(store, c, o).store == store
  {
    hide CatalogHistory.Valid, O.Transition, Catalog.Transition;
    CatalogHistory.EmptyValid();
    CatalogHistory.ReplayValid(Catalog.EMPTY, c);
    OH.ReplayValid(O.Fresh(store), o, CatalogOf(c));
  }

  /** The prefix and the whole of a catalog log: the longer extends the shorter. */
  lemma {:induction false} PrefixExtends(c: seq<Catalog.Event>, i: nat)
    requires i <= |c| && Catalog.ReplayFrom(Catalog.EMPTY, 0, c).Some?
    ensures Catalog.ReplayFrom(Catalog.EMPTY, 0, c[..i]).Some?
    ensures CatalogHistory.Valid(CatalogOf(c[..i])) && CatalogOf(c[..i]).revision == i
    ensures Catalog.ReplayFrom(CatalogOf(c[..i]), i, c[i..]) == Some(CatalogOf(c))
    ensures CatalogHistory.Extends(CatalogOf(c[..i]), CatalogOf(c))
  {
    hide CatalogHistory.Valid, Catalog.Transition, CatalogHistory.Extends;
    assert c == c[..i] + c[i..];
    Catalog.ReplaySplit(Catalog.EMPTY, 0, c[..i], c[i..]);
    CatalogHistory.EmptyValid();
    CatalogHistory.ReplayValid(Catalog.EMPTY, c[..i]);
    CatalogHistory.ReplayValid(CatalogOf(c[..i]), c[i..]);
  }

  /** Offsets records accepted under a catalog replay the same under every later
      one. */
  lemma {:induction false} ReplayStable(s: O.State, offset: nat, o: seq<O.Event>, c: Catalog.State, d: Catalog.State)
    requires CatalogHistory.Extends(c, d) && O.ReplayFrom(s, offset, o, c).Some?
    ensures O.ReplayFrom(s, offset, o, d) == O.ReplayFrom(s, offset, o, c)
    decreases o
  {
    hide O.Transition, CatalogHistory.Extends;
    if o != [] {
      OH.NamesReachedRevision(s, offset, o[0], c);
      OH.TransitionStable(s, offset, o[0], c, d);
      ReplayStable(O.Transition(s, offset, o[0], c).value, offset + 1, o[1..], c, d);
    }
  }

  lemma {:induction false} PrefixAccepted(store: Id, c: seq<Catalog.Event>, o: seq<O.Event>, j: nat)
    requires Accepted(store, c, o) && j <= |o|
    ensures Accepted(store, c, o[..j])
    ensures O.ReplayFrom(OffsetsOf(store, c, o[..j]), j, o[j..], CatalogOf(c)) == Some(OffsetsOf(store, c, o))
  {
    hide O.Transition, Catalog.Transition;
    assert o == o[..j] + o[j..];
    O.ReplaySplit(O.Fresh(store), 0, o[..j], o[j..], CatalogOf(c));
  }

  // ------------------------------------------------- checkpoint plus suffix

  ghost predicate Checkpointed(store: Id, c: seq<Catalog.Event>, o: seq<O.Event>) {
    && Accepted(store, c, o)
    && CC.Encode(CatalogOf(c)).Some? && |CatalogOf(c).topics| <= Catalog.MAX_TOPIC_PARTITIONS
    && OC.Encode(OffsetsOf(store, c, o)).Some? && OC.CountsOk(OffsetsOf(store, c, o))
  }

  /** The recovery of a checkpointed prefix: decode the catalog, replay its
      suffix, then decode the offsets against that catalog and replay theirs. */
  ghost function Recover(catalog: CC.Payload, catalogNext: u64, offsets: OC.Payload, offsetsNext: u64, store: Id,
                         catalogSuffix: seq<Catalog.Event>, offsetsSuffix: seq<O.Event>): Option<OH.System>
  {
    match CC.Decode(catalog, catalogNext, store)
    case None => None
    case Some(base) =>
      match Catalog.ReplayFrom(base, base.revision, catalogSuffix)
      case None => None
      case Some(cat) =>
        match OC.Decode(offsets, offsetsNext, store, cat)
        case None => None
        case Some(start) =>
          match O.ReplayFrom(start, start.revision, offsetsSuffix, cat)
          case None => None
          case Some(offs) => Some(OH.System(cat, offs))
  }

  /** Both checkpoint files of the prefixes decode to the prefix states, the
      offsets one against the final catalog. */
  lemma CheckpointDecodes(store: Id, c: seq<Catalog.Event>, o: seq<O.Event>, i: nat, j: nat)
    requires Accepted(store, c, o) && i <= |c| && j <= |o|
    requires Checkpointed(store, c[..i], o[..j])
    ensures CatalogOf(c[..i]).revision == i && OffsetsOf(store, c[..i], o[..j]).revision == j
    ensures var cat := CatalogOf(c[..i]);
            CC.Decode(CC.Encode(cat).value, cat.revision, store) == Some(cat)
    ensures var offs := OffsetsOf(store, c[..i], o[..j]);
            OC.Decode(OC.Encode(offs).value, offs.revision, store, CatalogOf(c)) == Some(offs)
  {
    hide CC.Encode, CC.Decode, OC.Encode, OC.Decode, OC.CountsOk, Catalog.ReplayFrom, O.ReplayFrom,
         CatalogHistory.Valid, CatalogHistory.Extends, OH.Valid;
    PrefixExtends(c, i);
    AcceptedValid(store, c[..i], o[..j]);
    CC.RoundTrip(CatalogOf(c[..i]));
    OH.ValidStable(OffsetsOf(store, c[..i], o[..j]), CatalogOf(c[..i]), CatalogOf(c));
    OC.RoundTrip(OffsetsOf(store, c[..i], o[..j]), CatalogOf(c));
  }

  /** For every accepted pair of logs and every split of each, recovering the
      checkpoint of the prefixes and replaying the suffixes is full replay. */
  lemma CheckpointPlusSuffix(store: Id, c: seq<Catalog.Event>, o: seq<O.Event>, i: nat, j: nat)
    requires Accepted(store, c, o) && i <= |c| && j <= |o|
    requires Checkpointed(store, c[..i], o[..j])
    ensures CatalogOf(c[..i]).revision == i && OffsetsOf(store, c[..i], o[..j]).revision == j
    ensures var cat, offs := CatalogOf(c[..i]), OffsetsOf(store, c[..i], o[..j]);
            Recover(CC.Encode(cat).value, cat.revision, OC.Encode(offs).value, offs.revision, store, c[i..], o[j..])
            == Some(OH.System(CatalogOf(c), OffsetsOf(store, c, o)))
  {
    hide CC.Encode, CC.Decode, OC.Encode, OC.Decode, OC.CountsOk, Catalog.ReplayFrom, O.ReplayFrom,
         CatalogHistory.Valid, CatalogHistory.Extends, OH.Valid;
    PrefixExtends(c, i);
    CheckpointDecodes(store, c, o, i, j);
    ReplayStable(O.Fresh(store), 0, o[..j], CatalogOf(c[..i]), CatalogOf(c));
    PrefixAccepted(store, c, o, j);
  }

  /** Whole live histories: at every moment of an interleaved run, recovering the
      checkpoint of that moment and replaying what came later gives the final
      live state, which is also what replaying both logs from the start gives. */
  lemma {:induction false} LiveEqualsRecovery(store: Id, before: seq<OH.SystemEvent>, after: seq<OH.SystemEvent>)
    requires var start := OH.System(Catalog.EMPTY, O.Fresh(store));
             && OH.Live(start, before).Some?
             && OH.Live(OH.Live(start, before).value, after).Some?
    requires var mid := OH.Live(OH.System(Catalog.EMPTY, O.Fresh(store)), before).value;
             && mid.cat.init.Some? && Catalog.StoreOf(mid.cat) == store
             && CC.Encode(mid.cat).Some? && |mid.cat.topics| <= Catalog.MAX_TOPIC_PARTITIONS
             && OC.Encode(mid.offs).Some? && OC.CountsOk(mid.offs)
    ensures var mid := OH.Live(OH.System(Catalog.EMPTY, O.Fresh(store)), before).value;
            Recover(CC.Encode(mid.cat).value, mid.cat.revision, OC.Encode(mid.offs).value, mid.offs.revision, store,
                    OH.CatalogLog(after), OH.OffsetsLog(after)) == OH.Live(mid, after)
    ensures var mid := OH.Live(OH.System(Catalog.EMPTY, O.Fresh(store)), before).value;
            var final := OH.Live(mid, after).value;
            && Catalog.ReplayFrom(Catalog.EMPTY, 0, OH.CatalogLog(before) + OH.CatalogLog(after)) == Some(final.cat)
            && O.ReplayFrom(O.Fresh(store), 0, OH.OffsetsLog(before) + OH.OffsetsLog(after), final.cat) ==
               Some(final.offs)
  {
    hide CC.Encode, CC.Decode, OC.Encode, OC.Decode, OC.CountsOk, Catalog.Transition, O.Transition,
         CatalogHistory.Valid, CatalogHistory.Extends, OH.Valid, OH.LiveStep, OH.CatalogLog, OH.OffsetsLog;
    var start := OH.System(Catalog.EMPTY, O.Fresh(store));
    var mid := OH.Live(start, before).value;
    var final := OH.Live(mid, after).value;
    CatalogHistory.EmptyValid();
    StartValid(store);
    OH.LiveValid(start, before);
    OH.LiveValid(mid, after);
    OH.RestartEqualsLive(start, before);
    OH.RestartEqualsLive(mid, after);
    CC.RoundTrip(mid.cat);
    OH.ValidStable(mid.offs, mid.cat, final.cat);
    OC.RoundTrip(mid.offs, final.cat);
    Revisions(store, before);
    Catalog.ReplaySplit(Catalog.EMPTY, 0, OH.CatalogLog(before), OH.CatalogLog(after));
    ReplayStable(O.Fresh(store), 0, OH.OffsetsLog(before), mid.cat, final.cat);
    O.ReplaySplit(O.Fresh(store), 0, OH.OffsetsLog(before), OH.OffsetsLog(after), final.cat);
  }

  lemma StartValid(store: Id)
    ensures OH.ValidSystem(OH.System(Catalog.EMPTY, O.Fresh(store)))
  {
  }

  lemma {:induction false} Revisions(store: Id, events: seq<OH.SystemEvent>)
    requires OH.Live(OH.System(Catalog.EMPTY, O.Fresh(store)), events).Some?
    ensures var s := OH.Live(OH.System(Catalog.EMPTY, O.Fresh(store)), events).value;
            s.cat.revision == |OH.CatalogLog(events)| && s.offs.revision == |OH.OffsetsLog(events)|
  {
    hide Catalog.Transition, O.Transition, OH.LiveStep, CatalogHistory.Valid, OH.Valid;
    var start := OH.System(Catalog.EMPTY, O.Fresh(store));
    StartValid(store);
    OH.LiveValid(start, events);
    OH.RestartEqualsLive(start, events);
    var s := OH.Live(start, events).value;
    CatalogHistory.EmptyValid();
    CatalogHistory.ReplayValid(Catalog.EMPTY, OH.CatalogLog(events));
    FreshValid(store, s.cat);
    OH.ReplayValid(O.Fresh(store), OH.OffsetsLog(events), s.cat);
  }

  lemma FreshValid(store: Id, cat: Catalog.State)
    ensures OH.Valid(O.Fresh(store), cat)
  {
  }

  // ---------------------------------------------------------- growing a log

  lemma CatalogGrows(store: Id, c: seq<Catalog.Event>, o: seq<O.Event>, e: Catalog.Event)
    requires Accepted(store, c, o) && |c| < MAX_OFFSET && Catalog.Transition(CatalogOf(c), |c|, e).Some?
    ensures Accepted(store, c + [e], o)
    ensures CatalogOf(c + [e]) == Catalog.Transition(CatalogOf(c), |c|, e).value
    ensures OffsetsOf(store, c + [e], o) == OffsetsOf(store, c, o)
  {
    hide CatalogHistory.Valid, Catalog.Transition, O.Transition, OH.Valid;
    Catalog.ReplaySplit(Catalog.EMPTY, 0, c, [e]);
    AcceptedValid(store, c, o);
    CatalogHistory.TransitionExtends(CatalogOf(c), e);
    ReplayStable(O.Fresh(store), 0, o, CatalogOf(c), CatalogOf(c + [e]));
  }

  lemma OffsetsGrow(store: Id, c: seq<Catalog.Event>, o: seq<O.Event>, e: O.Event)
    requires Accepted(store, c, o) && |o| < MAX_OFFSET
    requires O.Transition(OffsetsOf(store, c, o), |o|, e, CatalogOf(c)).Some?
    ensures Accepted(store, c, o + [e])
    ensures OffsetsOf(store, c, o + [e]) == O.Transition(OffsetsOf(store, c, o), |o|, e, CatalogOf(c)).value
  {
    hide O.Transition, Catalog.ReplayFrom;
    O.ReplaySplit(O.Fresh(store), 0, o, [e], CatalogOf(c));
  }

  /** A record accepted under a catalog prefix is accepted under the whole. */
  lemma OffsetsGrowLater(store: Id, c: seq<Catalog.Event>, d: seq<Catalog.Event>, o: seq<O.Event>, e: O.Event)
    requires Accepted(store, c, o) && Accepted(store, d, o) && c <= d && |o| < MAX_OFFSET
    requires O.Transition(OffsetsOf(store, c, o), |o|, e, CatalogOf(c)).Some?
    ensures Accepted(store, d, o + [e])
    ensures OffsetsOf(store, d, o + [e]) == O.Transition(OffsetsOf(store, c, o), |o|, e, CatalogOf(c)).value
  {
    hide O.Transition, Catalog.ReplayFrom, CatalogHistory.Extends;
    assert d[..|c|] == c;
    PrefixExtends(d, |c|);
    ReplayStable(O.Fresh(store), 0, o, CatalogOf(c), CatalogOf(d));
    OH.NamesReachedRevision(OffsetsOf(store, c, o), |o|, e, CatalogOf(c));
    OH.TransitionStable(OffsetsOf(store, c, o), |o|, e, CatalogOf(c), CatalogOf(d));
    OffsetsGrow(store, d, o, e);
  }
}
