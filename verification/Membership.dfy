/** Group membership requests: how a caller's member list becomes canonical, and
    how canonical members receive sessions. */
module Membership {
  import opened Base
  import opened Sorting
  import opened Offsets
  import opened GroupBodies

  const MAX_ASSIGNMENT_MEMBERS: int := 4096
  const MAX_SUBSCRIPTION_KEYS: int := 65_536

  type Keys = seq<TopicKey>

  // --------------------------------------------------------- sorting with ties

  /** An order in which elements may tie. */
  ghost predicate StrictWeak<T(!new)>(less: (T, T) -> bool) {
    && (forall a, b :: less(a, b) ==> !less(b, a))
    && (forall a, b, c :: less(a, b) ==> less(a, c) || less(c, b))
  }

  lemma TotalIsWeak<T(!new)>(less: (T, T) -> bool)
    requires StrictTotal(less)
    ensures StrictWeak(less)
  {
    forall a, b | less(a, b) ensures !less(b, a) {
      assert less(b, a) ==> less(a, a);
    }
    forall a, b, c | less(a, b) ensures less(a, c) || less(c, b) {
      if a != c && !less(a, c) { assert less(c, a); }
    }
  }

  predicate Ordered<T>(s: seq<T>, less: (T, T) -> bool) {
    forall i, j | 0 <= i < j < |s| :: !less(s[j], s[i])
  }

  lemma FirstIsLeast<T(!new)>(a: seq<T>, b: seq<T>, less: (T, T) -> bool)
    requires StrictTotal(less) && Ordered(a, less)
    requires a != [] && b != [] && multiset(a) == multiset(b)
    ensures !less(b[0], a[0])
  {
    assert b[0] in multiset(b);
    var j :| 0 <= j < |a| && a[j] == b[0];
  }

  /** Two ordered lists with the same elements are the same list. */
  lemma {:induction false} OrderedUnique<T(!new)>(a: seq<T>, b: seq<T>, less: (T, T) -> bool)
    requires StrictTotal(less) && Ordered(a, less) && Ordered(b, less)
    requires multiset(a) == multiset(b)
    ensures a == b
  {
    assert |a| == |multiset(a)| && |b| == |multiset(b)|;
    if a != [] {
      FirstIsLeast(a, b, less);
      FirstIsLeast(b, a, less);
      assert a[0] == b[0];
      assert a == [a[0]] + a[1..] && b == [b[0]] + b[1..];
      assert multiset(a[1..]) == multiset(a) - multiset{a[0]};
      assert multiset(b[1..]) == multiset(b) - multiset{b[0]};
      OrderedUnique(a[1..], b[1..], less);
    }
  }

  lemma InsertedAt<T(!new)>(s: seq<T>, x: T, less: (T, T) -> bool, a: nat, b: nat)
    requires StrictWeak(less) && Ordered(s, less) && a < b <= |s|
    ensures |Insert(s, x, less)| == |s| + 1
    ensures !less(Insert(s, x, less)[b], Insert(s, x, less)[a])
  {
    var i := InsertAt(s, x, less);
    var r := Insert(s, x, less);
    if a == i {
      assert r[b] == s[b - 1] && !less(s[i], x);
      assert i == b - 1 || !less(s[b - 1], s[i]);
    } else if b == i {
      assert r[a] == s[a];
    } else {
      var a', b' := if a < i then a else a - 1, if b < i then b else b - 1;
      assert r[a] == s[a'] && r[b] == s[b'] && a' < b';
    }
  }

  lemma InsertOrdered<T(!new)>(s: seq<T>, x: T, less: (T, T) -> bool)
    requires StrictWeak(less) && Ordered(s, less)
    ensures Ordered(Insert(s, x, less), less)
    ensures multiset(Insert(s, x, less)) == multiset(s) + multiset{x}
  {
    hide StrictWeak;
    var i := InsertAt(s, x, less);
    assert s == s[..i] + s[i..];
    forall a, b | 0 <= a < b < |Insert(s, x, less)| ensures !less(Insert(s, x, less)[b], Insert(s, x, less)[a]) {
      InsertedAt(s, x, less, a, b);
    }
  }

  method SortTies<T(!new)>(s: seq<T>, less: (T, T) -> bool) returns (r: seq<T>)
    requires StrictWeak(less)
    ensures Ordered(r, less) && multiset(r) == multiset(s)
  {
    r := [];
    for i := 0 to |s|
      invariant Ordered(r, less) && multiset(r) == multiset(s[..i])
    {
      InsertOrdered(r, s[i], less);
      assert s[..i + 1] == s[..i] + [s[i]];
      r := Insert(r, s[i], less);
    }
    assert s[..|s|] == s;
  }

  // ------------------------------------------------------------ member order

  /** Key lists compare entry by entry, and a proper prefix comes first. */
  predicate KeysLess(a: Keys, b: Keys) {
    if a == [] then b != []
    else if b == [] then false
    else KeyLess(a[0], b[0]) || (a[0] == b[0] && KeysLess(a[1..], b[1..]))
  }

  lemma {:induction false} KeysIrreflexive(a: Keys)
    ensures !KeysLess(a, a)
  {
    if a != [] { KeysIrreflexive(a[1..]); }
  }

  lemma {:induction false} KeysTotal(a: Keys, b: Keys)
    requires a != b
    ensures KeysLess(a, b) || KeysLess(b, a)
  {
    if a != [] && b != [] && a[0] == b[0] {
      assert a == [a[0]] + a[1..] && b == [b[0]] + b[1..];
      KeysTotal(a[1..], b[1..]);
    }
  }

  lemma {:induction false} KeysTransitive(a: Keys, b: Keys, c: Keys)
    requires KeysLess(a, b) && KeysLess(b, c)
    ensures KeysLess(a, c)
  {
    if a != [] && a[0] == b[0] && b[0] == c[0] {
      KeysTransitive(a[1..], b[1..], c[1..]);
    }
  }

  lemma KeysOrder()
    ensures StrictTotal(KeysLess)
  {
    forall a ensures !KeysLess(a, a) { KeysIrreflexive(a); }
    forall a, b | a != b ensures KeysLess(a, b) || KeysLess(b, a) { KeysTotal(a, b); }
    forall a, b, c | KeysLess(a, b) && KeysLess(b, c) ensures KeysLess(a, c) { KeysTransitive(a, b, c); }
  }

  // ------------------------------------------------------------ canonical form

  predicate Distinct<T(==)>(s: seq<T>) {
    forall i, j | 0 <= i < j < |s| :: s[i] != s[j]
  }

  function KeysOf(specs: seq<Keys>): set<TopicKey> {
    if specs == [] then {} else KeysOf(specs[..|specs| - 1]) + Elements(specs[|specs| - 1])
  }

  /** Every key may be subscribed to, and no key is named twice. */
  predicate Disjoint(specs: seq<Keys>) {
    && (forall i | 0 <= i < |specs| :: Distinct(specs[i]) && forall k | k in specs[i] :: UserKey(k))
    && (forall i, j | 0 <= i < j < |specs| :: DisjointKeys(specs[i], specs[j]))
  }

  predicate Admitted(specs: seq<Keys>) {
    && 0 < |specs| <= MAX_ASSIGNMENT_MEMBERS
    && Disjoint(specs)
    && |KeysOf(specs)| <= MAX_SUBSCRIPTION_KEYS
  }

  ghost function SortedForm(keys: Keys): Keys {
    KeyOrder();
    Listing(Elements(keys), KeyLess)
  }

  ghost function SortedForms(specs: seq<Keys>): seq<Keys> {
    seq(|specs|, i requires 0 <= i < |specs| => SortedForm(specs[i]))
  }

  /** The same members, up to the order of members and of their keys. */
  ghost predicate Equivalent(a: seq<Keys>, b: seq<Keys>) {
    multiset(SortedForms(a)) == multiset(SortedForms(b))
  }

  ghost predicate CanonicalOf(members: seq<Keys>, specs: seq<Keys>) {
    Ordered(members, KeysLess) && multiset(members) == multiset(SortedForms(specs))
  }

  /** Two requests have the same canonical form exactly when they are equivalent,
      so comparing canonical forms decides whether a live snapshot is reused. */
  lemma CanonicalDecides(a: seq<Keys>, canonA: seq<Keys>, b: seq<Keys>, canonB: seq<Keys>)
    requires CanonicalOf(canonA, a) && CanonicalOf(canonB, b)
    ensures canonA == canonB <==> Equivalent(a, b)
  {
    hide KeysLess;
    KeysOrder();
    if Equivalent(a, b) { OrderedUnique(canonA, canonB, KeysLess); }
  }

  lemma {:induction false} KeysOfHas(specs: seq<Keys>, k: TopicKey)
    ensures k in KeysOf(specs) <==> exists i :: 0 <= i < |specs| && k in specs[i]
  {
    if specs != [] {
      var n := |specs| - 1;
      KeysOfHas(specs[..n], k);
      if k in KeysOf(specs[..n]) {
        var i :| 0 <= i < n && k in specs[..n][i];
        assert k in specs[i];
      } else if k in Elements(specs[n]) {
        assert k in specs[n];
      }
      if i :| 0 <= i < |specs| && k in specs[i] {
        if i < n { assert k in specs[..n][i]; }
      }
    }
  }

  lemma DisjointStep(specs: seq<Keys>, i: nat)
    requires i < |specs| && Disjoint(specs[..i])
    ensures Disjoint(specs[..i + 1]) <==>
            && Distinct(specs[i]) && (forall k | k in specs[i] :: UserKey(k))
            && forall k | k in specs[i] :: k !in KeysOf(specs[..i])
  {
    hide UserKey, Distinct;
    var front, all := specs[..i], specs[..i + 1];
    assert all[i] == specs[i] && forall j | 0 <= j < i :: front[j] == all[j];
    forall k ensures k in KeysOf(front) <==> exists j :: 0 <= j < |front| && k in front[j] {
      KeysOfHas(front, k);
    }
    assert (forall k | k in specs[i] :: k !in KeysOf(front)) <==>
           (forall j | 0 <= j < i :: DisjointKeys(all[j], all[i]));
  }

  lemma {:induction false} DistinctCount<T(!new)>(s: seq<T>)
    ensures Distinct(s) <==> forall x :: multiset(s)[x] <= 1
  {
    if s != [] {
      var n := |s| - 1;
      var front, last := s[..n], s[n];
      DistinctCount(front);
      assert s == front + [last];
      if Distinct(s) {
        assert last !in front;
        assert multiset(front)[last] == 0;
      } else if Distinct(front) {
        var i, j :| 0 <= i < j < |s| && s[i] == s[j];
        assert j == n;
        assert front[i] == last;
        assert multiset(s)[last] == 2;
      } else {
        var x :| multiset(front)[x] > 1;
        assert multiset(s)[x] > 1;
      }
    }
  }

  lemma DistinctSorted<T(!new)>(a: seq<T>, b: seq<T>)
    requires multiset(a) == multiset(b)
    ensures Distinct(a) <==> Distinct(b)
    ensures Elements(a) == Elements(b)
  {
    DistinctCount(a);
    DistinctCount(b);
    forall k ensures k in a <==> k in b {
      assert k in a <==> k in multiset(a);
      assert k in b <==> k in multiset(b);
    }
  }

  lemma NextAscends(s: Keys, i: nat)
    requires Ordered(s, KeyLess) && i < |s| && Ascending(s[..i], KeyLess)
    requires i > 0 ==> s[i - 1] != s[i]
    ensures Ascending(s[..i + 1], KeyLess)
  {
    KeyOrder();
    forall a | 0 <= a < i ensures KeyLess(s[a], s[i]) {
      assert KeyLess(s[i - 1], s[i]);
      if a < i - 1 { assert KeyLess(s[..i][a], s[..i][i - 1]); }
    }
  }

  lemma AscendingDistinct(s: Keys)
    requires Ascending(s, KeyLess)
    ensures Distinct(s)
  {
  }

  method AllUserKeys(spec: Keys) returns (ok: bool)
    ensures ok <==> forall k | k in spec :: UserKey(k)
  {
    hide UserKey;
    for i := 0 to |spec|
      invariant forall j | 0 <= j < i :: UserKey(spec[j])
    {
      if !UserKey(spec[i]) {
        assert spec[i] in spec;
        return false;
      }
    }
    ok := true;
  }

  predicate Claimable(keys: Keys, claimed: set<TopicKey>) {
    && Distinct(keys)
    && (forall k | k in keys :: k !in claimed)
    && |claimed + Elements(keys)| <= MAX_SUBSCRIPTION_KEYS
  }

  lemma ElementsStep(keys: Keys, i: nat)
    requires i < |keys|
    ensures Elements(keys[..i + 1]) == Elements(keys[..i]) + {keys[i]}
    ensures Elements(keys[..i + 1]) <= Elements(keys)
  {
    assert keys[..i + 1] == keys[..i] + [keys[i]];
  }

  /** The first `i` sorted keys have been claimed. */
  ghost predicate ClaimedUpTo(sorted: Keys, claimed: set<TopicKey>, i: nat, keys: set<TopicKey>)
    requires i <= |sorted|
  {
    && keys == claimed + Elements(sorted[..i]) && |keys| <= MAX_SUBSCRIPTION_KEYS
    && Ascending(sorted[..i], KeyLess)
    && forall j | 0 <= j < i :: sorted[j] !in claimed
  }

  lemma ClaimNone(sorted: Keys, claimed: set<TopicKey>)
    requires |claimed| <= MAX_SUBSCRIPTION_KEYS
    ensures ClaimedUpTo(sorted, claimed, 0, claimed)
  {
  }

  lemma ClaimTwice(sorted: Keys, claimed: set<TopicKey>, i: nat, keys: set<TopicKey>)
    requires i < |sorted| && ClaimedUpTo(sorted, claimed, i, keys)
    requires sorted[i] in keys || (i > 0 && sorted[i - 1] == sorted[i])
    ensures !Claimable(sorted, claimed)
  {
    if sorted[i] !in claimed && !(i > 0 && sorted[i - 1] == sorted[i]) {
      assert sorted[i] in sorted[..i];
      var j :| 0 <= j < i && sorted[j] == sorted[i];
    }
  }

  lemma ClaimNext(sorted: Keys, claimed: set<TopicKey>, i: nat, keys: set<TopicKey>)
    requires Ordered(sorted, KeyLess) && i < |sorted| && ClaimedUpTo(sorted, claimed, i, keys)
    requires sorted[i] !in keys && (i > 0 ==> sorted[i - 1] != sorted[i])
    ensures |keys + {sorted[i]}| > MAX_SUBSCRIPTION_KEYS ==> !Claimable(sorted, claimed)
    ensures |keys + {sorted[i]}| <= MAX_SUBSCRIPTION_KEYS ==> ClaimedUpTo(sorted, claimed, i + 1, keys + {sorted[i]})
  {
    hide KeyLess, Distinct, Ascending, Ordered, Elements;
    ElementsStep(sorted, i);
    NextAscends(sorted, i);
    SubsetSize(keys + {sorted[i]}, claimed + Elements(sorted));
  }

  lemma ClaimAll(sorted: Keys, claimed: set<TopicKey>, keys: set<TopicKey>)
    requires ClaimedUpTo(sorted, claimed, |sorted|, keys)
    ensures Claimable(sorted, claimed) && Ascending(sorted, KeyLess) && keys == claimed + Elements(sorted)
  {
    assert sorted[..|sorted|] == sorted;
    AscendingDistinct(sorted);
  }

  /** Claims sorted keys one by one. */
  method ClaimSorted(sorted: Keys, claimed: set<TopicKey>) returns (ok: bool, keys: set<TopicKey>)
    requires Ordered(sorted, KeyLess) && |claimed| <= MAX_SUBSCRIPTION_KEYS
    ensures ok <==> Claimable(sorted, claimed)
    ensures ok ==> Ascending(sorted, KeyLess) && keys == claimed + Elements(sorted)
  {
    hide Ordered, Ascending, Claimable, ClaimedUpTo;
    keys := claimed;
    ClaimNone(sorted, claimed);
    for i := 0 to |sorted|
      invariant ClaimedUpTo(sorted, claimed, i, keys)
    {
      var key := sorted[i];
      if i > 0 && sorted[i - 1] == key {
        ClaimTwice(sorted, claimed, i, keys);
        return false, keys;
      }
      if key in keys {
        ClaimTwice(sorted, claimed, i, keys);
        return false, keys;
      }
      ClaimNext(sorted, claimed, i, keys);
      keys := keys + {key};
      if |keys| > MAX_SUBSCRIPTION_KEYS { return false, keys; }
    }
    ClaimAll(sorted, claimed, keys);
    ok := true;
  }

  lemma ClaimableSorted(spec: Keys, sorted: Keys, claimed: set<TopicKey>)
    requires multiset(spec) == multiset(sorted)
    ensures Claimable(spec, claimed) <==> Claimable(sorted, claimed)
    ensures Elements(spec) == Elements(sorted)
  {
    DistinctSorted(spec, sorted);
    assert forall k :: k in spec <==> k in Elements(spec);
    assert forall k :: k in sorted <==> k in Elements(sorted);
  }

  /** Reads one member's keys: legal, distinct and unclaimed, then sorted. */
  method ReadMember(spec: Keys, claimed: set<TopicKey>) returns (r: Option<Keys>, keys: set<TopicKey>)
    requires |claimed| <= MAX_SUBSCRIPTION_KEYS
    ensures r.Some? <==> (forall k | k in spec :: UserKey(k)) && Claimable(spec, claimed)
    ensures r.Some? ==> r.value == SortedForm(spec) && keys == claimed + Elements(spec)
  {
    hide UserKey, KeyLess, StrictTotal, StrictWeak, Listing, Claimable;
    var legal := AllUserKeys(spec);
    if !legal { return None, claimed; }
    KeyOrder();
    TotalIsWeak(KeyLess);
    var sorted := SortTies(spec, KeyLess);
    ClaimableSorted(spec, sorted, claimed);
    var ok;
    ok, keys := ClaimSorted(sorted, claimed);
    if !ok { return None, keys; }
    ListingUnique(sorted, SortedForm(spec), KeyLess);
    r := Some(sorted);
  }

  /** Keys of the members before `i` are legal, unrepeated and within the limit. */
  predicate Readable(specs: seq<Keys>) {
    Disjoint(specs) && |KeysOf(specs)| <= MAX_SUBSCRIPTION_KEYS
  }

  lemma ReadableStep(specs: seq<Keys>, i: nat)
    requires i < |specs| && Readable(specs[..i])
    ensures Readable(specs[..i + 1]) <==>
            (forall k | k in specs[i] :: UserKey(k)) && Claimable(specs[i], KeysOf(specs[..i]))
    ensures KeysOf(specs[..i + 1]) == KeysOf(specs[..i]) + Elements(specs[i])
    ensures Readable(specs) ==> Readable(specs[..i + 1])
  {
    hide Disjoint, UserKey, Distinct;
    DisjointStep(specs, i);
    PrefixAdmitted(specs, i + 1);
    assert specs[..i + 1][..i] == specs[..i];
  }

  method ReadMembers(specs: seq<Keys>) returns (r: Option<seq<Keys>>, keys: set<TopicKey>)
    ensures r.Some? <==> Readable(specs)
    ensures r.Some? ==> r.value == SortedForms(specs) && keys == KeysOf(specs)
  {
    hide UserKey, SortedForm, Disjoint, Claimable, KeysOf;
    keys := {};
    var members := [];
    EmptyReadable();
    for i := 0 to |specs|
      invariant |members| == i && forall j | 0 <= j < i :: members[j] == SortedForm(specs[j])
      invariant Readable(specs[..i]) && keys == KeysOf(specs[..i])
    {
      ReadableStep(specs, i);
      assert |keys| <= MAX_SUBSCRIPTION_KEYS;
      var member;
      member, keys := ReadMember(specs[i], keys);
      if member.None? { return None, keys; }
      members := members + [member.value];
    }
    assert specs[..|specs|] == specs;
    r := Some(members);
  }

  lemma EmptyReadable()
    ensures Readable([]) && KeysOf([]) == {}
  {
  }

  /** canonicalGroupMembers: refuses exactly the requests outside the limits or
      with a repeated key, and otherwise returns the canonical form. */
  method CanonicalMembers(specs: seq<Keys>) returns (r: Option<seq<Keys>>, keys: set<TopicKey>)
    ensures r.Some? <==> Admitted(specs)
    ensures r.Some? ==> CanonicalOf(r.value, specs) && keys == KeysOf(specs)
  {
    hide KeysLess, StrictTotal, StrictWeak, Disjoint, SortedForms;
    if |specs| == 0 || |specs| > MAX_ASSIGNMENT_MEMBERS { return None, {}; }
    var members;
    members, keys := ReadMembers(specs);
    if members.None? { return None, keys; }
    KeysOrder();
    TotalIsWeak(KeysLess);
    var sorted := SortTies(members.value, KeysLess);
    r := Some(sorted);
  }

  lemma {:induction false} PrefixAdmitted(specs: seq<Keys>, i: nat)
    requires i <= |specs|
    ensures Disjoint(specs) ==> Disjoint(specs[..i])
    ensures |KeysOf(specs[..i])| <= |KeysOf(specs)|
  {
    hide UserKey, Distinct, DisjointKeys;
    forall k | k in KeysOf(specs[..i]) ensures k in KeysOf(specs) {
      KeysOfHas(specs[..i], k);
      var j :| 0 <= j < i && k in specs[..i][j];
      assert k in specs[j];
      KeysOfHas(specs, k);
    }
    SubsetSize(KeysOf(specs[..i]), KeysOf(specs));
  }

  // ---------------------------------------------------------------- sessions

  predicate SessionLess(a: Member, b: Member) {
    a.session < b.session
  }

  ghost function Zipped(canonical: seq<Keys>, sessions: seq<Id>): seq<Member>
    requires |sessions| == |canonical|
  {
    seq(|canonical|, i requires 0 <= i < |canonical| => Member(sessions[i], canonical[i]))
  }

  lemma SessionOrder()
    ensures StrictWeak(SessionLess)
  {
  }

  lemma Collision(sorted: seq<Member>, canonical: seq<Keys>, sessions: seq<Id>, i: nat)
    requires |sessions| == |canonical| && multiset(sorted) == multiset(Zipped(canonical, sessions))
    requires 0 < i < |sorted| && sorted[i - 1].session == sorted[i].session
    ensures !Distinct(sessions)
  {
    var z := Zipped(canonical, sessions);
    DistinctSorted(sorted, z);
    if sorted[i - 1] == sorted[i] {
      var a, b :| 0 <= a < b < |z| && z[a] == z[b];
      assert sessions[a] == z[a].session && sessions[b] == z[b].session;
    } else {
      assert sorted[i - 1] in Elements(sorted) && sorted[i] in Elements(sorted);
      var a :| 0 <= a < |z| && z[a] == sorted[i - 1];
      var b :| 0 <= b < |z| && z[b] == sorted[i];
      assert sessions[a] == z[a].session && sessions[b] == z[b].session;
    }
  }

  lemma {:induction false} Chain(s: seq<Member>, a: nat, b: nat)
    requires a < b < |s| && forall j | 1 <= j < |s| :: s[j - 1].session < s[j].session
    ensures s[a].session < s[b].session
  {
    if a + 1 < b { Chain(s, a, b - 1); }
  }

  /** prepareGroupMembers: attaches one fresh session to each canonical member,
      orders by session and refuses a collision. */
  method PrepareMembers(canonical: seq<Keys>, sessions: seq<Id>) returns (r: Option<seq<Member>>)
    requires |sessions| == |canonical|
    ensures r.Some? <==> Distinct(sessions)
    ensures r.Some? ==> Ascending(r.value, SessionLess) && multiset(r.value) == multiset(Zipped(canonical, sessions))
  {
    hide StrictWeak, Distinct;
    var members := [];
    for i := 0 to |canonical|
      invariant |members| == i && forall j | 0 <= j < i :: members[j] == Member(sessions[j], canonical[j])
    {
      members := members + [Member(sessions[i], canonical[i])];
    }
    assert members == Zipped(canonical, sessions);
    SessionOrder();
    var sorted := SortTies(members, SessionLess);
    var i := 1;
    while i < |sorted|
      invariant 1 <= i
      invariant forall j | 1 <= j < i && j < |sorted| :: sorted[j - 1].session < sorted[j].session
    {
      if sorted[i - 1].session == sorted[i].session {
        Collision(sorted, canonical, sessions, i);
        return None;
      }
      assert !SessionLess(sorted[i], sorted[i - 1]);
      i := i + 1;
    }
    forall a, b | 0 <= a < b < |sorted| ensures SessionLess(sorted[a], sorted[b]) { Chain(sorted, a, b); }
    NoCollision(sorted, canonical, sessions);
    r := Some(sorted);
  }

  lemma NoCollision(sorted: seq<Member>, canonical: seq<Keys>, sessions: seq<Id>)
    requires |sessions| == |canonical| && multiset(sorted) == multiset(Zipped(canonical, sessions))
    requires Ascending(sorted, SessionLess)
    ensures Distinct(sessions)
  {
    var z := Zipped(canonical, sessions);
    DistinctSorted(sorted, z);
    forall a, b | 0 <= a < b < |sessions| ensures sessions[a] != sessions[b] {
      assert z[a] != z[b];
      assert z[a] in Elements(z) && z[b] in Elements(z);
      var i :| 0 <= i < |sorted| && sorted[i] == z[a];
      var j :| 0 <= j < |sorted| && sorted[j] == z[b];
      assert SessionLess(sorted[i], sorted[j]) || SessionLess(sorted[j], sorted[i]);
    }
  }

  predicate Apart(s: seq<Keys>) {
    forall i, j | 0 <= i < j < |s| :: DisjointKeys(s[i], s[j])
  }

  lemma CountTwo<T>(s: seq<T>, i: nat, j: nat)
    requires i < j < |s| && s[i] == s[j]
    ensures multiset(s)[s[i]] >= 2
  {
    assert s == s[..j] + [s[j]] + s[j + 1..];
    assert s[..j][i] == s[i];
  }

  lemma {:induction false} TwoOf<T>(s: seq<T>, x: T) returns (i: nat, j: nat)
    requires multiset(s)[x] >= 2
    ensures i < j < |s| && s[i] == x && s[j] == x
  {
    var n := |s| - 1;
    assert s == s[..n] + [s[n]];
    if s[n] == x {
      assert x in s[..n];
      i :| 0 <= i < n && s[..n][i] == x;
      j := n;
    } else {
      i, j := TwoOf(s[..n], x);
    }
  }

  /** Pairwise disjointness does not depend on the order. */
  lemma ApartPermuted(a: seq<Keys>, b: seq<Keys>)
    requires multiset(a) == multiset(b) && Apart(a)
    ensures Apart(b)
  {
    forall i, j | 0 <= i < j < |b| ensures DisjointKeys(b[i], b[j]) {
      if b[i] == b[j] {
        CountTwo(b, i, j);
        var p, q := TwoOf(a, b[i]);
      } else {
        assert b[i] in multiset(a) && b[j] in multiset(a);
        var p :| 0 <= p < |a| && a[p] == b[i];
        var q :| 0 <= q < |a| && a[q] == b[j];
        assert DisjointKeys(a[p], a[q]) || DisjointKeys(a[q], a[p]);
      }
    }
  }

  lemma SortedFormHas(keys: Keys, k: TopicKey)
    ensures k in SortedForm(keys) <==> k in keys
    ensures Ascending(SortedForm(keys), KeyLess)
  {
    KeyOrder();
    assert k in keys <==> k in Elements(keys);
  }

  lemma SortedFormsApart(specs: seq<Keys>)
    requires Disjoint(specs)
    ensures Apart(SortedForms(specs))
  {
    hide SortedForm, UserKey, Distinct;
    var forms := SortedForms(specs);
    forall i, j | 0 <= i < j < |forms| ensures DisjointKeys(forms[i], forms[j]) {
      forall k | k in forms[i] ensures k !in forms[j] {
        SortedFormHas(specs[i], k);
        SortedFormHas(specs[j], k);
        assert DisjointKeys(specs[i], specs[j]);
      }
    }
  }

  /** Where a canonical member comes from. */
  lemma CanonicalSource(specs: seq<Keys>, canonical: seq<Keys>, i: nat) returns (j: nat)
    requires CanonicalOf(canonical, specs) && i < |canonical|
    ensures j < |specs| && canonical[i] == SortedForm(specs[j])
  {
    hide KeysLess, SortedForm;
    var forms := SortedForms(specs);
    assert canonical[i] in multiset(forms);
    j :| 0 <= j < |forms| && forms[j] == canonical[i];
  }

  lemma MemberSource(members: seq<Member>, canonical: seq<Keys>, sessions: seq<Id>, i: nat) returns (j: nat)
    requires |sessions| == |canonical| && multiset(members) == multiset(Zipped(canonical, sessions)) && i < |members|
    ensures j < |canonical| && members[i] == Member(sessions[j], canonical[j])
  {
    var z := Zipped(canonical, sessions);
    assert members[i] in multiset(z);
    j :| 0 <= j < |z| && z[j] == members[i];
  }

  /** The members prepared from an admitted request have the shape the projection
      demands of an assignment. */
  lemma CanonicalPrepared(specs: seq<Keys>, canonical: seq<Keys>, sessions: seq<Id>, members: seq<Member>)
    requires Admitted(specs) && CanonicalOf(canonical, specs) && |sessions| == |canonical|
    requires forall i | 0 <= i < |sessions| :: sessions[i] != 0
    requires Ascending(members, SessionLess) && multiset(members) == multiset(Zipped(canonical, sessions))
    ensures Prepared(members)
  {
    hide CanonicalOf, Zipped, UserKey, KeyLess, SortedForm, SortedForms, Distinct;
    CanonicalApart(specs, canonical);
    forall i | 0 <= i < |members| ensures members[i].session != 0 && Ascending(members[i].subscriptions, KeyLess) {
      var j := MemberSource(members, canonical, sessions, i);
      var p := CanonicalSource(specs, canonical, j);
      SortedFormHas(specs[p], TopicKey(0, 0));
    }
    forall i, k | 0 <= i < |members| && k in members[i].subscriptions ensures UserKey(k) {
      var j := MemberSource(members, canonical, sessions, i);
      var p := CanonicalSource(specs, canonical, j);
      SortedFormHas(specs[p], k);
      KeysOfHas(specs, k);
    }
    forall a, b | 0 <= a < b < |members|
      ensures DisjointKeys(members[a].subscriptions, members[b].subscriptions)
    {
      assert SessionLess(members[a], members[b]);
      var i := MemberSource(members, canonical, sessions, a);
      var j := MemberSource(members, canonical, sessions, b);
      assert DisjointKeys(canonical[i], canonical[j]) || DisjointKeys(canonical[j], canonical[i]);
    }
    assert forall a, b | 0 <= a < b < |members| :: SessionLess(members[a], members[b]);
  }

  lemma CanonicalApart(specs: seq<Keys>, canonical: seq<Keys>)
    requires Disjoint(specs) && CanonicalOf(canonical, specs)
    ensures Apart(canonical)
  {
    SortedFormsApart(specs);
    ApartPermuted(SortedForms(specs), canonical);
  }
}
