/** Canonical listings: the encoders collect map keys in an arbitrary order and
    sort them, so a listing is a function of the key set alone. */
module Sorting {
  import opened Base

  ghost predicate StrictTotal<T(!new)>(less: (T, T) -> bool) {
    && (forall a :: !less(a, a))
    && (forall a, b :: a != b ==> less(a, b) || less(b, a))
    && (forall a, b, c :: less(a, b) && less(b, c) ==> less(a, c))
  }

  predicate Ascending<T>(s: seq<T>, less: (T, T) -> bool) {
    forall i, j | 0 <= i < j < |s| :: less(s[i], s[j])
  }

  function Elements<T>(s: seq<T>): set<T> {
    set x | x in s
  }

  ghost predicate Lists<T>(s: seq<T>, keys: set<T>, less: (T, T) -> bool) {
    Ascending(s, less) && Elements(s) == keys
  }

  /** Two ascending listings of one set are the same sequence. */
  lemma {:induction false} ListingUnique<T(!new)>(s: seq<T>, t: seq<T>, less: (T, T) -> bool)
    requires StrictTotal(less)
    requires Ascending(s, less) && Ascending(t, less)
    requires Elements(s) == Elements(t)
    ensures s == t
  {
    assert s != [] ==> s[0] in Elements(s);
    assert t != [] ==> t[0] in Elements(t);
    if s != [] && t != [] {
      assert s[0] in t && t[0] in s;
      assert s[0] == t[0];
      forall x ensures x in s[1..] <==> x in t[1..] {
        assert x in s <==> x in Elements(s);
        assert x in t <==> x in Elements(t);
        assert s == [s[0]] + s[1..] && t == [t[0]] + t[1..];
        assert s[0] !in s[1..] && t[0] !in t[1..];
      }
      assert Elements(s[1..]) == Elements(t[1..]);
      ListingUnique(s[1..], t[1..], less);
    }
  }

  /** The position at which `x` joins an ascending sequence that lacks it. */
  function InsertAt<T>(s: seq<T>, x: T, less: (T, T) -> bool): (i: nat)
    ensures i <= |s|
    ensures forall k | 0 <= k < i :: less(s[k], x)
    ensures i < |s| ==> !less(s[i], x)
  {
    if s == [] || !less(s[0], x) then 0
    else 1 + InsertAt(s[1..], x, less)
  }

  function Insert<T>(s: seq<T>, x: T, less: (T, T) -> bool): (r: seq<T>)
  {
    var i := InsertAt(s, x, less);
    s[..i] + [x] + s[i..]
  }

  lemma InsertAscending<T(!new)>(s: seq<T>, x: T, less: (T, T) -> bool)
    requires StrictTotal(less) && Ascending(s, less) && x !in s
    ensures Ascending(Insert(s, x, less), less)
  {
    var i := InsertAt(s, x, less);
    var r := Insert(s, x, less);
    assert i < |s| ==> less(x, s[i]);
    forall a, b | 0 <= a < b < |r| ensures less(r[a], r[b]) {
      if a == i {
        assert r[b] == s[b - 1];
        if b - 1 > i { assert less(s[i], s[b - 1]); }
      } else if b == i {
        assert r[a] == s[a];
      } else {
        var a', b' := if a < i then a else a - 1, if b < i then b else b - 1;
        assert r[a] == s[a'] && r[b] == s[b'] && a' < b';
      }
    }
  }

  lemma InsertElements<T>(s: seq<T>, x: T, less: (T, T) -> bool)
    ensures Elements(Insert(s, x, less)) == Elements(s) + {x}
  {
    var i := InsertAt(s, x, less);
    assert s == s[..i] + s[i..];
  }

  lemma InsertLists<T(!new)>(s: seq<T>, x: T, keys: set<T>, less: (T, T) -> bool)
    requires StrictTotal(less) && Lists(s, keys, less) && x !in keys
    ensures Lists(Insert(s, x, less), keys + {x}, less)
  {
    assert x !in s by { assert x in s ==> x in Elements(s); }
    InsertAscending(s, x, less);
    InsertElements(s, x, less);
  }

  /** Every finite key set has a canonical listing. */
  lemma {:induction false} ListingExists<T(!new)>(keys: set<T>, less: (T, T) -> bool)
    requires StrictTotal(less)
    ensures exists s :: Lists(s, keys, less)
  {
    if keys == {} {
      var s: seq<T> := [];
      assert Lists(s, keys, less);
    } else {
      var x :| x in keys;
      ListingExists(keys - {x}, less);
      var s :| Lists(s, keys - {x}, less);
      InsertLists(s, x, keys - {x}, less);
      assert keys - {x} + {x} == keys;
      assert Lists(Insert(s, x, less), keys, less);
    }
  }

  ghost function Listing<T(!new)>(keys: set<T>, less: (T, T) -> bool): (s: seq<T>)
    requires StrictTotal(less)
    ensures Lists(s, keys, less)
    ensures forall k :: k in s <==> k in keys
  {
    ListingExists(keys, less);
    var s :| Lists(s, keys, less);
    assert forall k :: k in s <==> k in Elements(s);
    s
  }

  lemma {:induction false} SubsetSize<T>(a: set<T>, b: set<T>)
    requires a <= b
    ensures |a| <= |b|
  {
    if a != {} {
      var x :| x in a;
      SubsetSize(a - {x}, b - {x});
    }
  }

  lemma {:induction false} AscendingLength<T(!new)>(s: seq<T>, keys: set<T>, less: (T, T) -> bool)
    requires StrictTotal(less) && Lists(s, keys, less)
    ensures |s| == |keys|
  {
    if s == [] {
      assert keys == {};
    } else {
      var x := s[0];
      assert x in Elements(s);
      assert x !in s[1..];
      forall y ensures y in s[1..] <==> y in keys - {x} {
        assert y in s <==> y in Elements(s);
        assert s == [x] + s[1..];
      }
      assert Elements(s[1..]) == keys - {x};
      AscendingLength(s[1..], keys - {x}, less);
    }
  }

  /** Collecting the keys in any order and sorting them gives the listing. */
  method Sort<T(==, !new)>(keys: set<T>, less: (T, T) -> bool) returns (s: seq<T>)
    requires StrictTotal(less)
    ensures s == Listing(keys, less)
    ensures |s| == |keys|
  {
    s := [];
    var rest := keys;
    while rest != {}
      invariant rest <= keys
      invariant Lists(s, keys - rest, less)
      decreases rest
    {
      var x :| x in rest;
      InsertLists(s, x, keys - rest, less);
      assert keys - (rest - {x}) == keys - rest + {x};
      s := Insert(s, x, less);
      rest := rest - {x};
    }
    assert keys - rest == keys;
    ListingUnique(s, Listing(keys, less), less);
    AscendingLength(s, keys, less);
  }

  lemma KeyOrder()
    ensures StrictTotal(KeyLess)
  {
  }

  lemma {:induction false} BytesLessIrreflexive(a: Bytes)
    ensures !BytesLess(a, a)
  {
    if a != [] { BytesLessIrreflexive(a[1..]); }
  }

  lemma {:induction false} BytesLessTotal(a: Bytes, b: Bytes)
    requires a != b
    ensures BytesLess(a, b) || BytesLess(b, a)
  {
    if a != [] && b != [] && a[0] == b[0] {
      assert a == [a[0]] + a[1..] && b == [b[0]] + b[1..];
      BytesLessTotal(a[1..], b[1..]);
    }
  }

  lemma {:induction false} BytesLessTransitive(a: Bytes, b: Bytes, c: Bytes)
    requires BytesLess(a, b) && BytesLess(b, c)
    ensures BytesLess(a, c)
  {
    if a != [] && a[0] == b[0] && b[0] == c[0] {
      BytesLessTransitive(a[1..], b[1..], c[1..]);
    }
  }

  lemma GroupOrder()
    ensures StrictTotal(BytesLess)
  {
    forall a ensures !BytesLess(a, a) { BytesLessIrreflexive(a); }
    forall a, b | a != b ensures BytesLess(a, b) || BytesLess(b, a) { BytesLessTotal(a, b); }
    forall a, b, c | BytesLess(a, b) && BytesLess(b, c) ensures BytesLess(a, c) {
      BytesLessTransitive(a, b, c);
    }
  }
}
