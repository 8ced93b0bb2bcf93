/** Sorting by an integer key, keeping equal elements in their order. */
module StableSort {
  /** Insert after everything that does not come later. */
  function Insert<T>(s: seq<T>, x: T, key: T -> int): (r: seq<T>)
    ensures multiset(r) == multiset(s) + multiset{x}
  {
    if s == [] then [x]
    else
      var last := |s| - 1;
      assert s == s[..last] + [s[last]];
      if key(s[last]) <= key(x) then s + [x] else Insert(s[..last], x, key) + [s[last]]
  }

  function SortBy<T>(s: seq<T>, key: T -> int): (r: seq<T>)
    ensures multiset(r) == multiset(s)
  {
    if s == [] then []
    else
      assert s == s[..|s| - 1] + [s[|s| - 1]];
      Insert(SortBy(s[..|s| - 1], key), s[|s| - 1], key)
  }

  predicate Ordered<T>(s: seq<T>, key: T -> int) {
    forall i, j :: 0 <= i < j < |s| ==> key(s[i]) <= key(s[j])
  }

  lemma {:induction false} InsertHolds<T>(s: seq<T>, x: T, key: T -> int, y: T)
    ensures y in Insert(s, x, key) <==> y in s || y == x
  {
    if s != [] && key(s[|s| - 1]) > key(x) { InsertHolds(s[..|s| - 1], x, key, y); }
  }

  lemma {:induction false} InsertOrders<T>(s: seq<T>, x: T, key: T -> int)
    requires Ordered(s, key)
    ensures Ordered(Insert(s, x, key), key)
  {
    if s != [] && key(s[|s| - 1]) > key(x) {
      var less, last := s[..|s| - 1], s[|s| - 1];
      InsertOrders(less, x, key);
      var r := Insert(less, x, key);
      hide Insert;
      forall i | 0 <= i < |r|
        ensures key(r[i]) <= key(last)
      {
        InsertHolds(less, x, key, r[i]);
        if r[i] != x {
          var k :| 0 <= k < |less| && less[k] == r[i];
          assert s[k] == r[i];
        }
      }
    }
  }

  lemma {:induction false} SortOrders<T>(s: seq<T>, key: T -> int)
    ensures Ordered(SortBy(s, key), key)
  {
    if s != [] {
      SortOrders(s[..|s| - 1], key);
      InsertOrders(SortBy(s[..|s| - 1], key), s[|s| - 1], key);
      hide Insert;
    }
  }

  lemma {:induction false} SortHolds<T>(s: seq<T>, key: T -> int, y: T)
    ensures y in SortBy(s, key) <==> y in s
  {
    if s != [] {
      SortHolds(s[..|s| - 1], key, y);
      InsertHolds(SortBy(s[..|s| - 1], key), s[|s| - 1], key, y);
      hide Insert;
    }
  }

  /** Sorting what is sorted changes nothing. */
  lemma {:induction false} SortedStays<T>(s: seq<T>, key: T -> int)
    requires Ordered(s, key)
    ensures SortBy(s, key) == s
  {
    if s != [] {
      SortedStays(s[..|s| - 1], key);
      assert s == s[..|s| - 1] + [s[|s| - 1]];
    }
  }

  /** The elements of one key, in order. */
  function OfKey<T>(s: seq<T>, key: T -> int, v: int): seq<T> {
    if s == [] then []
    else OfKey(s[..|s| - 1], key, v) + if key(s[|s| - 1]) == v then [s[|s| - 1]] else []
  }

  lemma OfKeyNext<T>(s: seq<T>, x: T, key: T -> int, v: int)
    ensures OfKey(s + [x], key, v) == OfKey(s, key, v) + if key(x) == v then [x] else []
  {
    assert (s + [x])[..|s|] == s;
  }

  lemma {:induction false} InsertIsStable<T>(s: seq<T>, x: T, key: T -> int, v: int)
    ensures OfKey(Insert(s, x, key), key, v) == OfKey(s, key, v) + if key(x) == v then [x] else []
  {
    if s != [] && key(s[|s| - 1]) > key(x) {
      var less, last := s[..|s| - 1], s[|s| - 1];
      InsertIsStable(less, x, key, v);
      OfKeyNext(Insert(less, x, key), last, key, v);
      assert s == less + [last];
      OfKeyNext(less, last, key, v);
    } else {
      OfKeyNext(s, x, key, v);
      assert s == [] ==> [] + [x] == [x];
    }
  }

  /** Elements of one key keep their order. */
  lemma {:induction false} SortIsStable<T>(s: seq<T>, key: T -> int, v: int)
    ensures OfKey(SortBy(s, key), key, v) == OfKey(s, key, v)
  {
    if s != [] {
      var less, last := s[..|s| - 1], s[|s| - 1];
      SortIsStable(less, key, v);
      InsertIsStable(SortBy(less, key), last, key, v);
      OfKeyNext(less, last, key, v);
      hide Insert, OfKey;
    }
  }

  predicate Strict<T>(s: seq<T>, key: T -> int) {
    forall i, j :: 0 <= i < j < |s| ==> key(s[i]) < key(s[j])
  }

  lemma {:induction false} InsertStrict<T>(s: seq<T>, x: T, key: T -> int)
    requires Strict(s, key) && forall i :: 0 <= i < |s| ==> key(s[i]) != key(x)
    ensures Strict(Insert(s, x, key), key)
  {
    if s != [] && key(s[|s| - 1]) > key(x) {
      var less, last := s[..|s| - 1], s[|s| - 1];
      InsertStrict(less, x, key);
      var r := Insert(less, x, key);
      hide Insert;
      forall i | 0 <= i < |r|
        ensures key(r[i]) < key(last)
      {
        InsertHolds(less, x, key, r[i]);
        if r[i] != x {
          var k :| 0 <= k < |less| && less[k] == r[i];
          assert s[k] == r[i];
        }
      }
    }
  }

  lemma {:induction false} SortStrict<T>(s: seq<T>, key: T -> int)
    requires forall i, j :: 0 <= i < j < |s| ==> key(s[i]) != key(s[j])
    ensures Strict(SortBy(s, key), key)
  {
    if s != [] {
      var less, last := s[..|s| - 1], s[|s| - 1];
      var sorted := SortBy(less, key);
      SortStrict(less, key);
      forall i | 0 <= i < |sorted|
        ensures key(sorted[i]) != key(last)
      {
        SortHolds(less, key, sorted[i]);
        var k :| 0 <= k < |less| && less[k] == sorted[i];
        assert s[k] == sorted[i];
      }
      hide Insert;
      InsertStrict(sorted, last, key);
    }
  }
}
