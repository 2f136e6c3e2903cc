/**
  `Array.prototype.sort` with a numeric comparator `(a, b) => key(a) - key(b)`,
  as the CI scripts use it. The sort is stable (required since ECMAScript
  2019): it orders by ascending key and keeps the input order among equal
  keys. Descending orders use the negated key.
 */
module StableSort {

  predicate Sorted<T>(s: seq<T>, key: T -> real)
  {
    forall i, j :: 0 <= i < j < |s| ==> key(s[i]) <= key(s[j])
  }

  /** A sorted sequence stays sorted behind an element whose key does not exceed its first key. */
  lemma ConsSorted<T>(h: T, rest: seq<T>, key: T -> real)
    requires Sorted(rest, key)
    requires rest == [] || key(h) <= key(rest[0])
    ensures Sorted([h] + rest, key)
  {
    var r := [h] + rest;
    forall i, j | 0 <= i < j < |r| ensures key(r[i]) <= key(r[j]) {
      assert r[j] == rest[j - 1];
      if i > 0 {
        assert r[i] == rest[i - 1];
      } else if j > 1 {
        assert key(rest[0]) <= key(rest[j - 1]);
      }
    }
  }

  /** Put `x` in front of the first element whose key is not smaller. */
  function Insert<T>(x: T, sorted: seq<T>, key: T -> real): (r: seq<T>)
    requires Sorted(sorted, key)
    ensures |r| == |sorted| + 1
    ensures multiset(r) == multiset(sorted) + multiset{x}
    ensures r[0] == x || (sorted != [] && r[0] == sorted[0])
    ensures Sorted(r, key)
    decreases |sorted|
  {
    if sorted == [] || key(x) <= key(sorted[0]) then
      ConsSorted(x, sorted, key);
      [x] + sorted
    else
      var h, t := sorted[0], sorted[1..];
      assert sorted == [h] + t;
      var rest := Insert(x, t, key);
      ConsSorted(h, rest, key);
      [h] + rest
  }

  /** The stable sort: the tail sorted first, then the head inserted ahead of the equal keys. */
  function SortBy<T>(s: seq<T>, key: T -> real): (r: seq<T>)
    ensures |r| == |s|
    ensures multiset(r) == multiset(s)
    ensures Sorted(r, key)
    decreases |s|
  {
    if s == [] then []
    else
      assert s == [s[0]] + s[1..];
      Insert(s[0], SortBy(s[1..], key), key)
  }

  /** The elements with key `v`, in order. */
  function WithKey<T>(s: seq<T>, key: T -> real, v: real): seq<T>
    decreases |s|
  {
    if s == [] then [] else (if key(s[0]) == v then [s[0]] else []) + WithKey(s[1..], key, v)
  }

  lemma WithKeyCons<T>(a: T, t: seq<T>, key: T -> real, v: real)
    ensures WithKey([a] + t, key, v) == (if key(a) == v then [a] else []) + WithKey(t, key, v)
  {
    assert ([a] + t)[1..] == t;
  }

  lemma {:induction false} InsertWithKey<T>(x: T, sorted: seq<T>, key: T -> real, v: real)
    requires Sorted(sorted, key)
    ensures WithKey(Insert(x, sorted, key), key, v) == (if key(x) == v then [x] else []) + WithKey(sorted, key, v)
    decreases |sorted|
  {
    if sorted == [] || key(x) <= key(sorted[0]) {
      WithKeyCons(x, sorted, key, v);
    } else {
      var h, t := sorted[0], sorted[1..];
      assert sorted == [h] + t;
      InsertWithKey(x, t, key, v);
      WithKeyCons(h, Insert(x, t, key), key, v);
      WithKeyCons(h, t, key, v);
    }
  }

  /** Stability: for every key, the elements with that key keep their relative order. */
  lemma {:induction false} SortIsStable<T>(s: seq<T>, key: T -> real, v: real)
    ensures WithKey(SortBy(s, key), key, v) == WithKey(s, key, v)
    decreases |s|
  {
    if s != [] {
      SortIsStable(s[1..], key, v);
      InsertWithKey(s[0], SortBy(s[1..], key), key, v);
    }
  }

  /** The index of the first element with the least key. */
  function FirstMinimum<T>(s: seq<T>, key: T -> real): (i: nat)
    requires s != []
    ensures i < |s|
    ensures forall j :: 0 <= j < |s| ==> key(s[i]) <= key(s[j])
    ensures forall j :: 0 <= j < i ==> key(s[j]) > key(s[i])
    decreases |s|
  {
    if |s| == 1 then 0
    else
      var k := FirstMinimum(s[1..], key);
      assert forall j :: 1 <= j < |s| ==> s[j] == s[1..][j - 1];
      if key(s[0]) <= key(s[1..][k]) then 0 else k + 1
  }

  /** The sorted array starts with the first element of least key: a least-loaded shard, the earliest on ties. */
  lemma {:induction false} SortHead<T>(s: seq<T>, key: T -> real)
    requires s != []
    ensures SortBy(s, key)[0] == s[FirstMinimum(s, key)]
    decreases |s|
  {
    if |s| > 1 {
      var rest := SortBy(s[1..], key);
      SortHead(s[1..], key);
      var k := FirstMinimum(s[1..], key);
      assert rest[0] == s[1..][k];
    }
  }
}
