/**
  The JavaScript `Map` with string keys that scripts/updateTimings.mjs and
  scripts/combine.js merge timings in: `set` replaces the value of a key
  already present without moving it and appends a new key, `delete` removes
  a key and reports whether it was there, and `values()` yields the values in
  key insertion order. `Entries` is the abstract state, `OrderedMap` the
  object updated in place.
 */
module OrderedMaps {

  /** The keys in insertion order and the value of each key. */
  datatype Entries<V> = Entries(keys: seq<string>, values: map<string, V>)

  predicate Distinct(keys: seq<string>)
  {
    forall i, j :: 0 <= i < j < |keys| ==> keys[i] != keys[j]
  }

  /** Every key listed once, and the listed keys are exactly the keys with a value. */
  ghost predicate WellFormed<V>(e: Entries<V>)
  {
    Distinct(e.keys) && forall k :: k in e.values <==> k in e.keys
  }

  function Empty<V>(): (e: Entries<V>)
    ensures WellFormed(e)
  {
    Entries([], map[])
  }

  /** `map.set(k, v)`. */
  function Put<V>(e: Entries<V>, k: string, v: V): Entries<V>
  {
    Entries(if k in e.values then e.keys else e.keys + [k], e.values[k := v])
  }

  /** The keys other than `k`, in order. */
  function Without(keys: seq<string>, k: string): (r: seq<string>)
    ensures forall x :: x in r <==> x in keys && x != k
    ensures Distinct(keys) ==> Distinct(r)
    decreases |keys|
  {
    if keys == [] then []
    else
      var rest := Without(keys[1..], k);
      assert forall x :: x in keys[1..] ==> x in keys;
      assert Distinct(keys) ==> keys[0] !in keys[1..];
      if keys[0] == k then rest else [keys[0]] + rest
  }

  /** `map.delete(k)`. */
  function Remove<V>(e: Entries<V>, k: string): Entries<V>
  {
    Entries(Without(e.keys, k), e.values - {k})
  }

  /** `Array.from(map.values())`. */
  function ValuesOf<V>(e: Entries<V>): (vs: seq<V>)
    requires WellFormed(e)
    ensures |vs| == |e.keys|
    ensures forall i :: 0 <= i < |e.keys| ==> vs[i] == e.values[e.keys[i]]
  {
    seq(|e.keys|, i requires 0 <= i < |e.keys| && e.keys[i] in e.values => e.values[e.keys[i]])
  }

  /**
    After `set(k, v)`, `k` holds `v`; every other key keeps its value; a key
    already present keeps its place, and a new key comes last.
   */
  lemma PutMeaning<V>(e: Entries<V>, k: string, v: V)
    requires WellFormed(e)
    ensures var r := Put(e, k, v);
      && WellFormed(r)
      && r.values[k] == v
      && (forall x :: x != k ==> (x in r.values <==> x in e.values) && (x in e.values ==> r.values[x] == e.values[x]))
      && (k in e.values ==> r.keys == e.keys)
      && (k !in e.values ==> r.keys == e.keys + [k])
  {
    var r := Put(e, k, v);
    if k !in e.values {
      forall i, j | 0 <= i < j < |r.keys| ensures r.keys[i] != r.keys[j] {
        if j == |e.keys| {
          assert r.keys[i] in e.keys;
        }
      }
    }
  }

  /** After `delete(k)`, `k` is gone, every other key keeps its value, and the others stay in order. */
  lemma RemoveMeaning<V>(e: Entries<V>, k: string)
    requires WellFormed(e)
    ensures var r := Remove(e, k);
      && WellFormed(r)
      && k !in r.values
      && (forall x :: x != k ==> (x in r.values <==> x in e.values) && (x in e.values ==> r.values[x] == e.values[x]))
      && r.keys == Without(e.keys, k)
  {
  }

  /** The entries updated in place, as a `Map` object. */
  class OrderedMap<V> {
    var keys: seq<string>
    var values: map<string, V>

    function State(): Entries<V>
      reads this
    {
      Entries(keys, values)
    }

    ghost predicate Valid()
      reads this
    {
      WellFormed(State())
    }

    /** `new Map()`. */
    constructor ()
      ensures Valid() && State() == Empty()
    {
      keys := [];
      values := map[];
    }

    /** `map.set(k, v)`. */
    method Set(k: string, v: V)
      requires Valid()
      modifies this
      ensures Valid() && State() == Put(old(State()), k, v)
    {
      PutMeaning(State(), k, v);
      if k !in values {
        keys := keys + [k];
      }
      values := values[k := v];
    }

    /** `map.delete(k)`: whether `k` was there. */
    method Delete(k: string) returns (removed: bool)
      requires Valid()
      modifies this
      ensures Valid() && State() == Remove(old(State()), k)
      ensures removed <==> k in old(values)
    {
      RemoveMeaning(State(), k);
      removed := k in values;
      keys := Without(keys, k);
      values := values - {k};
    }

    /** `Array.from(map.values())`. */
    method Values() returns (vs: seq<V>)
      requires Valid()
      ensures vs == ValuesOf(State())
    {
      vs := [];
      var i := 0;
      while i < |keys|
        invariant 0 <= i <= |keys|
        invariant vs == ValuesOf(State())[..i]
      {
        vs := vs + [values[keys[i]]];
        i := i + 1;
      }
    }
  }
}
