/**
  The merge step shared by scripts/updateTimings.mjs and scripts/combine.js:
  records are keyed by `path.resolve(name)` in an insertion-ordered map, so a
  later record with the same key replaces an earlier one in the earlier one's
  place. `path.resolve` is the parameter `resolve`; `path.resolve(undefined)`
  throws a `TypeError`, so a record without a name stops the script.
 */
module TimingsMerge {
  import opened Wrappers
  import opened TimingRecords
  import opened OrderedMaps

  predicate AllNamed(records: seq<TestResult>)
  {
    forall i :: 0 <= i < |records| ==> records[i].name.Some?
  }

  /** `path.resolve(record.name)`. */
  function Key(r: TestResult, resolve: string -> string): string
    requires r.name.Some?
  {
    resolve(r.name.value)
  }

  /**
    Whether a merge loop stores the record: the loop over existing records
    stores every named record, the loops over new results skip a falsy name
    (`if (!newTr.name) continue`).
   */
  predicate Stored(r: TestResult, skipFalsy: bool)
  {
    r.name.Some? && (skipFalsy ==> r.name.value != "")
  }

  /** `for (const r of records) map.set(path.resolve(r.name), r)` from the entries `e`, over the stored records. */
  function Merged(e: Entries<TestResult>, records: seq<TestResult>, resolve: string -> string, skipFalsy: bool): Entries<TestResult>
    decreases |records|
  {
    if records == [] then e
    else
      var last := records[|records| - 1];
      var before := Merged(e, records[..|records| - 1], resolve, skipFalsy);
      if Stored(last, skipFalsy) then Put(before, Key(last, resolve), last) else before
  }

  /** The map built from the existing records. */
  function Keyed(records: seq<TestResult>, resolve: string -> string): Entries<TestResult>
  {
    Merged(Empty(), records, resolve, false)
  }

  /** `for (const k of keys) map.delete(k)`. */
  function RemoveAll(e: Entries<TestResult>, keys: seq<string>): Entries<TestResult>
    decreases |keys|
  {
    if keys == [] then e else Remove(RemoveAll(e, keys[..|keys| - 1]), keys[|keys| - 1])
  }

  /** The listed keys not among `gone`, in order. */
  function KeysNotIn(keys: seq<string>, gone: seq<string>): seq<string>
    decreases |keys|
  {
    if keys == [] then []
    else (if keys[0] in gone then [] else [keys[0]]) + KeysNotIn(keys[1..], gone)
  }

  // ---------------------------------------------------------------------------
  // Putting records
  // ---------------------------------------------------------------------------

  lemma MergedSnoc(e: Entries<TestResult>, records: seq<TestResult>, r: TestResult, resolve: string -> string, skipFalsy: bool)
    ensures Merged(e, records + [r], resolve, skipFalsy) ==
      var before := Merged(e, records, resolve, skipFalsy);
      if Stored(r, skipFalsy) then Put(before, Key(r, resolve), r) else before
  {
    assert (records + [r])[..|records|] == records;
  }

  /** Merging keeps the entries well formed and keeps the old keys in front, in their old order. */
  lemma {:induction false} MergedKeepsOrder(e: Entries<TestResult>, records: seq<TestResult>, resolve: string -> string, skipFalsy: bool)
    requires WellFormed(e)
    ensures var r := Merged(e, records, resolve, skipFalsy);
      WellFormed(r) && |e.keys| <= |r.keys| && r.keys[..|e.keys|] == e.keys
    decreases |records|
  {
    if records != [] {
      var init, last := records[..|records| - 1], records[|records| - 1];
      var before := Merged(e, init, resolve, skipFalsy);
      MergedKeepsOrder(e, init, resolve, skipFalsy);
      if Stored(last, skipFalsy) {
        PutMeaning(before, Key(last, resolve), last);
        assert Merged(e, records, resolve, skipFalsy).keys[..|e.keys|] == before.keys[..|e.keys|];
      }
    }
  }

  /** The keys after merging are the old keys and the keys of the stored records, and no others. */
  lemma {:induction false} MergedDomain(e: Entries<TestResult>, records: seq<TestResult>, resolve: string -> string, skipFalsy: bool)
    ensures forall k :: k in Merged(e, records, resolve, skipFalsy).values <==>
      k in e.values || exists i :: 0 <= i < |records| && Stored(records[i], skipFalsy) && Key(records[i], resolve) == k
    decreases |records|
  {
    if records != [] {
      var init, last := records[..|records| - 1], records[|records| - 1];
      MergedDomain(e, init, resolve, skipFalsy);
      var r := Merged(e, records, resolve, skipFalsy);
      forall k | k in r.values
        ensures k in e.values || exists i :: 0 <= i < |records| && Stored(records[i], skipFalsy) && Key(records[i], resolve) == k
      {
        if !(Stored(last, skipFalsy) && k == Key(last, resolve)) && k !in e.values {
          var i :| 0 <= i < |init| && Stored(init[i], skipFalsy) && Key(init[i], resolve) == k;
          assert records[i] == init[i];
        }
      }
      forall k | k in e.values || exists i :: 0 <= i < |records| && Stored(records[i], skipFalsy) && Key(records[i], resolve) == k
        ensures k in r.values
      {
        if !(Stored(last, skipFalsy) && k == Key(last, resolve)) && k !in e.values {
          var i :| 0 <= i < |records| && Stored(records[i], skipFalsy) && Key(records[i], resolve) == k;
          assert i < |init| && init[i] == records[i];
        }
      }
    }
  }

  /** The last stored record with a given key is the one kept under it: a later duplicate replaces an earlier one. */
  lemma {:induction false} MergedLastWins(e: Entries<TestResult>, records: seq<TestResult>, resolve: string -> string, skipFalsy: bool, i: nat)
    requires i < |records| && Stored(records[i], skipFalsy)
    requires forall j :: i < j < |records| && Stored(records[j], skipFalsy) ==> Key(records[j], resolve) != Key(records[i], resolve)
    ensures Key(records[i], resolve) in Merged(e, records, resolve, skipFalsy).values
    ensures Merged(e, records, resolve, skipFalsy).values[Key(records[i], resolve)] == records[i]
    decreases |records|
  {
    var init := records[..|records| - 1];
    if i < |records| - 1 {
      assert init[i] == records[i];
      forall j | i < j < |init| && Stored(init[j], skipFalsy) ensures Key(init[j], resolve) != Key(init[i], resolve) {
        assert init[j] == records[j];
      }
      MergedLastWins(e, init, resolve, skipFalsy, i);
    }
  }

  /** A key no stored record has keeps its entry, or its absence. */
  lemma {:induction false} MergedKeepsOthers(e: Entries<TestResult>, records: seq<TestResult>, resolve: string -> string, skipFalsy: bool, k: string)
    requires forall i :: 0 <= i < |records| && Stored(records[i], skipFalsy) ==> Key(records[i], resolve) != k
    ensures k in Merged(e, records, resolve, skipFalsy).values <==> k in e.values
    ensures k in e.values ==> Merged(e, records, resolve, skipFalsy).values[k] == e.values[k]
    decreases |records|
  {
    if records != [] {
      var init := records[..|records| - 1];
      forall i | 0 <= i < |init| && Stored(init[i], skipFalsy) ensures Key(init[i], resolve) != k {
        assert init[i] == records[i];
      }
      MergedKeepsOthers(e, init, resolve, skipFalsy, k);
    }
  }

  /** A record the loop does not store changes nothing: merging without it gives the same entries. */
  lemma {:induction false} MergedSkips(e: Entries<TestResult>, records: seq<TestResult>, resolve: string -> string, skipFalsy: bool, i: nat)
    requires i < |records| && !Stored(records[i], skipFalsy)
    ensures Merged(e, records, resolve, skipFalsy) == Merged(e, records[..i] + records[i + 1..], resolve, skipFalsy)
    decreases |records|
  {
    var n := |records|;
    var init := records[..n - 1];
    if i == n - 1 {
      assert records[..i] + records[i + 1..] == init;
    } else {
      MergedSkips(e, init, resolve, skipFalsy, i);
      var shorter := init[..i] + init[i + 1..];
      assert records[..i] + records[i + 1..] == shorter + [records[n - 1]];
      MergedSnoc(e, shorter, records[n - 1], resolve, skipFalsy);
    }
  }

  /** The keys of the records, in order. */
  function KeysOf(records: seq<TestResult>, resolve: string -> string): (keys: seq<string>)
    requires AllNamed(records)
    ensures |keys| == |records|
    ensures forall i :: 0 <= i < |records| ==> keys[i] == Key(records[i], resolve)
  {
    seq(|records|, i requires 0 <= i < |records| && records[i].name.Some? => Key(records[i], resolve))
  }

  /** No two records share a key. */
  predicate DistinctKeys(records: seq<TestResult>, resolve: string -> string)
    requires AllNamed(records)
  {
    forall i, j :: 0 <= i < j < |records| ==> Key(records[i], resolve) != Key(records[j], resolve)
  }

  /** Without duplicate keys, every record adds its own key, in order. */
  lemma {:induction false} KeyedKeys(records: seq<TestResult>, resolve: string -> string)
    requires AllNamed(records) && DistinctKeys(records, resolve)
    ensures WellFormed(Keyed(records, resolve)) && Keyed(records, resolve).keys == KeysOf(records, resolve)
    decreases |records|
  {
    MergedKeepsOrder(Empty(), records, resolve, false);
    if records != [] {
      var n := |records|;
      var init, last := records[..n - 1], records[n - 1];
      assert AllNamed(init) && DistinctKeys(init, resolve) by {
        forall i | 0 <= i < n - 1 ensures init[i] == records[i] { }
      }
      KeyedKeys(init, resolve);
      var before := Keyed(init, resolve);
      assert Key(last, resolve) !in before.keys by {
        forall i | 0 <= i < n - 1 ensures before.keys[i] != Key(last, resolve) {
          assert before.keys[i] == Key(records[i], resolve);
        }
      }
      PutMeaning(before, Key(last, resolve), last);
      assert KeysOf(records, resolve) == KeysOf(init, resolve) + [Key(last, resolve)];
    }
  }

  /** Keying records that have no duplicate keys and listing the values gives the records back. */
  lemma KeyedWithoutDuplicates(records: seq<TestResult>, resolve: string -> string)
    requires AllNamed(records) && DistinctKeys(records, resolve)
    ensures WellFormed(Keyed(records, resolve)) && ValuesOf(Keyed(records, resolve)) == records
  {
    KeyedKeys(records, resolve);
    var vs := ValuesOf(Keyed(records, resolve));
    forall i | 0 <= i < |records| ensures vs[i] == records[i] {
      MergedLastWins(Empty(), records, resolve, false, i);
    }
  }

  // ---------------------------------------------------------------------------
  // Deleting keys
  // ---------------------------------------------------------------------------

  lemma {:induction false} KeysNotInSnoc(keys: seq<string>, gone: seq<string>, k: string)
    ensures KeysNotIn(keys, gone + [k]) == Without(KeysNotIn(keys, gone), k)
    decreases |keys|
  {
    if keys != [] {
      KeysNotInSnoc(keys[1..], gone, k);
      var h, rest := keys[0], KeysNotIn(keys[1..], gone);
      if h in gone {
        assert KeysNotIn(keys, gone) == rest;
      } else {
        assert KeysNotIn(keys, gone) == [h] + rest;
        assert ([h] + rest)[1..] == rest;
      }
    }
  }

  /**
    Deleting keys removes exactly those keys, keeps every other entry, and
    keeps the remaining keys in their order.
   */
  lemma {:induction false} RemoveAllMeaning(e: Entries<TestResult>, gone: seq<string>)
    requires WellFormed(e)
    ensures var r := RemoveAll(e, gone);
      && WellFormed(r)
      && r.keys == KeysNotIn(e.keys, gone)
      && (forall k :: k in r.values <==> k in e.values && k !in gone)
      && (forall k :: k in r.values ==> r.values[k] == e.values[k])
    decreases |gone|
  {
    if gone == [] {
      assert KeysNotIn(e.keys, []) == e.keys by {
        KeysNotInNothing(e.keys);
      }
    } else {
      var init, last := gone[..|gone| - 1], gone[|gone| - 1];
      RemoveAllMeaning(e, init);
      RemoveMeaning(RemoveAll(e, init), last);
      KeysNotInSnoc(e.keys, init, last);
      assert gone == init + [last];
    }
  }

  lemma {:induction false} KeysNotInNothing(keys: seq<string>)
    ensures KeysNotIn(keys, []) == keys
    decreases |keys|
  {
    if keys != [] {
      KeysNotInNothing(keys[1..]);
    }
  }

  // ---------------------------------------------------------------------------
  // The loops, on an `OrderedMap`
  // ---------------------------------------------------------------------------

  /**
    `for (const tr of records) map.set(path.resolve(tr.name), tr)`; false, with
    the loop stopped, when a record has no name and `path.resolve` throws.
   */
  method PutAll(m: OrderedMap<TestResult>, records: seq<TestResult>, resolve: string -> string) returns (ok: bool)
    requires m.Valid()
    modifies m
    ensures m.Valid()
    ensures ok <==> AllNamed(records)
    ensures ok ==> m.State() == Merged(old(m.State()), records, resolve, false)
  {
    var i := 0;
    while i < |records|
      invariant 0 <= i <= |records|
      invariant AllNamed(records[..i])
      invariant m.Valid() && m.State() == Merged(old(m.State()), records[..i], resolve, false)
    {
      if records[i].name.None? {
        return false;
      }
      assert records[..i + 1] == records[..i] + [records[i]];
      MergedSnoc(old(m.State()), records[..i], records[i], resolve, false);
      m.Set(Key(records[i], resolve), records[i]);
      i := i + 1;
    }
    assert records[..i] == records;
    return true;
  }

  /** `for (const r of records) { if (!r.name) continue; map.set(path.resolve(r.name), r); }` */
  method PutNamed(m: OrderedMap<TestResult>, records: seq<TestResult>, resolve: string -> string)
    requires m.Valid()
    modifies m
    ensures m.Valid() && m.State() == Merged(old(m.State()), records, resolve, true)
  {
    for i := 0 to |records|
      invariant m.Valid() && m.State() == Merged(old(m.State()), records[..i], resolve, true)
    {
      assert records[..i + 1] == records[..i] + [records[i]];
      MergedSnoc(old(m.State()), records[..i], records[i], resolve, true);
      if !NameIsTruthy(records[i].name) {
        continue;
      }
      m.Set(Key(records[i], resolve), records[i]);
    }
    assert records[..|records|] == records;
  }

  /** `for (const k of keys) map.delete(k)`. */
  method DeleteAll(m: OrderedMap<TestResult>, keys: seq<string>)
    requires m.Valid()
    modifies m
    ensures m.Valid() && m.State() == RemoveAll(old(m.State()), keys)
  {
    for i := 0 to |keys|
      invariant m.Valid() && m.State() == RemoveAll(old(m.State()), keys[..i])
    {
      assert keys[..i + 1][..i] == keys[..i];
      var _ := m.Delete(keys[i]);
    }
    assert keys[..|keys|] == keys;
  }
}
