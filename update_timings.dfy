/**
  scripts/updateTimings.mjs: merges the formatted results of a new Jest run
  into the timings file, or, when deleted test paths are given, removes those
  paths from it instead. The files are `TimingsFile` values, `path.resolve`
  is the parameter `resolve`, and what the script writes or reports is an
  `Outcome`; reading, writing and the console are outside the model.
 */
module UpdateTimings {
  import opened Wrappers
  import opened TimingRecords
  import opened OrderedMaps
  import opened TimingsMerge

  /** Why the script exits with status 1: the new results could not be read, or a record had no name. */
  datatype UpdateError = BadNewResults(loadError: LoadError) | NamelessRecord

  /** Exit 1, the no-op warning, or the records written to the timings file. */
  datatype Outcome = Failed(error: UpdateError) | NothingToUpdate | Written(testResults: seq<TestResult>)

  /** `loadExistingTimings`: the existing records, or none when the file is missing, unparseable or has no array. */
  function LoadExisting(file: TimingsFile): seq<TestResult>
  {
    match LoadTestResults(file)
    case Ok(records) => records
    case Err(_) => []
  }

  /** The entries `mergeTimings` ends with, before they are turned into a list. */
  function MergedEntries(newResults: seq<TestResult>, existing: seq<TestResult>, deleted: seq<string>, resolve: string -> string)
    : Result<Entries<TestResult>, UpdateError>
  {
    if !AllNamed(existing) then Err(NamelessRecord)
    else if |deleted| > 0 then Ok(RemoveAll(Keyed(existing, resolve), deleted))
    else if !AllNamed(newResults) then Err(NamelessRecord)
    else Ok(Merged(Keyed(existing, resolve), newResults, resolve, true))
  }

  /** `mergeTimings`: the values of the merged map, in key insertion order. */
  function Merge(newResults: seq<TestResult>, existing: seq<TestResult>, deleted: seq<string>, resolve: string -> string)
    : Result<seq<TestResult>, UpdateError>
  {
    match MergedEntries(newResults, existing, deleted, resolve)
    case Err(e) => Err(e)
    case Ok(entries) =>
      MergedEntriesWellFormed(newResults, existing, deleted, resolve);
      Ok(ValuesOf(entries))
  }

  lemma MergedEntriesWellFormed(newResults: seq<TestResult>, existing: seq<TestResult>, deleted: seq<string>, resolve: string -> string)
    requires MergedEntries(newResults, existing, deleted, resolve).Ok?
    ensures WellFormed(MergedEntries(newResults, existing, deleted, resolve).value)
  {
    MergedKeepsOrder(Empty(), existing, resolve, false);
    var e := Keyed(existing, resolve);
    if |deleted| > 0 {
      RemoveAllMeaning(e, deleted);
    } else {
      MergedKeepsOrder(e, newResults, resolve, true);
    }
  }

  /**
    `mergeTimings`. `path.resolve(newTr.name)` is evaluated before the name is
    tested, so a new record without a name throws, while an empty name is
    resolved and then skipped.
   */
  method MergeTimings(newResults: seq<TestResult>, existing: seq<TestResult>, deleted: seq<string>, resolve: string -> string)
    returns (r: Result<seq<TestResult>, UpdateError>)
    ensures r == Merge(newResults, existing, deleted, resolve)
  {
    var m := new OrderedMap<TestResult>();
    var ok := PutAll(m, existing, resolve);
    if !ok {
      return Err(NamelessRecord);
    }
    if |deleted| > 0 {
      DeleteAll(m, deleted);
    } else {
      ghost var start := m.State();
      for i := 0 to |newResults|
        invariant AllNamed(newResults[..i])
        invariant m.Valid() && m.State() == Merged(start, newResults[..i], resolve, true)
      {
        if newResults[i].name.None? {
          return Err(NamelessRecord);
        }
        assert newResults[..i + 1] == newResults[..i] + [newResults[i]];
        MergedSnoc(start, newResults[..i], newResults[i], resolve, true);
        var absPath := resolve(newResults[i].name.value);
        if !NameIsTruthy(newResults[i].name) {
          continue;
        }
        m.Set(absPath, newResults[i]);
      }
      assert newResults[..|newResults|] == newResults;
    }
    var values := m.Values();
    return Ok(values);
  }

  /** `args._.map((p) => path.resolve(p))`. */
  function ResolveAll(paths: seq<string>, resolve: string -> string): (resolved: seq<string>)
    ensures |resolved| == |paths|
    ensures forall i :: 0 <= i < |paths| ==> resolved[i] == resolve(paths[i])
  {
    seq(|paths|, i requires 0 <= i < |paths| => resolve(paths[i]))
  }

  function Finish(r: Result<seq<TestResult>, UpdateError>): Outcome
  {
    match r
    case Err(e) => Failed(e)
    case Ok(records) => Written(records)
  }

  /** The outcome of `main` for the new results file, the timings file and the deleted paths. */
  function UpdateOutcome(newFile: TimingsFile, outFile: TimingsFile, deletedPaths: seq<string>, resolve: string -> string): Outcome
  {
    var deleted := ResolveAll(deletedPaths, resolve);
    if |deleted| <= 0 then
      match Process(newFile)
      case Err(e) => Failed(BadNewResults(e))
      case Ok(report) =>
        if report.testResults == [] then NothingToUpdate
        else Finish(Merge(report.testResults, LoadExisting(outFile), deleted, resolve))
    else Finish(Merge([], LoadExisting(outFile), deleted, resolve))
  }

  /** `main`. */
  method RunUpdate(newFile: TimingsFile, outFile: TimingsFile, deletedPaths: seq<string>, resolve: string -> string)
    returns (outcome: Outcome)
    ensures outcome == UpdateOutcome(newFile, outFile, deletedPaths, resolve)
  {
    var deleted := ResolveAll(deletedPaths, resolve);
    var newResults: seq<TestResult> := [];
    if |deleted| <= 0 {
      var read := Process(newFile);
      if read.Err? {
        return Failed(BadNewResults(read.error));
      }
      newResults := read.value.testResults;
      if newResults == [] {
        return NothingToUpdate;
      }
    }
    var existing := LoadExisting(outFile);
    var merged := MergeTimings(newResults, existing, deleted, resolve);
    return Finish(merged);
  }

  // ---------------------------------------------------------------------------
  // What the script promises
  // ---------------------------------------------------------------------------

  /** Nothing is written exactly when no path is deleted and the new run has an empty `testResults` array. */
  lemma NothingToUpdateExactly(newFile: TimingsFile, outFile: TimingsFile, deletedPaths: seq<string>, resolve: string -> string)
    ensures UpdateOutcome(newFile, outFile, deletedPaths, resolve) == NothingToUpdate <==>
      deletedPaths == [] && newFile == Parsed(Some([]))
  {
    if deletedPaths == [] && newFile.Parsed? && newFile.testResults.Some? {
      assert |Process(newFile).value.testResults| == |newFile.testResults.value|;
    }
  }

  /** The run fails when the new results cannot be read, or when an existing record has no name; formatted new records always have one. */
  lemma UpdateFailures(newFile: TimingsFile, outFile: TimingsFile, deletedPaths: seq<string>, resolve: string -> string)
    ensures UpdateOutcome(newFile, outFile, deletedPaths, resolve).Failed? <==>
      || (deletedPaths == [] && !(newFile.Parsed? && newFile.testResults.Some?))
      || (!AllNamed(LoadExisting(outFile)) && (deletedPaths != [] || (newFile.Parsed? && newFile.testResults.Some? && newFile.testResults.value != [])))
  {
    if deletedPaths == [] && newFile.Parsed? && newFile.testResults.Some? {
      FormattedRecordsAreStored(newFile.testResults.value, resolve);
      assert |Process(newFile).value.testResults| == |newFile.testResults.value|;
    }
  }

  /**
    Every formatted record is stored: a falsy name was already replaced by
    "unknown", so the `continue` for nameless results never fires, and a
    record without a name is stored under `path.resolve("unknown")`.
   */
  lemma FormattedRecordsAreStored(raw: seq<TestResult>, resolve: string -> string)
    ensures AllNamed(FormatTimings(raw))
    ensures forall i :: 0 <= i < |raw| ==>
      Stored(FormatTimings(raw)[i], true) && Key(FormatTimings(raw)[i], resolve) == resolve(NameOr(raw[i].name, "unknown"))
  {
    forall i | 0 <= i < |raw| ensures Stored(FormatTimings(raw)[i], true) {
      FormatRecordMeaning(raw[i]);
    }
  }

  /** With deleted paths, the new results are never read: the outcome does not depend on them. */
  lemma DeletionIgnoresNewResults(newFile: TimingsFile, otherNewFile: TimingsFile, outFile: TimingsFile, deletedPaths: seq<string>, resolve: string -> string)
    requires deletedPaths != []
    ensures UpdateOutcome(newFile, outFile, deletedPaths, resolve) == UpdateOutcome(otherNewFile, outFile, deletedPaths, resolve)
  {
  }

  /**
    With deleted paths, exactly the resolved deleted paths leave the timings;
    every other entry keeps its record and the remaining entries their order.
   */
  lemma DeletionRemovesExactly(newFile: TimingsFile, outFile: TimingsFile, deletedPaths: seq<string>, resolve: string -> string)
    requires deletedPaths != [] && AllNamed(LoadExisting(outFile))
    ensures var e, deleted := Keyed(LoadExisting(outFile), resolve), ResolveAll(deletedPaths, resolve);
      var r := RemoveAll(e, deleted);
      && WellFormed(r)
      && UpdateOutcome(newFile, outFile, deletedPaths, resolve) == Written(ValuesOf(r))
      && r.keys == KeysNotIn(e.keys, deleted)
      && (forall k :: k in r.values <==> k in e.values && k !in deleted)
      && (forall k :: k in r.values ==> r.values[k] == e.values[k])
  {
    var existing := LoadExisting(outFile);
    MergedKeepsOrder(Empty(), existing, resolve, false);
    RemoveAllMeaning(Keyed(existing, resolve), ResolveAll(deletedPaths, resolve));
  }

  /** The entries the merge of a readable, non-empty new run ends with. */
  function Updated(raw: seq<TestResult>, existing: seq<TestResult>, resolve: string -> string): Entries<TestResult>
  {
    Merged(Keyed(existing, resolve), FormatTimings(raw), resolve, true)
  }

  /** Without deletions, a readable non-empty run is written as the merged entries, in insertion order. */
  lemma UpdateWrites(newFile: TimingsFile, outFile: TimingsFile, resolve: string -> string)
    requires newFile.Parsed? && newFile.testResults.Some? && newFile.testResults.value != []
    requires AllNamed(LoadExisting(outFile))
    ensures var r := Updated(newFile.testResults.value, LoadExisting(outFile), resolve);
      WellFormed(r) && UpdateOutcome(newFile, outFile, [], resolve) == Written(ValuesOf(r))
  {
    var raw, existing := newFile.testResults.value, LoadExisting(outFile);
    FormattedRecordsAreStored(raw, resolve);
    MergedKeepsOrder(Empty(), existing, resolve, false);
    MergedKeepsOrder(Keyed(existing, resolve), FormatTimings(raw), resolve, true);
    assert |Process(newFile).value.testResults| == |raw|;
  }

  /**
    The last new result for a path is the one written for it, formatted:
    each new result adds its path or replaces the entry already there.
   */
  lemma UpdateKeepsLatest(raw: seq<TestResult>, existing: seq<TestResult>, resolve: string -> string, i: nat)
    requires i < |raw|
    requires forall j :: i < j < |raw| ==> resolve(NameOr(raw[j].name, "unknown")) != resolve(NameOr(raw[i].name, "unknown"))
    ensures var k := resolve(NameOr(raw[i].name, "unknown"));
      k in Updated(raw, existing, resolve).values && Updated(raw, existing, resolve).values[k] == FormatRecord(raw[i])
  {
    FormattedRecordsAreStored(raw, resolve);
    MergedLastWins(Keyed(existing, resolve), FormatTimings(raw), resolve, true, i);
  }

  /**
    Existing entries keep their places in the written list; an entry whose
    path no new result has keeps its record too.
   */
  lemma UpdateKeepsOthers(raw: seq<TestResult>, existing: seq<TestResult>, resolve: string -> string)
    requires AllNamed(existing)
    ensures var e, r := Keyed(existing, resolve), Updated(raw, existing, resolve);
      && |e.keys| <= |r.keys| && r.keys[..|e.keys|] == e.keys
      && forall k :: (forall j :: 0 <= j < |raw| ==> resolve(NameOr(raw[j].name, "unknown")) != k) ==>
        (k in r.values <==> k in e.values) && (k in e.values ==> r.values[k] == e.values[k])
  {
    var e := Keyed(existing, resolve);
    var formatted := FormatTimings(raw);
    FormattedRecordsAreStored(raw, resolve);
    MergedKeepsOrder(Empty(), existing, resolve, false);
    MergedKeepsOrder(e, formatted, resolve, true);
    forall k | forall j :: 0 <= j < |raw| ==> resolve(NameOr(raw[j].name, "unknown")) != k
      ensures (k in Updated(raw, existing, resolve).values <==> k in e.values)
      ensures k in e.values ==> Updated(raw, existing, resolve).values[k] == e.values[k]
    {
      MergedKeepsOthers(e, formatted, resolve, true, k);
    }
  }

  /** A timings file that is missing, unparseable or without an array counts as an empty one. */
  lemma ExistingFallback(newFile: TimingsFile, deletedPaths: seq<string>, resolve: string -> string)
    ensures UpdateOutcome(newFile, Missing, deletedPaths, resolve) == UpdateOutcome(newFile, Parsed(Some([])), deletedPaths, resolve)
    ensures UpdateOutcome(newFile, Unparseable, deletedPaths, resolve) == UpdateOutcome(newFile, Parsed(Some([])), deletedPaths, resolve)
    ensures UpdateOutcome(newFile, Parsed(None), deletedPaths, resolve) == UpdateOutcome(newFile, Parsed(Some([])), deletedPaths, resolve)
  {
  }
}
