/**
  scripts/combine.js: merges the raw records of a new Jest run into the
  timings file. Unlike scripts/updateTimings.mjs it does not format the new
  records, skips a new record whose name is falsy, has no deletion mode and
  no no-op guard: an empty run rewrites the file. The files are
  `TimingsFile` values, `path.resolve` is the parameter `resolve`, and what
  the script writes or why it stops is an `Outcome`.
 */
module CombineTimings {
  import opened Wrappers
  import opened TimingRecords
  import opened OrderedMaps
  import opened TimingsMerge

  /**
    Why the script stops with status 1: the new results could not be read
    (`process.exit(1)`), or a `TypeError` thrown while reading the existing
    records, because the parsed file has no `testResults` to iterate or one
    of its records has no name for `path.resolve`.
   */
  datatype CombineError = BadNewResults(loadError: LoadError) | NoExistingArray | NamelessRecord

  datatype Outcome = Failed(error: CombineError) | Written(testResults: seq<TestResult>)

  /** The existing records: none when the file is missing or does not parse. */
  function ExistingRecords(file: TimingsFile): (r: Result<seq<TestResult>, CombineError>)
    ensures r.Ok? <==> !(file.Parsed? && file.testResults.None?)
    ensures r.Ok? && file.Parsed? ==> r.value == file.testResults.value
    ensures r.Ok? && !file.Parsed? ==> r.value == []
  {
    match file
    case Missing => Ok([])
    case Unparseable => Ok([])
    case Parsed(results) => if results.None? then Err(NoExistingArray) else Ok(results.value)
  }

  /** The map after both loops: the existing records keyed, then the new records with a truthy name. */
  function Combined(newResults: seq<TestResult>, existing: seq<TestResult>, resolve: string -> string): Entries<TestResult>
  {
    Merged(Keyed(existing, resolve), newResults, resolve, true)
  }

  lemma CombinedWellFormed(newResults: seq<TestResult>, existing: seq<TestResult>, resolve: string -> string)
    ensures WellFormed(Combined(newResults, existing, resolve))
  {
    MergedKeepsOrder(Empty(), existing, resolve, false);
    MergedKeepsOrder(Keyed(existing, resolve), newResults, resolve, true);
  }

  /** What the script writes for the new results file and the timings file, or why it stops. */
  function CombineOutcome(newFile: TimingsFile, outFile: TimingsFile, resolve: string -> string): Outcome
  {
    match LoadTestResults(newFile)
    case Err(e) => Failed(BadNewResults(e))
    case Ok(newResults) =>
      match ExistingRecords(outFile)
      case Err(e) => Failed(e)
      case Ok(existing) =>
        if !AllNamed(existing) then Failed(NamelessRecord)
        else
          CombinedWellFormed(newResults, existing, resolve);
          Written(ValuesOf(Combined(newResults, existing, resolve)))
  }

  /** The script, top to bottom. */
  method Combine(newFile: TimingsFile, outFile: TimingsFile, resolve: string -> string) returns (outcome: Outcome)
    ensures outcome == CombineOutcome(newFile, outFile, resolve)
  {
    var loaded := LoadTestResults(newFile);
    if loaded.Err? {
      return Failed(BadNewResults(loaded.error));
    }
    var existing := ExistingRecords(outFile);
    if existing.Err? {
      return Failed(existing.error);
    }
    var m := new OrderedMap<TestResult>();
    var ok := PutAll(m, existing.value, resolve);
    if !ok {
      return Failed(NamelessRecord);
    }
    PutNamed(m, loaded.value, resolve);
    var values := m.Values();
    return Written(values);
  }

  // ---------------------------------------------------------------------------
  // What the script promises
  // ---------------------------------------------------------------------------

  /**
    The run stops when the new results cannot be read, when the existing file
    parses but has no `testResults`, or when an existing record has no name;
    otherwise it writes.
   */
  lemma CombineFailures(newFile: TimingsFile, outFile: TimingsFile, resolve: string -> string)
    ensures CombineOutcome(newFile, outFile, resolve).Failed? <==>
      || !(newFile.Parsed? && newFile.testResults.Some?)
      || outFile == Parsed(None)
      || (outFile.Parsed? && outFile.testResults.Some? && !AllNamed(outFile.testResults.value))
  {
  }

  /** A new record with a falsy name is skipped: the result is the same without it. */
  lemma NamelessNewResultIsSkipped(newResults: seq<TestResult>, existing: seq<TestResult>, resolve: string -> string, i: nat)
    requires i < |newResults| && !NameIsTruthy(newResults[i].name)
    ensures Combined(newResults, existing, resolve) == Combined(newResults[..i] + newResults[i + 1..], existing, resolve)
  {
    MergedSkips(Keyed(existing, resolve), newResults, resolve, true, i);
  }

  /** The last new record with a truthy name for a path is the one written for it, unformatted. */
  lemma CombineKeepsLatest(newResults: seq<TestResult>, existing: seq<TestResult>, resolve: string -> string, i: nat)
    requires i < |newResults| && NameIsTruthy(newResults[i].name)
    requires forall j :: i < j < |newResults| && NameIsTruthy(newResults[j].name) ==>
      resolve(newResults[j].name.value) != resolve(newResults[i].name.value)
    ensures var k := resolve(newResults[i].name.value);
      k in Combined(newResults, existing, resolve).values && Combined(newResults, existing, resolve).values[k] == newResults[i]
  {
    MergedLastWins(Keyed(existing, resolve), newResults, resolve, true, i);
  }

  /**
    The existing entries keep their places in the written list; an existing
    path that no new record names keeps its record.
   */
  lemma CombineKeepsOthers(newResults: seq<TestResult>, existing: seq<TestResult>, resolve: string -> string, k: string)
    requires forall j :: 0 <= j < |newResults| && NameIsTruthy(newResults[j].name) ==> resolve(newResults[j].name.value) != k
    ensures var e, r := Keyed(existing, resolve), Combined(newResults, existing, resolve);
      && |e.keys| <= |r.keys| && r.keys[..|e.keys|] == e.keys
      && (k in r.values <==> k in e.values)
      && (k in e.values ==> r.values[k] == e.values[k])
  {
    var e := Keyed(existing, resolve);
    CombinedWellFormed(newResults, existing, resolve);
    MergedKeepsOrder(Empty(), existing, resolve, false);
    MergedKeepsOrder(e, newResults, resolve, true);
    MergedKeepsOthers(e, newResults, resolve, true, k);
  }

  /**
    There is no guard for an empty run: the timings file is rewritten, and a
    file without duplicate paths is rewritten unchanged.
   */
  lemma EmptyRunRewritesFile(outFile: TimingsFile, resolve: string -> string)
    requires outFile.Parsed? && outFile.testResults.Some?
    requires AllNamed(outFile.testResults.value) && DistinctKeys(outFile.testResults.value, resolve)
    ensures CombineOutcome(Parsed(Some([])), outFile, resolve) == Written(outFile.testResults.value)
  {
    KeyedWithoutDuplicates(outFile.testResults.value, resolve);
  }
}
