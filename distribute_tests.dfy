/**
  scripts/distributeTests.mjs: validates `--shards` and the optional
  `--index`, reads the timings file, distributes its tests, and prints every
  non-empty shard or only the one asked for. Command-line parsing, file I/O,
  `console` output and `process.exit` are outside the model: arguments come
  in already parsed (`None` for a `parseInt` that gave NaN), the file as a
  `TimingsFile`, `path.relative` as the function `relative`, and what the
  script prints or exits with as an `Outcome`.
 */
module DistributeTests {
  import opened Wrappers
  import opened StableSort
  import opened TimingRecords
  import opened Sharding

  /** `distributeTestsIntoShards`: sort longest first, then the greedy loop. */
  method DistributeTestsIntoShards(tests: seq<TimedTest>, totalShards: nat) returns (shards: seq<Shard>)
    requires totalShards > 0
    ensures shards == Distribution(tests, totalShards)
    ensures |shards| == totalShards && Bag(shards) == multiset(tests) && RuntimesMatch(shards)
  {
    var sorted := SortBy(tests, TimeDescending);
    shards := AssignGreedily(EmptyShards(totalShards), sorted);
    DistributionProperties(tests, totalShards);
  }

  /** What `main` ends with: exit 1 with a message, a warning and exit 0, or the printed shards. */
  datatype Outcome =
    | Failed(failure: Failure)
    | NoTests
    | AllShards(outputs: seq<ShardOutput>)
    | Selected(output: ShardOutput)
    | ShardNotFound(index: nat)

  /** The outcome of `main` for the given arguments and timings file. */
  function MainOutcome(shards: Option<int>, index: IndexArg, fileExists: bool, file: TimingsFile, relative: string -> string): Outcome
  {
    match ParseArguments(shards, index, fileExists)
    case Err(e) => Failed(BadArguments(e))
    case Ok(args) =>
      match LoadTimingsData(file, relative)
      case Err(e) => Failed(BadTimings(e))
      case Ok(tests) =>
        if tests == [] then NoTests
        else
          var outputs := Outputs(Distribution(tests, args.totalShards));
          if args.targetShardIndex.None? then AllShards(outputs)
          else
            match FindByIndex(outputs, args.targetShardIndex.value)
            case Some(o) => Selected(o)
            case None => ShardNotFound(args.targetShardIndex.value)
  }

  /** `main`. */
  method Run(shards: Option<int>, index: IndexArg, fileExists: bool, file: TimingsFile, relative: string -> string)
    returns (outcome: Outcome)
    ensures outcome == MainOutcome(shards, index, fileExists, file, relative)
  {
    var args := ParseArguments(shards, index, fileExists);
    if args.Err? {
      return Failed(BadArguments(args.error));
    }
    var tests := LoadTimingsData(file, relative);
    if tests.Err? {
      return Failed(BadTimings(tests.error));
    }
    if tests.value == [] {
      return NoTests;
    }
    var distribution := DistributeTestsIntoShards(tests.value, args.value.totalShards);
    var outputs := Outputs(distribution);
    if args.value.targetShardIndex.None? {
      return AllShards(outputs);
    }
    var found := FindByIndex(outputs, args.value.targetShardIndex.value);
    if found.None? {
      return ShardNotFound(args.value.targetShardIndex.value);
    }
    return Selected(found.value);
  }

  /**
    With valid arguments and at least one test, the printed shards are the
    non-empty shards numbered 1 .. k in order, k is between 1 and the shard
    count, and together they hold every test once.
   */
  lemma AllShardsPrinted(shards: Option<int>, fileExists: bool, file: TimingsFile, relative: string -> string)
    requires ParseArguments(shards, NoIndex, fileExists).Ok?
    requires LoadTimingsData(file, relative).Ok? && LoadTimingsData(file, relative).value != []
    ensures var tests, n := LoadTimingsData(file, relative).value, shards.value;
      var printed := NonEmptyShards(Distribution(tests, n));
      && MainOutcome(shards, NoIndex, fileExists, file, relative) == AllShards(Numbered(printed))
      && 1 <= |printed| <= n
      && Bag(printed) == multiset(tests)
  {
    var tests, n := LoadTimingsData(file, relative).value, shards.value;
    var d := Distribution(tests, n);
    DistributionProperties(tests, n);
    NonEmptyShardsKeepTests(d);
    assert tests[0] in multiset(tests);
    SomeShardIsPrinted(d);
  }

  /**
    With an index, shard number `index` of the printed list is selected when
    it exists; otherwise the script only warns. Shard 1 always exists.
   */
  lemma IndexSelectsShard(shards: Option<int>, index: int, fileExists: bool, file: TimingsFile, relative: string -> string)
    requires ParseArguments(shards, IndexGiven(Some(index)), fileExists).Ok?
    requires LoadTimingsData(file, relative).Ok? && LoadTimingsData(file, relative).value != []
    ensures var outputs := Outputs(Distribution(LoadTimingsData(file, relative).value, shards.value));
      && MainOutcome(shards, IndexGiven(Some(index)), fileExists, file, relative)
        == (if index <= |outputs| then Selected(outputs[index - 1]) else ShardNotFound(index))
      && (index == 1 ==> MainOutcome(shards, IndexGiven(Some(index)), fileExists, file, relative).Selected?)
  {
    var tests, n := LoadTimingsData(file, relative).value, shards.value;
    var d := Distribution(tests, n);
    FindOutput(d, index);
    DistributionProperties(tests, n);
    assert tests[0] in multiset(tests);
    SomeShardIsPrinted(d);
  }

  /** An empty `testResults` array only warns; any failed check is an error. */
  lemma FailuresAndWarnings(shards: Option<int>, index: IndexArg, fileExists: bool, file: TimingsFile, relative: string -> string)
    ensures MainOutcome(shards, index, fileExists, file, relative).Failed? <==>
      ParseArguments(shards, index, fileExists).Err? || !(file.Parsed? && file.testResults.Some?)
    ensures MainOutcome(shards, index, fileExists, file, relative).NoTests? <==>
      ParseArguments(shards, index, fileExists).Ok? && file.Parsed? && file.testResults == Some([])
  {
  }
}
