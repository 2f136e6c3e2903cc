/**
  scripts/shard.mjs, `distribute(args)`: like scripts/distributeTests.mjs,
  but the index is required, test paths given on the command line that the
  timings file does not know are added with a time of 1 second, the shards
  are sorted by decreasing runtime after the loop, and the non-empty shards
  are returned, numbered, instead of printed.
 */
module ShardMjs {
  import opened Wrappers
  import opened StableSort
  import opened TimingRecords
  import opened Sharding
  import Decimal

  /**
    The command-line paths not already among the timed files, relative to the
    working directory and charged 1 second each, in the order given. Each path
    is checked against the timed list only, so a path given twice is added twice.
   */
  function NewTests(timedFiles: seq<string>, newPaths: seq<string>, relative: string -> string): (added: seq<TimedTest>)
    ensures forall t :: t in added ==> t.time == 1.0 && t.file !in timedFiles && exists p :: p in newPaths && relative(p) == t.file
    ensures forall p :: p in newPaths && relative(p) !in timedFiles ==> TimedTest(relative(p), 1.0) in added
    decreases |newPaths|
  {
    if newPaths == [] then []
    else
      var rest := NewTests(timedFiles, newPaths[1..], relative);
      assert forall p :: p in newPaths[1..] ==> p in newPaths;
      var file := relative(newPaths[0]);
      (if file in timedFiles then [] else [TimedTest(file, 1.0)]) + rest
  }

  /** The tests in the order the loop takes them: the timed ones longest first, then the new ones. */
  function TestsToPlace(timed: seq<TimedTest>, newPaths: seq<string>, relative: string -> string): seq<TimedTest>
  {
    var sorted := SortBy(timed, TimeDescending);
    sorted + NewTests(Files(sorted), newPaths, relative)
  }

  /** The key of the comparator `(a, b) => b.totalRuntime - a.totalRuntime`. */
  function RuntimeDescending(s: Shard): real
  {
    -s.totalRuntime
  }

  /** The greedy loop on empty shards, then the final sort by decreasing runtime. */
  function FinalShards(tests: seq<TimedTest>, totalShards: nat): seq<Shard>
    requires totalShards > 0
  {
    SortBy(Greedy(EmptyShards(totalShards), tests), RuntimeDescending)
  }

  /** How `distribute` ends: exit 1 after an error, exit 0 after the empty-shard warning, or the numbered shards. */
  datatype Outcome = Failed(failure: Failure) | EmptyShard(index: nat) | Shards(outputs: seq<ShardOutput>)

  /**
    The outcome of `distribute`. Because the index was checked against the
    shard count, `shards[index - 1]` always exists; only its being empty is
    reported.
   */
  function DistributeOutcome(
    shards: Option<int>, index: Option<int>, fileExists: bool, file: TimingsFile,
    newPaths: seq<string>, relative: string -> string): Outcome
  {
    match ParseArguments(shards, IndexGiven(index), fileExists)
    case Err(e) => Failed(BadArguments(e))
    case Ok(args) =>
      match LoadTimingsData(file, relative)
      case Err(e) => Failed(BadTimings(e))
      case Ok(timed) =>
        var final := FinalShards(TestsToPlace(timed, newPaths, relative), args.totalShards);
        var target := args.targetShardIndex.value;
        if final[target - 1].tests == [] then EmptyShard(target)
        else Shards(Outputs(final))
  }

  /** `distribute`. `test.time ? test.time : 0` is `test.time` for every number other than NaN, so the loop charges the time itself. */
  method Distribute(
    shards: Option<int>, index: Option<int>, fileExists: bool, file: TimingsFile,
    newPaths: seq<string>, relative: string -> string) returns (outcome: Outcome)
    ensures outcome == DistributeOutcome(shards, index, fileExists, file, newPaths, relative)
  {
    var args := ParseArguments(shards, IndexGiven(index), fileExists);
    if args.Err? {
      return Failed(BadArguments(args.error));
    }
    var timed := LoadTimingsData(file, relative);
    if timed.Err? {
      return Failed(BadTimings(timed.error));
    }
    var tests := SortBy(timed.value, TimeDescending);
    tests := tests + NewTests(Files(tests), newPaths, relative);
    assert tests == TestsToPlace(timed.value, newPaths, relative);
    var placed := AssignGreedily(EmptyShards(args.value.totalShards), tests);
    placed := SortBy(placed, RuntimeDescending);
    assert placed == FinalShards(tests, args.value.totalShards);
    var target := args.value.targetShardIndex.value;
    if placed[target - 1].tests == [] {
      return EmptyShard(target);
    }
    return Shards(Outputs(placed));
  }

  /**
    The timed tests come first, longest first; the rest are the new paths
    with 1 second each; nothing is lost or added along the way.
   */
  lemma TestsToPlaceProperties(timed: seq<TimedTest>, newPaths: seq<string>, relative: string -> string)
    ensures var placed, sorted := TestsToPlace(timed, newPaths, relative), SortBy(timed, TimeDescending);
      && placed[..|timed|] == sorted
      && NonIncreasing(placed[..|timed|])
      && multiset(placed) == multiset(timed) + multiset(NewTests(Files(sorted), newPaths, relative))
      && (forall i :: |timed| <= i < |placed| ==> placed[i].time == 1.0 && placed[i].file !in Files(timed))
  {
    var sorted := SortBy(timed, TimeDescending);
    var added := NewTests(Files(sorted), newPaths, relative);
    var placed := sorted + added;
    SortByTimeDescending(timed);
    assert placed[..|timed|] == sorted;
    forall i | |timed| <= i < |placed| ensures placed[i].time == 1.0 && placed[i].file !in Files(timed) {
      assert placed[i] == added[i - |timed|];
      assert placed[i] in added;
      FilesOfPermutation(timed, sorted);
    }
  }

  lemma FilesOfPermutation(a: seq<TimedTest>, b: seq<TimedTest>)
    requires multiset(a) == multiset(b)
    ensures forall f :: f in Files(a) <==> f in Files(b)
  {
    forall f | f in Files(a) ensures f in Files(b) {
      var i :| 0 <= i < |a| && Files(a)[i] == f;
      assert a[i] in multiset(b);
      var j :| 0 <= j < |b| && b[j] == a[i];
      assert Files(b)[j] == f;
    }
    forall f | f in Files(b) ensures f in Files(a) {
      var j :| 0 <= j < |b| && Files(b)[j] == f;
      assert b[j] in multiset(a);
      var i :| 0 <= i < |a| && a[i] == b[j];
      assert Files(a)[i] == f;
    }
  }

  /**
    After the final sort there are still `totalShards` shards; every test is
    in exactly one of them, and each runtime is the sum of that shard's times.
   */
  lemma FinalShardsProperties(tests: seq<TimedTest>, totalShards: nat)
    requires totalShards > 0
    ensures |FinalShards(tests, totalShards)| == totalShards
    ensures Bag(FinalShards(tests, totalShards)) == multiset(tests)
    ensures RuntimesMatch(FinalShards(tests, totalShards))
  {
    var empty := EmptyShards(totalShards);
    var greedy := Greedy(empty, tests);
    EmptyShardsHoldNothing(totalShards);
    GreedyPlacesEachTestOnce(empty, tests);
    GreedyKeepsRuntimes(empty, tests);
    BagSort(greedy, RuntimeDescending);
    SortKeepsRuntimes(greedy, RuntimeDescending);
  }

  /** The returned shards are ordered by non-increasing runtime. */
  lemma FinalShardsOrdered(tests: seq<TimedTest>, totalShards: nat)
    requires totalShards > 0
    ensures var final := FinalShards(tests, totalShards);
      forall i, j :: 0 <= i < j < |final| ==> final[i].totalRuntime >= final[j].totalRuntime
  {
    var final := FinalShards(tests, totalShards);
    forall i, j | 0 <= i < j < |final| ensures final[i].totalRuntime >= final[j].totalRuntime {
      assert RuntimeDescending(final[i]) <= RuntimeDescending(final[j]);
    }
  }

  /**
    With valid arguments and a readable file, the run warns exactly when the
    selected shard of the re-sorted list is empty, and otherwise returns the
    non-empty shards numbered from 1, holding every test once between them.
   */
  lemma DistributeOutcomeCases(
    shards: Option<int>, index: Option<int>, fileExists: bool, file: TimingsFile,
    newPaths: seq<string>, relative: string -> string)
    requires ParseArguments(shards, IndexGiven(index), fileExists).Ok?
    requires LoadTimingsData(file, relative).Ok?
    ensures var tests := TestsToPlace(LoadTimingsData(file, relative).value, newPaths, relative);
      var final := FinalShards(tests, shards.value);
      var outcome := DistributeOutcome(shards, index, fileExists, file, newPaths, relative);
      && (outcome.EmptyShard? <==> final[index.value - 1].tests == [])
      && (outcome.Shards? ==> outcome.outputs == Numbered(NonEmptyShards(final)) && Bag(NonEmptyShards(final)) == multiset(tests))
      && !outcome.Failed?
  {
    var tests := TestsToPlace(LoadTimingsData(file, relative).value, newPaths, relative);
    FinalShardsProperties(tests, shards.value);
    NonEmptyShardsKeepTests(FinalShards(tests, shards.value));
  }

  /** Any failed check ends the run with exit status 1, before anything is placed. */
  lemma DistributeFails(
    shards: Option<int>, index: Option<int>, fileExists: bool, file: TimingsFile,
    newPaths: seq<string>, relative: string -> string)
    ensures DistributeOutcome(shards, index, fileExists, file, newPaths, relative).Failed? <==>
      ParseArguments(shards, IndexGiven(index), fileExists).Err? || !(file.Parsed? && file.testResults.Some?)
  {
  }
}
