/**
  scripts/shard.js, the CommonJS distributor: the index is required, the
  tests are distributed as in scripts/distributeTests.mjs, and the files of
  shard `index` of the distribution (counted from 1, with no re-sorting and
  no dropping of empty shards) are printed on one line, separated by spaces.
  An empty selected shard only warns and exits with status 0.
 */
module ShardJs {
  import opened Wrappers
  import opened StableSort
  import opened TimingRecords
  import opened Sharding
  import Decimal

  /** How the script ends: exit 1 after an error, exit 0 after the empty-shard warning, or the printed line. */
  datatype Outcome = Failed(failure: Failure) | EmptyShard(index: nat) | Printed(line: string)

  /** The outcome of the script for the given arguments and timings file. */
  function RunOutcome(shards: Option<int>, index: Option<int>, fileExists: bool, file: TimingsFile, relative: string -> string): Outcome
  {
    match ParseArguments(shards, IndexGiven(index), fileExists)
    case Err(e) => Failed(BadArguments(e))
    case Ok(args) =>
      match LoadTimingsData(file, relative)
      case Err(e) => Failed(BadTimings(e))
      case Ok(timed) =>
        var target := args.targetShardIndex.value;
        var selected := Distribution(timed, args.totalShards)[target - 1];
        if selected.tests == [] then EmptyShard(target)
        else Printed(Decimal.Join(Files(selected.tests), " "))
  }

  /** The script, top to bottom. */
  method Run(shards: Option<int>, index: Option<int>, fileExists: bool, file: TimingsFile, relative: string -> string)
    returns (outcome: Outcome)
    ensures outcome == RunOutcome(shards, index, fileExists, file, relative)
  {
    var args := ParseArguments(shards, IndexGiven(index), fileExists);
    if args.Err? {
      return Failed(BadArguments(args.error));
    }
    var timed := LoadTimingsData(file, relative);
    if timed.Err? {
      return Failed(BadTimings(timed.error));
    }
    var tests := SortBy(timed.value, TimeDescending);
    var placed := AssignGreedily(EmptyShards(args.value.totalShards), tests);
    var target := args.value.targetShardIndex.value;
    var selected := placed[target - 1];
    if selected.tests == [] {
      return EmptyShard(target);
    }
    return Printed(Decimal.Join(Files(selected.tests), " "));
  }

  /** Any failed check ends the run with exit status 1, before anything is placed. */
  lemma RunFails(shards: Option<int>, index: Option<int>, fileExists: bool, file: TimingsFile, relative: string -> string)
    ensures RunOutcome(shards, index, fileExists, file, relative).Failed? <==>
      ParseArguments(shards, IndexGiven(index), fileExists).Err? || !(file.Parsed? && file.testResults.Some?)
  {
  }

  /**
    With valid arguments and a readable file, the script warns exactly when
    shard `index` of the distribution is empty and otherwise prints that
    shard's files.
   */
  lemma RunPrintsSelectedShard(shards: Option<int>, index: Option<int>, fileExists: bool, file: TimingsFile, relative: string -> string)
    requires ParseArguments(shards, IndexGiven(index), fileExists).Ok?
    requires LoadTimingsData(file, relative).Ok?
    ensures var selected := Distribution(LoadTimingsData(file, relative).value, shards.value)[index.value - 1];
      var outcome := RunOutcome(shards, index, fileExists, file, relative);
      && (outcome.EmptyShard? <==> selected.tests == [])
      && (outcome.Printed? ==> outcome.line == Decimal.Join(Files(selected.tests), " "))
  {
  }

  /**
    The shard a run prints holds its files longest first, each of them one of
    the timed tests; run once per index, the script prints every test exactly
    once.
   */
  lemma SelectedShardContents(timed: seq<TimedTest>, n: nat, index: nat)
    requires 1 <= index <= n
    ensures |Distribution(timed, n)| == n
    ensures NonIncreasing(Distribution(timed, n)[index - 1].tests)
    ensures forall t :: t in Distribution(timed, n)[index - 1].tests ==> t in timed
    ensures Bag(Distribution(timed, n)) == multiset(timed)
  {
    var d := Distribution(timed, n);
    DistributionProperties(timed, n);
    forall t | t in d[index - 1].tests ensures t in timed {
      InBag(d, index - 1, t);
      assert t in multiset(timed);
    }
  }

  /** An empty `testResults` array is not an error here: the selected shard is empty, so the script only warns. */
  lemma NoTestsOnlyWarns(shards: Option<int>, index: Option<int>, fileExists: bool, relative: string -> string)
    requires ParseArguments(shards, IndexGiven(index), fileExists).Ok?
    ensures RunOutcome(shards, index, fileExists, Parsed(Some([])), relative) == EmptyShard(index.value)
  {
    SelectedShardContents([], shards.value, index.value);
  }

  /** With one shard, the only shard holds every test, longest first. */
  lemma OneShardHoldsEverything(timed: seq<TimedTest>)
    ensures |Distribution(timed, 1)| == 1
    ensures Distribution(timed, 1)[0].tests == SortBy(timed, TimeDescending)
  {
    var sorted := SortBy(timed, TimeDescending);
    GreedyOneShard(EmptyShards(1), sorted);
    assert EmptyShards(1)[0].tests + sorted == sorted;
  }

  /** With a single shard and at least one test, the script prints every test, longest first. */
  lemma OneShardPrintsEverything(fileExists: bool, file: TimingsFile, relative: string -> string)
    requires fileExists && LoadTimingsData(file, relative).Ok? && LoadTimingsData(file, relative).value != []
    ensures var timed := LoadTimingsData(file, relative).value;
      RunOutcome(Some(1), Some(1), fileExists, file, relative) == Printed(Decimal.Join(Files(SortBy(timed, TimeDescending)), " "))
  {
    OneShardHoldsEverything(LoadTimingsData(file, relative).value);
  }
}
