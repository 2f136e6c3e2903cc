/**
  The greedy shard distributor shared by scripts/distributeTests.mjs,
  scripts/shard.mjs and scripts/shard.js: tests are taken longest first, and
  each goes to the shard that is least loaded at that moment, found by a
  stable ascending sort of the shards on their total runtime. A shard keeps
  each file together with the time it was charged, so that its total can be
  related to its files.
 */
module Sharding {
  import opened Wrappers
  import opened StableSort
  import opened TimingRecords
  import Decimal

  datatype TimedTest = TimedTest(file: string, time: real)

  datatype Shard = Shard(totalRuntime: real, tests: seq<TimedTest>)

  /** The file names of `tests`, in order. */
  function Files(tests: seq<TimedTest>): (files: seq<string>)
    ensures |files| == |tests|
    ensures forall i :: 0 <= i < |tests| ==> files[i] == tests[i].file
  {
    seq(|tests|, i requires 0 <= i < |tests| => tests[i].file)
  }

  /** A timing record as a test to place: its path relative to the working directory (`relative`) and its duration. */
  function ToTimedTest(r: TestResult, relative: string -> string): TimedTest
  {
    TimedTest(relative(NameOr(r.name, "unknown.test.js")), Duration(r))
  }

  function TimedTests(results: seq<TestResult>, relative: string -> string): (tests: seq<TimedTest>)
    ensures |tests| == |results|
    ensures forall i :: 0 <= i < |results| ==> tests[i] == ToTimedTest(results[i], relative)
  {
    seq(|results|, i requires 0 <= i < |results| => ToTimedTest(results[i], relative))
  }

  /** Every test read from a timings file has a positive time: the duration rule never yields 0. */
  lemma TimedTestsArePositive(results: seq<TestResult>, relative: string -> string)
    ensures forall t :: t in TimedTests(results, relative) ==> t.time > 0.0
  {
  }

  // ---------------------------------------------------------------------------
  // Arguments and input, common to the three distributors
  // ---------------------------------------------------------------------------

  /** `--index`: not given, or given and parsed (`None` when it is not a number). */
  datatype IndexArg = NoIndex | IndexGiven(parsed: Option<int>)

  datatype Arguments = Arguments(totalShards: nat, targetShardIndex: Option<nat>)

  datatype ArgumentError = ShardsNotPositive | IndexOutOfRange | TimingsFileNotFound

  /**
    The argument checks, in order: `--shards` must be a positive integer, and
    `--index` must lie in 1 .. shards whenever it is given (scripts/distributeTests.mjs
    makes it optional; scripts/shard.mjs and scripts/shard.js always have one),
    and the timings file must exist.
   */
  function ParseArguments(shards: Option<int>, index: IndexArg, fileExists: bool): (r: Result<Arguments, ArgumentError>)
    ensures r.Ok? <==>
      && shards.Some? && shards.value > 0
      && (index.IndexGiven? ==> index.parsed.Some? && 1 <= index.parsed.value <= shards.value)
      && fileExists
    ensures r == Err(ShardsNotPositive) <==> shards.None? || shards.value <= 0
    ensures r.Ok? ==> r.value.totalShards == shards.value > 0
    ensures r.Ok? ==> (r.value.targetShardIndex.Some? <==> index.IndexGiven?)
    ensures r.Ok? && index.IndexGiven? ==> r.value.targetShardIndex.value == index.parsed.value
  {
    if shards.None? || shards.value <= 0 then Err(ShardsNotPositive)
    else if index.IndexGiven? && (index.parsed.None? || index.parsed.value <= 0 || index.parsed.value > shards.value) then
      Err(IndexOutOfRange)
    else if !fileExists then Err(TimingsFileNotFound)
    else
      var target: Option<nat> := if index.IndexGiven? then Some(index.parsed.value) else None;
      Ok(Arguments(shards.value, target))
  }

  /**
    Reading the timings file (`loadTimingsData` in scripts/distributeTests.mjs): a file that cannot be read or parsed, or has no
    `testResults` array, is an error; otherwise one test per record, named by
    its relative path ("unknown.test.js" when nameless), with the duration rule.
    The existence check came before, so a read failure is reported as a parse failure.
   */
  function LoadTimingsData(file: TimingsFile, relative: string -> string): (r: Result<seq<TimedTest>, LoadError>)
    ensures r.Ok? <==> file.Parsed? && file.testResults.Some?
    ensures r.Err? ==> r.error != FileNotFound
    ensures r.Ok? ==> |r.value| == |file.testResults.value|
    ensures r.Ok? ==> forall i :: 0 <= i < |r.value| ==>
      var record := file.testResults.value[i];
      r.value[i].file == relative(NameOr(record.name, "unknown.test.js")) && r.value[i].time == Duration(record) > 0.0
  {
    match LoadTestResults(file)
    case Err(e) => Err(if e == FileNotFound then ParseFailed else e)
    case Ok(records) => Ok(TimedTests(records, relative))
  }

  datatype Failure = BadArguments(argumentError: ArgumentError) | BadTimings(loadError: LoadError)

  // ---------------------------------------------------------------------------
  // The greedy loop
  // ---------------------------------------------------------------------------

  /** The key of the comparator `(a, b) => b.time - a.time`. */
  function TimeDescending(t: TimedTest): real
  {
    -t.time
  }

  /** The key of the comparator `(a, b) => a.totalRuntime - b.totalRuntime`. */
  function RuntimeAscending(s: Shard): real
  {
    s.totalRuntime
  }

  predicate NonIncreasing(tests: seq<TimedTest>)
  {
    forall i, j :: 0 <= i < j < |tests| ==> tests[i].time >= tests[j].time
  }

  /** Sorting the tests longest first keeps every test and leaves them in non-increasing time order. */
  lemma SortByTimeDescending(tests: seq<TimedTest>)
    ensures multiset(SortBy(tests, TimeDescending)) == multiset(tests)
    ensures NonIncreasing(SortBy(tests, TimeDescending))
  {
    var sorted := SortBy(tests, TimeDescending);
    forall i, j | 0 <= i < j < |sorted| ensures sorted[i].time >= sorted[j].time {
      assert TimeDescending(sorted[i]) <= TimeDescending(sorted[j]);
    }
  }

  /** `Array.from({ length: n }, () => ({ totalRuntime: 0, files: [] }))`. */
  function EmptyShards(n: nat): (shards: seq<Shard>)
    ensures |shards| == n
    ensures forall i :: 0 <= i < n ==> shards[i] == Shard(0.0, [])
  {
    seq(n, i => Shard(0.0, []))
  }

  /** `shard.files.push(test.file); shard.totalRuntime += test.time`. */
  function AddTest(s: Shard, t: TimedTest): Shard
  {
    Shard(s.totalRuntime + t.time, s.tests + [t])
  }

  /** One step of the loop: sort the shards by runtime, then charge the test to the first one. */
  function Assign(shards: seq<Shard>, t: TimedTest): (r: seq<Shard>)
    requires shards != []
    ensures |r| == |shards|
  {
    var sorted := SortBy(shards, RuntimeAscending);
    sorted[0 := AddTest(sorted[0], t)]
  }

  /** The whole loop, over the tests in the order given. */
  function Greedy(shards: seq<Shard>, tests: seq<TimedTest>): (r: seq<Shard>)
    requires shards != []
    ensures |r| == |shards|
    decreases |tests|
  {
    if tests == [] then shards
    else Assign(Greedy(shards, tests[..|tests| - 1]), tests[|tests| - 1])
  }

  /**
    `for (const test of tests) { shards.sort(...); shards[0].files.push(...);
    shards[0].totalRuntime += ... }`, the loop of all three distributors.
   */
  method AssignGreedily(initial: seq<Shard>, tests: seq<TimedTest>) returns (shards: seq<Shard>)
    requires initial != []
    ensures shards == Greedy(initial, tests)
  {
    shards := initial;
    for i := 0 to |tests|
      invariant shards == Greedy(initial, tests[..i])
    {
      assert tests[..i + 1][..i] == tests[..i];
      shards := SortBy(shards, RuntimeAscending);
      shards := shards[0 := AddTest(shards[0], tests[i])];
    }
    assert tests[..|tests|] == tests;
  }

  // ---------------------------------------------------------------------------
  // The least-loaded choice
  // ---------------------------------------------------------------------------

  /** A test goes to a shard of least total runtime, the earliest such shard in the current order. */
  lemma AssignChoosesLeastLoaded(shards: seq<Shard>, t: TimedTest)
    requires shards != []
    ensures var k := FirstMinimum(shards, RuntimeAscending);
      && Assign(shards, t)[0] == AddTest(shards[k], t)
      && (forall j :: 0 <= j < |shards| ==> shards[k].totalRuntime <= shards[j].totalRuntime)
      && (forall j :: 0 <= j < k ==> shards[j].totalRuntime > shards[k].totalRuntime)
  {
    SortHead(shards, RuntimeAscending);
  }

  /** Apart from the chosen shard, which gains the test, the shards are carried over unchanged. */
  lemma AssignKeepsOtherShards(shards: seq<Shard>, t: TimedTest)
    requires shards != []
    ensures var k := FirstMinimum(shards, RuntimeAscending);
      multiset(Assign(shards, t)) == multiset(shards) - multiset{shards[k]} + multiset{AddTest(shards[k], t)}
  {
    var sorted := SortBy(shards, RuntimeAscending);
    SortHead(shards, RuntimeAscending);
    ReplaceHead(sorted, AddTest(sorted[0], t));
  }

  lemma ReplaceHead(s: seq<Shard>, x: Shard)
    requires s != []
    ensures multiset(s[0 := x]) == multiset(s) - multiset{s[0]} + multiset{x}
  {
    assert s == [s[0]] + s[1..];
    assert s[0 := x] == [x] + s[1..];
  }

  // ---------------------------------------------------------------------------
  // Every test is placed exactly once
  // ---------------------------------------------------------------------------

  /** All the tests held by the shards, with repeats. */
  function Bag(shards: seq<Shard>): multiset<TimedTest>
    decreases |shards|
  {
    if shards == [] then multiset{} else multiset(shards[0].tests) + Bag(shards[1..])
  }

  lemma BagCons(s: Shard, rest: seq<Shard>)
    ensures Bag([s] + rest) == multiset(s.tests) + Bag(rest)
  {
    assert ([s] + rest)[1..] == rest;
  }

  lemma {:induction false} BagInsert(s: Shard, sorted: seq<Shard>, key: Shard -> real)
    requires Sorted(sorted, key)
    ensures Bag(Insert(s, sorted, key)) == multiset(s.tests) + Bag(sorted)
    decreases |sorted|
  {
    if sorted == [] || key(s) <= key(sorted[0]) {
      BagCons(s, sorted);
    } else {
      var h, t := sorted[0], sorted[1..];
      assert sorted == [h] + t;
      BagInsert(s, t, key);
      BagCons(h, Insert(s, t, key));
      BagCons(h, t);
    }
  }

  /** Sorting the shards, on any key, moves shards around and nothing else. */
  lemma {:induction false} BagSort(shards: seq<Shard>, key: Shard -> real)
    ensures Bag(SortBy(shards, key)) == Bag(shards)
    decreases |shards|
  {
    if shards != [] {
      BagSort(shards[1..], key);
      BagInsert(shards[0], SortBy(shards[1..], key), key);
    }
  }

  lemma BagAddToFirst(shards: seq<Shard>, t: TimedTest)
    requires shards != []
    ensures Bag(shards[0 := AddTest(shards[0], t)]) == Bag(shards) + multiset{t}
  {
    assert shards[0 := AddTest(shards[0], t)][1..] == shards[1..];
  }

  lemma BagAssign(shards: seq<Shard>, t: TimedTest)
    requires shards != []
    ensures Bag(Assign(shards, t)) == Bag(shards) + multiset{t}
  {
    BagSort(shards, RuntimeAscending);
    BagAddToFirst(SortBy(shards, RuntimeAscending), t);
  }

  /** The shards end up holding what they held before plus every test, each once. */
  lemma {:induction false} GreedyPlacesEachTestOnce(shards: seq<Shard>, tests: seq<TimedTest>)
    requires shards != []
    ensures Bag(Greedy(shards, tests)) == Bag(shards) + multiset(tests)
    decreases |tests|
  {
    if tests != [] {
      var init, last := tests[..|tests| - 1], tests[|tests| - 1];
      var before := Greedy(shards, init);
      GreedyPlacesEachTestOnce(shards, init);
      BagAssign(before, last);
      MultisetOfSnoc(tests);
      calc {
        Bag(Greedy(shards, tests));
        Bag(Assign(before, last));
        Bag(before) + multiset{last};
        Bag(shards) + multiset(init) + multiset{last};
        Bag(shards) + multiset(tests);
      }
    }
  }

  lemma MultisetOfSnoc(tests: seq<TimedTest>)
    requires tests != []
    ensures multiset(tests) == multiset(tests[..|tests| - 1]) + multiset{tests[|tests| - 1]}
  {
    assert tests == tests[..|tests| - 1] + [tests[|tests| - 1]];
  }

  lemma {:induction false} InBag(shards: seq<Shard>, i: nat, x: TimedTest)
    requires i < |shards| && x in shards[i].tests
    ensures x in Bag(shards)
    decreases i
  {
    if i > 0 {
      InBag(shards[1..], i - 1, x);
    }
  }

  lemma EmptyShardsHoldNothing(n: nat)
    ensures Bag(EmptyShards(n)) == multiset{}
  {
    var shards := EmptyShards(n);
    if Bag(shards) != multiset{} {
      var x :| x in Bag(shards);
      BagMember(shards, x);
    }
  }

  lemma {:induction false} BagMember(shards: seq<Shard>, x: TimedTest)
    requires x in Bag(shards)
    ensures exists i :: 0 <= i < |shards| && x in shards[i].tests
    decreases |shards|
  {
    if x !in shards[0].tests {
      BagMember(shards[1..], x);
      var i :| 0 <= i < |shards[1..]| && x in shards[1..][i].tests;
      assert x in shards[i + 1].tests;
    }
  }

  // ---------------------------------------------------------------------------
  // Runtimes are the sums of the charged times
  // ---------------------------------------------------------------------------

  function SumTimes(tests: seq<TimedTest>): real
    decreases |tests|
  {
    if tests == [] then 0.0 else SumTimes(tests[..|tests| - 1]) + tests[|tests| - 1].time
  }

  predicate RuntimesMatch(shards: seq<Shard>)
  {
    forall i :: 0 <= i < |shards| ==> shards[i].totalRuntime == SumTimes(shards[i].tests)
  }

  lemma AssignKeepsRuntimes(shards: seq<Shard>, t: TimedTest)
    requires shards != [] && RuntimesMatch(shards)
    ensures RuntimesMatch(Assign(shards, t))
  {
    var sorted := SortBy(shards, RuntimeAscending);
    SortKeepsRuntimes(shards, RuntimeAscending);
    SumTimesSnoc(sorted[0].tests, t);
  }

  /** Each shard's total runtime is the sum of the times of its files. */
  lemma {:induction false} GreedyKeepsRuntimes(shards: seq<Shard>, tests: seq<TimedTest>)
    requires shards != [] && RuntimesMatch(shards)
    ensures RuntimesMatch(Greedy(shards, tests))
    decreases |tests|
  {
    if tests != [] {
      GreedyKeepsRuntimes(shards, tests[..|tests| - 1]);
      AssignKeepsRuntimes(Greedy(shards, tests[..|tests| - 1]), tests[|tests| - 1]);
    }
  }

  /** Sorting the shards, on any key, keeps each shard's runtime equal to the sum of its times. */
  lemma SortKeepsRuntimes(shards: seq<Shard>, key: Shard -> real)
    requires RuntimesMatch(shards)
    ensures RuntimesMatch(SortBy(shards, key))
  {
    var sorted := SortBy(shards, key);
    forall i | 0 <= i < |sorted| ensures sorted[i].totalRuntime == SumTimes(sorted[i].tests) {
      assert sorted[i] in multiset(shards);
    }
  }

  lemma SumTimesSnoc(tests: seq<TimedTest>, t: TimedTest)
    ensures SumTimes(tests + [t]) == SumTimes(tests) + t.time
  {
    assert (tests + [t])[..|tests|] == tests;
  }

  /** With a single shard the loop only appends: the shard gets every test, in the order given. */
  lemma {:induction false} GreedyOneShard(one: seq<Shard>, tests: seq<TimedTest>)
    requires |one| == 1
    ensures Greedy(one, tests)[0].tests == one[0].tests + tests
    decreases |tests|
  {
    if tests == [] {
      assert one[0].tests + tests == one[0].tests;
    } else {
      var init, last := tests[..|tests| - 1], tests[|tests| - 1];
      GreedyOneShard(one, init);
      AssignOneShard(Greedy(one, init), last);
      assert one[0].tests + tests == one[0].tests + init + [last] by {
        assert tests == init + [last];
      }
    }
  }

  lemma AssignOneShard(one: seq<Shard>, t: TimedTest)
    requires |one| == 1
    ensures Assign(one, t)[0] == AddTest(one[0], t)
  {
    assert one == [one[0]];
    assert [one[0]][1..] == [];
  }

  // ---------------------------------------------------------------------------
  // Files keep the order in which they were taken
  // ---------------------------------------------------------------------------

  lemma AssignKeepsOrder(shards: seq<Shard>, t: TimedTest)
    requires shards != []
    requires forall i :: 0 <= i < |shards| ==> NonIncreasing(shards[i].tests)
    requires forall x :: x in Bag(shards) ==> x.time >= t.time
    ensures forall i :: 0 <= i < |shards| ==> NonIncreasing(Assign(shards, t)[i].tests)
  {
    var sorted := SortBy(shards, RuntimeAscending);
    forall i | 0 <= i < |sorted| ensures NonIncreasing(sorted[i].tests) {
      assert sorted[i] in multiset(shards);
    }
    BagSort(shards, RuntimeAscending);
    AddToFirstKeepsOrder(sorted, t);
  }

  lemma AddToFirstKeepsOrder(shards: seq<Shard>, t: TimedTest)
    requires shards != [] && NonIncreasing(shards[0].tests)
    requires forall x :: x in Bag(shards) ==> x.time >= t.time
    ensures NonIncreasing(shards[0].tests + [t])
  {
    forall x | x in shards[0].tests ensures x.time >= t.time {
      InBag(shards, 0, x);
    }
    AppendKeepsOrder(shards[0].tests, t);
  }

  lemma AppendKeepsOrder(tests: seq<TimedTest>, t: TimedTest)
    requires NonIncreasing(tests)
    requires forall x :: x in tests ==> x.time >= t.time
    ensures NonIncreasing(tests + [t])
  {
    var r := tests + [t];
    forall i, j | 0 <= i < j < |r| ensures r[i].time >= r[j].time {
      assert r[i] == tests[i];
      if j == |tests| {
        assert r[i] in tests;
      } else {
        assert r[j] == tests[j];
      }
    }
  }

  /** Shards holding no test have no files to order. */
  lemma EmptyBagOrdered(shards: seq<Shard>)
    requires Bag(shards) == multiset{}
    ensures forall i :: 0 <= i < |shards| ==> NonIncreasing(shards[i].tests)
  {
    forall i | 0 <= i < |shards| ensures shards[i].tests == [] {
      if shards[i].tests != [] {
        InBag(shards, i, shards[i].tests[0]);
      }
    }
  }

  /** After greedily placing tests that are no shorter than `last` on empty shards, every placed test is no shorter than `last`. */
  lemma PlacedAreNoShorter(shards: seq<Shard>, init: seq<TimedTest>, last: TimedTest)
    requires shards != [] && Bag(shards) == multiset{}
    requires forall k :: 0 <= k < |init| ==> init[k].time >= last.time
    ensures forall x :: x in Bag(Greedy(shards, init)) ==> x.time >= last.time
  {
    GreedyPlacesEachTestOnce(shards, init);
    forall x | x in Bag(Greedy(shards, init)) ensures x.time >= last.time {
      var k :| 0 <= k < |init| && init[k] == x;
    }
  }

  /**
    When the shards start empty and the tests come in non-increasing time
    order, the files of every shard are in non-increasing time order too.
   */
  lemma {:induction false} GreedyKeepsFileOrder(shards: seq<Shard>, tests: seq<TimedTest>)
    requires shards != [] && Bag(shards) == multiset{}
    requires NonIncreasing(tests)
    ensures forall i :: 0 <= i < |shards| ==> NonIncreasing(Greedy(shards, tests)[i].tests)
    decreases |tests|
  {
    if tests == [] {
      EmptyBagOrdered(shards);
    } else {
      var init, last := tests[..|tests| - 1], tests[|tests| - 1];
      assert NonIncreasing(init);
      GreedyKeepsFileOrder(shards, init);
      PlacedAreNoShorter(shards, init, last);
      AssignKeepsOrder(Greedy(shards, init), last);
    }
  }

  // ---------------------------------------------------------------------------
  // The distribution of a list of timed tests
  // ---------------------------------------------------------------------------

  /** The tests sorted longest first, then placed greedily on `totalShards` empty shards. */
  function Distribution(tests: seq<TimedTest>, totalShards: nat): seq<Shard>
    requires totalShards > 0
  {
    Greedy(EmptyShards(totalShards), SortBy(tests, TimeDescending))
  }

  /**
    The distribution has exactly `totalShards` shards; every test lands in
    exactly one of them; each shard's runtime is the sum of its files' times;
    and each shard lists its files longest first.
   */
  lemma DistributionProperties(tests: seq<TimedTest>, totalShards: nat)
    requires totalShards > 0
    ensures |Distribution(tests, totalShards)| == totalShards
    ensures Bag(Distribution(tests, totalShards)) == multiset(tests)
    ensures RuntimesMatch(Distribution(tests, totalShards))
    ensures forall i :: 0 <= i < totalShards ==> NonIncreasing(Distribution(tests, totalShards)[i].tests)
  {
    var empty, sorted := EmptyShards(totalShards), SortBy(tests, TimeDescending);
    EmptyShardsHoldNothing(totalShards);
    SortByTimeDescending(tests);
    GreedyPlacesEachTestOnce(empty, sorted);
    GreedyKeepsRuntimes(empty, sorted);
    GreedyKeepsFileOrder(empty, sorted);
  }

  // ---------------------------------------------------------------------------
  // Output
  // ---------------------------------------------------------------------------

  /** `shards.filter((shard) => shard.files.length > 0)`. */
  function NonEmptyShards(shards: seq<Shard>): (r: seq<Shard>)
    ensures |r| <= |shards|
    ensures forall s :: s in r ==> s.tests != [] && s in shards
    decreases |shards|
  {
    if shards == [] then []
    else (if shards[0].tests != [] then [shards[0]] else []) + NonEmptyShards(shards[1..])
  }

  /** Dropping the empty shards loses no test. */
  lemma {:induction false} NonEmptyShardsKeepTests(shards: seq<Shard>)
    ensures Bag(NonEmptyShards(shards)) == Bag(shards)
    decreases |shards|
  {
    if shards != [] {
      var rest := NonEmptyShards(shards[1..]);
      NonEmptyShardsKeepTests(shards[1..]);
      if shards[0].tests != [] {
        assert NonEmptyShards(shards) == [shards[0]] + rest;
        BagCons(shards[0], rest);
      } else {
        assert NonEmptyShards(shards) == rest;
        assert multiset(shards[0].tests) == multiset{};
      }
    }
  }

  /** When some shard holds a test, there is at least one shard to print. */
  lemma SomeShardIsPrinted(shards: seq<Shard>)
    requires Bag(shards) != multiset{}
    ensures NonEmptyShards(shards) != []
  {
    NonEmptyShardsKeepTests(shards);
  }

  datatype ShardOutput = ShardOutput(index: nat, files: string)

  /** `.map((shard, index) => ({ index: index + 1, files: shard.files.join(" ") }))`. */
  function Numbered(shards: seq<Shard>): (out: seq<ShardOutput>)
    ensures |out| == |shards|
    ensures forall i :: 0 <= i < |shards| ==> out[i] == ShardOutput(i + 1, Decimal.Join(Files(shards[i].tests), " "))
  {
    seq(|shards|, i requires 0 <= i < |shards| => ShardOutput(i + 1, Decimal.Join(Files(shards[i].tests), " ")))
  }

  /** The printed shards: the non-empty ones, numbered 1, 2, ... in order. */
  function Outputs(shards: seq<Shard>): seq<ShardOutput>
  {
    Numbered(NonEmptyShards(shards))
  }

  /** `outputs.find((shard) => shard.index === target)`. */
  function FindByIndex(outputs: seq<ShardOutput>, target: int): (r: Option<ShardOutput>)
    ensures r.Some? ==> r.value in outputs && r.value.index == target
    decreases |outputs|
  {
    if outputs == [] then None
    else if outputs[0].index == target then Some(outputs[0])
    else FindByIndex(outputs[1..], target)
  }

  lemma {:induction false} FindConsecutive(outputs: seq<ShardOutput>, first: int, target: int)
    requires forall i :: 0 <= i < |outputs| ==> outputs[i].index == first + i
    ensures FindByIndex(outputs, target) == if first <= target < first + |outputs| then Some(outputs[target - first]) else None
    decreases |outputs|
  {
    if outputs != [] && outputs[0].index != target {
      FindConsecutive(outputs[1..], first + 1, target);
    }
  }

  /** Looking a shard up by number finds the `target`-th non-empty shard, and nothing outside 1 .. count. */
  lemma FindOutput(shards: seq<Shard>, target: int)
    ensures var out := Outputs(shards);
      FindByIndex(out, target) == if 1 <= target <= |out| then Some(out[target - 1]) else None
  {
    FindConsecutive(Outputs(shards), 1, target);
  }
}
