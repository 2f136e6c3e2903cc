/**
  The example of scripts/__tests__/shard.test.ts, worked through the model of
  scripts/shard.mjs: four timed tests "a" .. "d" of 10, 20, 30 and 40
  milliseconds, no new test paths, and the timings file present. With two
  shards the numbered output is "d a" then "c b"; with one shard it is
  "d c b a". The general sorting and greedy steps are stated over symbolic
  tests and instantiated once at the end.
 */
module ShardExample {
  import opened Wrappers
  import opened StableSort
  import opened TimingRecords
  import opened Sharding
  import opened ShardMjs
  import Decimal

  /** `path.relative(process.cwd(), name)` for a name that is already relative to the working directory. */
  function AlreadyRelative(s: string): string { s }

  lemma SortOne<T>(x: T, key: T -> real)
    ensures SortBy([x], key) == [x]
  {
    assert [x][1..] == [];
  }

  lemma SortPrepend<T>(x: T, rest: seq<T>, sortedRest: seq<T>, key: T -> real)
    requires SortBy(rest, key) == sortedRest
    ensures SortBy([x] + rest, key) == Insert(x, sortedRest, key)
  {
    assert ([x] + rest)[1..] == rest;
  }

  /** An element whose key exceeds every key of a sorted list is inserted at its end. */
  lemma {:induction false} InsertLast<T>(x: T, sorted: seq<T>, key: T -> real)
    requires Sorted(sorted, key)
    requires forall y :: y in sorted ==> key(y) < key(x)
    ensures Insert(x, sorted, key) == sorted + [x]
    decreases |sorted|
  {
    if sorted != [] {
      assert sorted[1..] + [x] == (sorted + [x])[1..];
      InsertLast(x, sorted[1..], key);
    }
  }

  /** Sorting two elements swaps them only when the second key is strictly smaller (stability). */
  lemma SortPair<T>(x: T, y: T, key: T -> real)
    ensures SortBy([x, y], key) == if key(x) <= key(y) then [x, y] else [y, x]
  {
    SortOne(y, key);
    SortPrepend(x, [y], [y], key);
    assert [x] + [y] == [x, y];
    if key(x) > key(y) {
      InsertLast(x, [y], key);
    }
  }

  lemma ConsThree<T>(a: T, b: T, c: T)
    ensures [a] + [b, c] == [a, b, c]
  {
  }

  lemma ConsFour<T>(a: T, b: T, c: T, d: T)
    ensures [a] + [b, c, d] == [a, b, c, d]
  {
  }

  /** An element whose key exceeds every other key is sorted to the end. */
  lemma SortPrependLast<T>(x: T, rest: seq<T>, sortedRest: seq<T>, key: T -> real)
    requires SortBy(rest, key) == sortedRest
    requires forall y :: y in rest ==> key(y) < key(x)
    ensures SortBy([x] + rest, key) == sortedRest + [x]
  {
    SortPrepend(x, rest, sortedRest, key);
    forall y | y in sortedRest ensures key(y) < key(x) {
      assert y in multiset(rest);
    }
    InsertLast(x, sortedRest, key);
  }

  lemma SortIncreasingThree(b: TimedTest, c: TimedTest, d: TimedTest)
    requires b.time < c.time < d.time
    ensures SortBy([b, c, d], TimeDescending) == [d, c, b]
  {
    SortPair(c, d, TimeDescending);
    ConsThree(b, c, d);
    SnocThree(d, c, b);
    SortPrependLast(b, [c, d], [d, c], TimeDescending);
  }

  /** Tests given in order of increasing time come out reversed. */
  lemma SortIncreasingFour(a: TimedTest, b: TimedTest, c: TimedTest, d: TimedTest)
    requires a.time < b.time < c.time < d.time
    ensures SortBy([a, b, c, d], TimeDescending) == [d, c, b, a]
  {
    SortIncreasingThree(b, c, d);
    ConsFour(a, b, c, d);
    SnocFour(d, c, b, a);
    SortPrependLast(a, [b, c, d], [d, c, b], TimeDescending);
  }

  lemma SnocThree<T>(a: T, b: T, c: T)
    ensures [a, b] + [c] == [a, b, c]
  {
  }

  lemma SnocFour<T>(a: T, b: T, c: T, d: T)
    ensures [a, b, c] + [d] == [a, b, c, d]
  {
  }

  lemma GreedySnoc(shards: seq<Shard>, init: seq<TimedTest>, last: TimedTest)
    requires shards != []
    ensures Greedy(shards, init + [last]) == Assign(Greedy(shards, init), last)
  {
    assert (init + [last])[..|init|] == init;
  }

  /** With two shards, the test goes to the less loaded one, and to the first one on a tie. */
  lemma AssignPair(x: Shard, y: Shard, t: TimedTest)
    ensures Assign([x, y], t) == if x.totalRuntime <= y.totalRuntime then [AddTest(x, t), y] else [AddTest(y, t), x]
  {
    SortPair(x, y, RuntimeAscending);
  }

  /** One pass of the loop over two shards: the test goes to the first of the least loaded. */
  lemma GreedyPairStep(shards: seq<Shard>, init: seq<TimedTest>, last: TimedTest, x: Shard, y: Shard)
    requires shards != [] && Greedy(shards, init) == [x, y]
    ensures Greedy(shards, init + [last]) ==
      if x.totalRuntime <= y.totalRuntime then [AddTest(x, last), y] else [AddTest(y, last), x]
  {
    GreedySnoc(shards, init, last);
    AssignPair(x, y, last);
  }

  predicate ExampleTimes(a: TimedTest, b: TimedTest, c: TimedTest, d: TimedTest)
  {
    a.time == 0.01 && b.time == 0.02 && c.time == 0.03 && d.time == 0.04
  }

  lemma AddToEmpty(t: TimedTest)
    ensures AddTest(Shard(0.0, []), t) == Shard(t.time, [t])
  {
    assert [] + [t] == [t];
  }

  lemma AddToOne(t: TimedTest, u: TimedTest)
    ensures AddTest(Shard(t.time, [t]), u) == Shard(t.time + u.time, [t, u])
  {
    assert [t] + [u] == [t, u];
  }

  lemma GreedyTwoShardsFirst(z: Shard, d: TimedTest)
    requires z == Shard(0.0, [])
    ensures Greedy([z, z], [d]) == [Shard(d.time, [d]), z]
  {
    assert [d][..0] == [];
    AddToEmpty(d);
    AssignPair(z, z, d);
  }

  lemma GreedyTwoShardsFirstTwo(z: Shard, c: TimedTest, d: TimedTest)
    requires z == Shard(0.0, []) && 0.0 < c.time < d.time
    ensures Greedy([z, z], [d, c]) == [Shard(c.time, [c]), Shard(d.time, [d])]
  {
    GreedyTwoShardsFirst(z, d);
    assert [d] + [c] == [d, c];
    AddToEmpty(c);
    GreedyPairStep([z, z], [d], c, Shard(d.time, [d]), z);
  }

  /** The loop over two empty shards: d, c, b, a go to shards 1, 2, 2, 1 of the re-sorted list. */
  lemma GreedyTwoShards(z: Shard, a: TimedTest, b: TimedTest, c: TimedTest, d: TimedTest)
    requires z == Shard(0.0, []) && ExampleTimes(a, b, c, d)
    ensures Greedy([z, z], [d, c, b, a]) == [Shard(0.05, [d, a]), Shard(0.05, [c, b])]
  {
    GreedyTwoShardsFirstTwo(z, c, d);
    SnocThree(d, c, b);
    AddToOne(c, b);
    GreedyPairStep([z, z], [d, c], b, Shard(c.time, [c]), Shard(d.time, [d]));
    SnocFour(d, c, b, a);
    AddToOne(d, a);
    GreedyPairStep([z, z], [d, c, b], a, Shard(c.time + b.time, [c, b]), Shard(d.time, [d]));
  }

  lemma EmptyShardsTwo()
    ensures EmptyShards(2) == [Shard(0.0, []), Shard(0.0, [])]
  {
  }

  lemma EmptyShardsOne()
    ensures EmptyShards(1) == [Shard(0.0, [])]
  {
  }

  lemma NonEmptyPair(x: Shard, y: Shard)
    requires x.tests != [] && y.tests != []
    ensures NonEmptyShards([x, y]) == [x, y]
  {
    assert [x, y][1..] == [y];
    assert [y][1..] == [];
  }

  lemma NonEmptySingle(x: Shard)
    requires x.tests != []
    ensures NonEmptyShards([x]) == [x]
  {
    assert [x][1..] == [];
  }

  lemma FilesPair(t: TimedTest, u: TimedTest)
    ensures Files([t, u]) == [t.file, u.file]
  {
  }

  lemma JoinPair(a: string, b: string, sep: string)
    ensures Decimal.Join([a, b], sep) == a + sep + b
  {
    assert [a, b][1..] == [b];
  }

  lemma TwoShardsFinal(a: TimedTest, b: TimedTest, c: TimedTest, d: TimedTest)
    requires ExampleTimes(a, b, c, d)
    ensures FinalShards([d, c, b, a], 2) == [Shard(0.05, [d, a]), Shard(0.05, [c, b])]
  {
    EmptyShardsTwo();
    GreedyTwoShards(Shard(0.0, []), a, b, c, d);
    SortPair(Shard(0.05, [d, a]), Shard(0.05, [c, b]), RuntimeDescending);
  }

  lemma TwoShardsOutputs(a: TimedTest, b: TimedTest, c: TimedTest, d: TimedTest)
    requires a.file == "a" && b.file == "b" && c.file == "c" && d.file == "d"
    ensures Outputs([Shard(0.05, [d, a]), Shard(0.05, [c, b])]) == [ShardOutput(1, "d a"), ShardOutput(2, "c b")]
  {
    NonEmptyPair(Shard(0.05, [d, a]), Shard(0.05, [c, b]));
    FilesPair(d, a);
    FilesPair(c, b);
    JoinPair("d", "a", " ");
    JoinPair("c", "b", " ");
    assert "d" + " " + "a" == "d a";
    assert "c" + " " + "b" == "c b";
    var out := Numbered([Shard(0.05, [d, a]), Shard(0.05, [c, b])]);
    assert out[0] == ShardOutput(1, "d a");
    assert out[1] == ShardOutput(2, "c b");
  }

  lemma JoinFour(a: string, b: string, c: string, d: string, sep: string)
    ensures Decimal.Join([a, b, c, d], sep) == a + sep + b + sep + c + sep + d
  {
    assert [a, b, c, d][1..] == [b, c, d];
    Decimal.JoinThree(b, c, d, sep);
  }

  lemma FilesFour(a: TimedTest, b: TimedTest, c: TimedTest, d: TimedTest)
    ensures Files([a, b, c, d]) == [a.file, b.file, c.file, d.file]
  {
  }

  lemma OneShardGreedy(tests: seq<TimedTest>)
    ensures Greedy(EmptyShards(1), tests) == [Greedy(EmptyShards(1), tests)[0]]
    ensures Greedy(EmptyShards(1), tests)[0].tests == tests
  {
    EmptyShardsOne();
    GreedyOneShard(EmptyShards(1), tests);
  }

  lemma OneShardFinal(tests: seq<TimedTest>)
    ensures |FinalShards(tests, 1)| == 1
    ensures FinalShards(tests, 1)[0].tests == tests
  {
    OneShardGreedy(tests);
    SortOne(Greedy(EmptyShards(1), tests)[0], RuntimeDescending);
  }

  lemma OneShardOutputs(final: seq<Shard>, a: TimedTest, b: TimedTest, c: TimedTest, d: TimedTest)
    requires |final| == 1 && final[0].tests == [d, c, b, a]
    requires ExampleFiles(a, b, c, d)
    ensures Outputs(final) == [ShardOutput(1, "d c b a")]
  {
    assert final == [final[0]];
    NonEmptySingle(final[0]);
    FilesFour(d, c, b, a);
    JoinFour("d", "c", "b", "a", " ");
    assert "d" + " " + "c" + " " + "b" + " " + "a" == "d c b a";
    assert Numbered(final)[0] == ShardOutput(1, "d c b a");
  }

  lemma OneShardResult(a: TimedTest, b: TimedTest, c: TimedTest, d: TimedTest)
    requires ExampleFiles(a, b, c, d)
    ensures FinalShards([d, c, b, a], 1)[0].tests != []
    ensures Outputs(FinalShards([d, c, b, a], 1)) == [ShardOutput(1, "d c b a")]
  {
    OneShardFinal([d, c, b, a]);
    OneShardOutputs(FinalShards([d, c, b, a], 1), a, b, c, d);
  }

  /** The four records of the test: `startTime` 10, `endTime` 20, 30, 40 and 50 milliseconds. */
  function ExampleRecords(): seq<TestResult>
  {
    [TestResult(Some("a"), Some(10), Some(20)), TestResult(Some("b"), Some(10), Some(30)),
     TestResult(Some("c"), Some(10), Some(40)), TestResult(Some("d"), Some(10), Some(50))]
  }

  /** The timed tests those records give: 10 .. 40 milliseconds, in seconds. */
  function A(): TimedTest { TimedTest("a", 0.01) }
  function B(): TimedTest { TimedTest("b", 0.02) }
  function C(): TimedTest { TimedTest("c", 0.03) }
  function D(): TimedTest { TimedTest("d", 0.04) }

  lemma ExampleTimed()
    ensures TimedTests(ExampleRecords(), AlreadyRelative) == [A(), B(), C(), D()]
  {
    var r := TimedTests(ExampleRecords(), AlreadyRelative);
    assert r[0] == A() && r[1] == B() && r[2] == C() && r[3] == D();
  }

  lemma ExampleLoaded()
    ensures LoadTimingsData(Parsed(Some(ExampleRecords())), AlreadyRelative) == Ok([A(), B(), C(), D()])
  {
    ExampleTimed();
  }

  predicate ExampleFiles(a: TimedTest, b: TimedTest, c: TimedTest, d: TimedTest)
  {
    a.file == "a" && b.file == "b" && c.file == "c" && d.file == "d"
  }

  lemma NoNewTests(timedFiles: seq<string>, relative: string -> string)
    ensures NewTests(timedFiles, [], relative) == []
  {
  }

  lemma AppendNothing<T>(s: seq<T>)
    ensures s + [] == s
  {
  }

  lemma PlacedFour(a: TimedTest, b: TimedTest, c: TimedTest, d: TimedTest, relative: string -> string)
    requires a.time < b.time < c.time < d.time
    ensures TestsToPlace([a, b, c, d], [], relative) == [d, c, b, a]
  {
    SortIncreasingFour(a, b, c, d);
    NoNewTests(Files([d, c, b, a]), relative);
    AppendNothing([d, c, b, a]);
  }

  /** `distribute({ shards: 2, index })` on the four tests returns the shards "d a" and "c b". */
  lemma TwoShardsOutcome(file: TimingsFile, index: int, a: TimedTest, b: TimedTest, c: TimedTest, d: TimedTest)
    requires LoadTimingsData(file, AlreadyRelative) == Ok([a, b, c, d])
    requires ExampleTimes(a, b, c, d) && ExampleFiles(a, b, c, d)
    requires index == 1 || index == 2
    ensures DistributeOutcome(Some(2), Some(index), true, file, [], AlreadyRelative) == Shards([ShardOutput(1, "d a"), ShardOutput(2, "c b")])
  {
    PlacedFour(a, b, c, d, AlreadyRelative);
    TwoShardsFinal(a, b, c, d);
    TwoShardsOutputs(a, b, c, d);
  }

  /** `distribute({ shards: 1, index: 1 })` on the four tests returns the one shard "d c b a". */
  lemma OneShardOutcome(file: TimingsFile, a: TimedTest, b: TimedTest, c: TimedTest, d: TimedTest)
    requires LoadTimingsData(file, AlreadyRelative) == Ok([a, b, c, d])
    requires ExampleTimes(a, b, c, d) && ExampleFiles(a, b, c, d)
    ensures DistributeOutcome(Some(1), Some(1), true, file, [], AlreadyRelative) == Shards([ShardOutput(1, "d c b a")])
  {
    PlacedFour(a, b, c, d, AlreadyRelative);
    OneShardResult(a, b, c, d);
  }

  /** The first two cases of the test, on its own timings data. */
  lemma ExampleTwoShards(index: int)
    requires index == 1 || index == 2
    ensures DistributeOutcome(Some(2), Some(index), true, Parsed(Some(ExampleRecords())), [], AlreadyRelative)
      == Shards([ShardOutput(1, "d a"), ShardOutput(2, "c b")])
  {
    ExampleLoaded();
    TwoShardsOutcome(Parsed(Some(ExampleRecords())), index, A(), B(), C(), D());
  }

  /** The third case of the test. */
  lemma ExampleOneShard()
    ensures DistributeOutcome(Some(1), Some(1), true, Parsed(Some(ExampleRecords())), [], AlreadyRelative)
      == Shards([ShardOutput(1, "d c b a")])
  {
    ExampleLoaded();
    OneShardOutcome(Parsed(Some(ExampleRecords())), A(), B(), C(), D());
  }
}
