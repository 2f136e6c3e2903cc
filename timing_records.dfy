/**
  Jest timing records as the CI scripts read them: a JSON file whose
  `testResults` array holds one record per test file. Only the `name`,
  `startTime` and `endTime` properties are modelled. A property that is
  absent, `null` or `undefined` is `None`, and the scripts' `x || y` tests
  are truthiness tests: an empty name and a zero time are falsy too.
  Also holds scripts/processor.js, the normaliser that keeps those three
  properties only.
 */
module TimingRecords {
  import opened Wrappers

  datatype TestResult = TestResult(name: Option<string>, startTime: Option<int>, endTime: Option<int>)

  /** What reading and parsing a timings file gives: `testResults` is `None` when it is missing or not an array. */
  datatype TimingsFile = Missing | Unparseable | Parsed(testResults: Option<seq<TestResult>>)

  datatype LoadError = FileNotFound | ParseFailed | NoTestResults

  predicate NameIsTruthy(name: Option<string>)
  {
    name.Some? && name.value != ""
  }

  predicate TimeIsTruthy(t: Option<int>)
  {
    t.Some? && t.value != 0
  }

  /** `name || fallback`. */
  function NameOr(name: Option<string>, fallback: string): (r: string)
    ensures NameIsTruthy(name) ==> r == name.value
    ensures !NameIsTruthy(name) ==> r == fallback
  {
    if NameIsTruthy(name) then name.value else fallback
  }

  /** `t || null`. */
  function TimeOrNull(t: Option<int>): (r: Option<int>)
    ensures r.Some? <==> TimeIsTruthy(t)
    ensures r.Some? ==> r == t
  {
    if TimeIsTruthy(t) then t else None
  }

  /** The existence, parse and structure checks every script makes before it reads the records. */
  function LoadTestResults(file: TimingsFile): (r: Result<seq<TestResult>, LoadError>)
    ensures r == Err(FileNotFound) <==> file.Missing?
    ensures r == Err(ParseFailed) <==> file.Unparseable?
    ensures r == Err(NoTestResults) <==> file.Parsed? && file.testResults.None?
    ensures r.Ok? <==> file.Parsed? && file.testResults.Some?
    ensures r.Ok? ==> r.value == file.testResults.value
  {
    match file
    case Missing => Err(FileNotFound)
    case Unparseable => Err(ParseFailed)
    case Parsed(results) => if results.None? then Err(NoTestResults) else Ok(results.value)
  }

  // ---------------------------------------------------------------------------
  // scripts/processor.js and the formatting half of scripts/updateTimings.mjs
  // ---------------------------------------------------------------------------

  /** One normalised record: the name or "unknown", and each time or `null`. */
  function FormatRecord(r: TestResult): TestResult
  {
    TestResult(Some(NameOr(r.name, "unknown")), TimeOrNull(r.startTime), TimeOrNull(r.endTime))
  }

  /** A normalised record has a non-empty name and no zero time. */
  predicate IsFormatted(r: TestResult)
  {
    NameIsTruthy(r.name) && (r.startTime.None? || TimeIsTruthy(r.startTime)) && (r.endTime.None? || TimeIsTruthy(r.endTime))
  }

  /** `testResults.map(...)`: the same records in the same order, each normalised. */
  function FormatTimings(results: seq<TestResult>): (formatted: seq<TestResult>)
    ensures |formatted| == |results|
    ensures forall i :: 0 <= i < |results| ==> formatted[i] == FormatRecord(results[i])
  {
    seq(|results|, i requires 0 <= i < |results| => FormatRecord(results[i]))
  }

  /**
    Normalising keeps what was truthy, replaces a falsy name with "unknown"
    and a falsy time with `null`, and a normalised record is left as it is.
   */
  lemma FormatRecordMeaning(r: TestResult)
    ensures IsFormatted(FormatRecord(r))
    ensures NameIsTruthy(r.name) ==> FormatRecord(r).name == r.name
    ensures !NameIsTruthy(r.name) ==> FormatRecord(r).name == Some("unknown")
    ensures TimeIsTruthy(r.startTime) ==> FormatRecord(r).startTime == r.startTime
    ensures !TimeIsTruthy(r.startTime) ==> FormatRecord(r).startTime.None?
    ensures TimeIsTruthy(r.endTime) ==> FormatRecord(r).endTime == r.endTime
    ensures !TimeIsTruthy(r.endTime) ==> FormatRecord(r).endTime.None?
    ensures IsFormatted(r) ==> FormatRecord(r) == r
  {
  }

  /** The report processor.js writes: nothing but the normalised `testResults`. */
  datatype Report = Report(testResults: seq<TestResult>)

  /** processor.js: every failed check exits with status 1, otherwise the report is written. */
  function Process(input: TimingsFile): (r: Result<Report, LoadError>)
  {
    match LoadTestResults(input)
    case Err(e) => Err(e)
    case Ok(results) => Ok(Report(FormatTimings(results)))
  }

  lemma ProcessOutcome(input: TimingsFile)
    ensures Process(input).Err? <==> !(input.Parsed? && input.testResults.Some?)
    ensures Process(input).Ok? ==>
      var out, results := Process(input).value.testResults, input.testResults.value;
      |out| == |results| && (forall i :: 0 <= i < |out| ==> out[i] == FormatRecord(results[i]) && IsFormatted(out[i]))
  {
    if Process(input).Ok? {
      var out, results := Process(input).value.testResults, input.testResults.value;
      forall i | 0 <= i < |out| ensures IsFormatted(out[i]) {
        FormatRecordMeaning(results[i]);
      }
    }
  }

  /** Processing a normalised report again changes nothing. */
  lemma ProcessIsIdempotent(results: seq<TestResult>)
    ensures FormatTimings(FormatTimings(results)) == FormatTimings(results)
  {
    forall i | 0 <= i < |results| ensures FormatRecord(FormatRecord(results[i])) == FormatRecord(results[i]) {
      FormatRecordMeaning(results[i]);
      FormatRecordMeaning(FormatRecord(results[i]));
    }
  }

  // ---------------------------------------------------------------------------
  // The duration rule of the shard distributors
  // ---------------------------------------------------------------------------

  /** Seconds from the millisecond times when both are truthy and ordered, 1 otherwise. */
  function Duration(r: TestResult): (seconds: real)
    ensures seconds > 0.0
  {
    if TimeIsTruthy(r.endTime) && TimeIsTruthy(r.startTime) && r.endTime.value > r.startTime.value then
      (r.endTime.value - r.startTime.value) as real / 1000.0
    else 1.0
  }

  /** Normalising a record keeps its duration: a distributor reading the normalised file sees the same times. */
  lemma FormatKeepsDuration(r: TestResult)
    ensures Duration(FormatRecord(r)) == Duration(r)
  {
  }
}
