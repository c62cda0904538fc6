/** `get_user_story_test_data`: the test cases of one user story with their latest verdicts,
    counts, pass percentage, defects, statistics and ten-day failure trend. The service is modelled
    by its answers (see Paging and TestAggregation); the ten trend dates come from the clock. */
module TestReport {
  import opened Wrappers
  import opened RallyApi
  import opened Counting
  import opened TestRecords
  import opened Paging
  import opened TestAggregation
  import opened Statistics
  import opened FailureTrend

  /** A defect linked to the story: Name, State, Priority and Severity. */
  datatype StoryDefectRecord = StoryDefectRecord(
    name: Option<string>, state: Option<string>, priority: Option<string>, severity: Option<string>)

  datatype StoryDefect = StoryDefect(name: string, state: string, priority: string, severity: string)

  /** The defects of the story: the mapped records when the query succeeds, none otherwise. */
  function StoryDefects(response: QueryResponse<StoryDefectRecord>): (defects: seq<StoryDefect>)
    ensures response.status != HttpOk ==> defects == []
    ensures response.status == HttpOk ==> |defects| == |response.results|
    ensures response.status == HttpOk ==> forall i :: 0 <= i < |defects| ==>
      var r := response.results[i];
      defects[i] == StoryDefect(r.name.GetOr("Unnamed Defect"), r.state.GetOr("Unknown"),
                                r.priority.GetOr("None"), r.severity.GetOr("None"))
  {
    if response.status != HttpOk then
      []
    else
      seq(|response.results|, i requires 0 <= i < |response.results| =>
        var r := response.results[i];
        StoryDefect(r.name.GetOr("Unnamed Defect"), r.state.GetOr("Unknown"),
                    r.priority.GetOr("None"), r.severity.GetOr("None")))
  }

  datatype TestData = TestData(
    totalTests: nat,
    passed: nat,
    failed: nat,
    other: nat,
    testCases: seq<Row>,
    defects: seq<StoryDefect>,
    passPercentage: real,
    statistics: Option<Statistics>,
    failureTrend: map<string, DayTrend>,
    dailyTrend: map<string, DailyTrend>)

  /** Some fetched test case has an Owner: building the owner distribution then puts the Owner
      records (dictionaries) into a set, which raises, and the whole call returns None. */
  predicate AnyOwner(testCases: seq<TestCase>) {
    exists i :: 0 <= i < |testCases| && testCases[i].hasOwner
  }

  /** `window` is the ten dates `today - i` days, `i` from 0 to 9, as the clock gives them. */
  method GetUserStoryTestData(
    respond: nat -> QueryResponse<TestCase>, total: nat,
    resultsFor: Option<string> -> QueryResponse<ResultRecord>,
    defectResponse: QueryResponse<StoryDefectRecord>,
    window: seq<string>)
    returns (data: Option<TestData>, fetched: seq<TestCase>, requests: nat)
    requires |window| == TrendDays && Distinct(window)
    ensures IsPagingOutcome(respond, total, fetched, requests)
    ensures data.None? <==> AnyOwner(fetched)
    ensures data.Some? ==>
      var d := data.value;
      && d.totalTests == |fetched| == |d.testCases|
      && (forall i :: 0 <= i < |fetched| ==> d.testCases[i] == ResolveRow(fetched[i], resultsFor(fetched[i].formattedId)))
      && d.passed == Count(d.testCases, IsPass) && d.failed == Count(d.testCases, IsFail)
      && d.other == Count(d.testCases, IsOther)
      && d.passed + d.failed + d.other == d.totalTests
      && d.passPercentage == Percentage(d.passed, d.totalTests)
      && d.defects == StoryDefects(defectResponse)
      && d.statistics == ComputeStatistics(fetched, d.testCases)
      && d.failureTrend.Keys == (set day | day in window) && |d.failureTrend| == TrendDays
      && (forall day :: day in d.failureTrend ==> d.failureTrend[day] == DayTrendOf(d.testCases, day))
      && d.dailyTrend == DailyTrendOf(d.failureTrend)
  {
    var allTestCases;
    allTestCases, requests := FetchAllTestCases(respond, total);
    fetched := allTestCases;
    var totalTests := |allTestCases|;
    var rows, passed, failed, other := ProcessTestCases(allTestCases, resultsFor);
    var passPercentage := 0.0;
    if totalTests > 0 {
      passPercentage := passed as real / totalTests as real * 100.0;
    }
    var defects := StoryDefects(defectResponse);
    var statistics := None;
    if allTestCases != [] {
      if exists i :: 0 <= i < |allTestCases| && allTestCases[i].hasOwner {
        data := None;
        return;
      }
      statistics := ComputeStatistics(allTestCases, rows);
    }
    var failureTrend := BuildFailureTrend(rows, window);
    DistinctCard(window);
    data := Some(TestData(totalTests, passed, failed, other, rows, defects, passPercentage, statistics,
                          failureTrend, DailyTrendOf(failureTrend)));
  }
}
