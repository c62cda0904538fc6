/** The statistics block of `get_user_story_test_data`, computed over every fetched test case
    once at least one was fetched. */
module Statistics {
  import opened Wrappers
  import opened Text
  import opened Counting
  import opened TestRecords

  datatype Statistics = Statistics(
    automationCoverage: real,
    flakyTests: nat,
    neverRun: nat,
    priorityDistribution: map<string, nat>,
    statusDistribution: map<string, nat>)

  // ---------------------------------------------------------------- automation coverage

  /** Method or Type equals "automated", ignoring case. */
  predicate IsAutomated(tc: TestCase) {
    Lower(tc.testMethod.GetOr("")) == "automated" || Lower(tc.testType.GetOr("")) == "automated"
  }

  function AutomationCoverage(testCases: seq<TestCase>): (coverage: real)
    requires testCases != []
    ensures 0.0 <= coverage <= 100.0
    ensures coverage * |testCases| as real == Count(testCases, IsAutomated) as real * 100.0
  {
    Percentage(Count(testCases, IsAutomated), |testCases|)
  }

  // ---------------------------------------------------------------- flaky tests

  predicate AnyPass(rows: seq<Row>) {
    exists i :: 0 <= i < |rows| && IsPass(rows[i])
  }

  lemma {:induction false} CountGuarded<T>(xs: seq<T>, p: T -> bool, guarded: T -> bool, guard: bool)
    requires forall x :: guarded(x) == (p(x) && guard)
    ensures Count(xs, guarded) == if guard then Count(xs, p) else 0
  {
    if xs != [] {
      CountGuarded(xs[..|xs| - 1], p, guarded, guard);
    }
  }

  /** The failed rows counted when some row anywhere in the list passed: the heuristic compares
      against the whole list, not against a test's own history. */
  function FlakyTests(rows: seq<Row>): (flaky: nat)
    ensures flaky == if AnyPass(rows) then Count(rows, IsFail) else 0
  {
    var anyPass := AnyPass(rows);
    var flakyRow := (row: Row) => IsFail(row) && anyPass;
    CountGuarded(rows, IsFail, flakyRow, anyPass);
    Count(rows, flakyRow)
  }

  // ---------------------------------------------------------------- never run

  /** Missing LastRun or missing LastResult. */
  predicate IsNeverRun(tc: TestCase) {
    !Truthy(tc.lastRun) || !tc.hasLastResult
  }

  predicate HasRunHistory(tc: TestCase) {
    Truthy(tc.lastRun) && tc.hasLastResult
  }

  lemma {:induction false} CountComplement<T>(xs: seq<T>, p: T -> bool, q: T -> bool)
    requires forall x :: q(x) == !p(x)
    ensures Count(xs, p) + Count(xs, q) == |xs|
  {
    if xs != [] {
      CountComplement(xs[..|xs| - 1], p, q);
    }
  }

  /** Every test case that lacks either a last run or a last result. */
  function NeverRun(testCases: seq<TestCase>): (n: nat)
    ensures n == |testCases| - Count(testCases, HasRunHistory)
  {
    CountComplement(testCases, HasRunHistory, IsNeverRun);
    Count(testCases, IsNeverRun)
  }

  // ---------------------------------------------------------------- priority distribution

  predicate IsHigh(tc: TestCase) { Lower(tc.priority.GetOr("")) == "high" }

  predicate IsMedium(tc: TestCase) { Lower(tc.priority.GetOr("")) == "medium" }

  predicate IsLow(tc: TestCase) { Lower(tc.priority.GetOr("")) == "low" }

  lemma {:induction false} LevelsBounded(testCases: seq<TestCase>)
    ensures Count(testCases, IsHigh) + Count(testCases, IsMedium) + Count(testCases, IsLow) <= |testCases|
  {
    if testCases != [] {
      LevelsBounded(testCases[..|testCases| - 1]);
    }
  }

  /** The three fixed levels, each counted case-insensitively; a test case counts at most once. */
  function PriorityDistribution(testCases: seq<TestCase>): (levels: map<string, nat>)
    ensures levels.Keys == {"High", "Medium", "Low"}
    ensures levels["High"] == Count(testCases, IsHigh)
    ensures levels["Medium"] == Count(testCases, IsMedium)
    ensures levels["Low"] == Count(testCases, IsLow)
    ensures levels["High"] + levels["Medium"] + levels["Low"] <= |testCases|
  {
    LevelsBounded(testCases);
    map["High" := Count(testCases, IsHigh), "Medium" := Count(testCases, IsMedium), "Low" := Count(testCases, IsLow)]
  }

  // ---------------------------------------------------------------- status distribution

  /** The non-empty TestCaseStatus values, in test-case order. */
  function Statuses(testCases: seq<TestCase>): (statuses: seq<string>)
    ensures |statuses| == Count(testCases, HasStatus)
  {
    if testCases == [] then []
    else
      var tc := testCases[|testCases| - 1];
      Statuses(testCases[..|testCases| - 1]) + (if HasStatus(tc) then [tc.status.value] else [])
  }

  predicate HasStatus(tc: TestCase) { Truthy(tc.status) }

  /** `len([tc for tc in tcs if tc.get('TestCaseStatus', '') == status])`. */
  function WithStatus(testCases: seq<TestCase>, status: string): nat {
    if testCases == [] then 0
    else WithStatus(testCases[..|testCases| - 1], status)
         + (if testCases[|testCases| - 1].status.GetOr("") == status then 1 else 0)
  }

  lemma {:induction false} WithStatusCountsStatuses(testCases: seq<TestCase>, status: string)
    requires status != ""
    ensures WithStatus(testCases, status) == Occurrences(Statuses(testCases), status)
  {
    if testCases != [] {
      var init := testCases[..|testCases| - 1];
      var tc := testCases[|testCases| - 1];
      WithStatusCountsStatuses(init, status);
      if HasStatus(tc) {
        OccurrencesSnoc(Statuses(init), tc.status.value, status);
      } else {
        assert Statuses(testCases) == Statuses(init);
      }
    }
  }

  /** One count per distinct non-empty status: the histogram of the statuses, so its counts add up
      to the number of test cases that have a status. */
  function StatusDistribution(testCases: seq<TestCase>): (byStatus: map<string, nat>)
    ensures byStatus == Histogram(Statuses(testCases))
    ensures MapSum(byStatus) == Count(testCases, HasStatus)
  {
    var statuses := Statuses(testCases);
    var byStatus := map status | status in statuses :: WithStatus(testCases, status);
    assert forall s :: s in statuses ==> s != "" by {
      StatusesNonEmpty(testCases);
    }
    forall s | s in statuses
      ensures byStatus[s] == Histogram(statuses)[s]
    {
      WithStatusCountsStatuses(testCases, s);
    }
    HistogramSum(statuses);
    byStatus
  }

  lemma {:induction false} StatusesNonEmpty(testCases: seq<TestCase>)
    ensures forall s :: s in Statuses(testCases) ==> s != ""
  {
    if testCases != [] {
      StatusesNonEmpty(testCases[..|testCases| - 1]);
    }
  }

  // ---------------------------------------------------------------- the block

  /** The statistics block: absent (the source's `{}`) when nothing was fetched. */
  function ComputeStatistics(testCases: seq<TestCase>, rows: seq<Row>): (stats: Option<Statistics>)
    ensures stats.None? <==> testCases == []
  {
    if testCases == [] then None
    else Some(Statistics(
      AutomationCoverage(testCases),
      FlakyTests(rows),
      NeverRun(testCases),
      PriorityDistribution(testCases),
      StatusDistribution(testCases)))
  }
}
