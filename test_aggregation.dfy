/** The per-test-case loop of `get_user_story_test_data`: one latest-result lookup per test case,
    one detail row each, and the passed / failed / other counters. */
module TestAggregation {
  import opened Wrappers
  import opened RallyApi
  import opened Counting
  import opened TestRecords

  /** Every row is counted exactly once: as passed, as failed, or as other. */
  lemma {:induction false} VerdictsPartition(rows: seq<Row>)
    ensures Count(rows, IsPass) + Count(rows, IsFail) + Count(rows, IsOther) == |rows|
  {
    if rows != [] {
      VerdictsPartition(rows[..|rows| - 1]);
    }
  }

  /** The lookup of one test case's latest result and the row built from it. */
  method LatestRow(testCase: TestCase, lookup: QueryResponse<ResultRecord>) returns (row: Row)
    ensures row == ResolveRow(testCase, lookup)
  {
    var verdict := testCase.lastVerdict.GetOr("No Run");
    var tcrId, dateTime := NotAvailable, NotAvailable;
    if lookup.status == HttpOk {
      if lookup.results != [] {
        var latest := lookup.results[0];
        tcrId := latest.objectId.GetOr(NotAvailable);
        dateTime := latest.date.GetOr(NotAvailable);
        verdict := latest.verdict.GetOr(verdict);
      }
    }
    row := Row(testCase.formattedId, testCase.name.GetOr("Unnamed Test"), tcrId, dateTime, verdict);
  }

  /** `resultsFor(id)` is the service's answer to the latest-result query for FormattedID `id`. */
  method ProcessTestCases(testCases: seq<TestCase>, resultsFor: Option<string> -> QueryResponse<ResultRecord>)
    returns (rows: seq<Row>, passed: nat, failed: nat, other: nat)
    ensures |rows| == |testCases|
    ensures forall i :: 0 <= i < |testCases| ==>
      rows[i] == ResolveRow(testCases[i], resultsFor(testCases[i].formattedId))
    ensures passed == Count(rows, IsPass) && failed == Count(rows, IsFail) && other == Count(rows, IsOther)
    ensures passed + failed + other == |testCases|
  {
    rows, passed, failed, other := [], 0, 0, 0;
    for i := 0 to |testCases|
      invariant |rows| == i
      invariant forall j :: 0 <= j < i ==> rows[j] == ResolveRow(testCases[j], resultsFor(testCases[j].formattedId))
      invariant passed == Count(rows, IsPass) && failed == Count(rows, IsFail) && other == Count(rows, IsOther)
    {
      var testCase := testCases[i];
      var row := LatestRow(testCase, resultsFor(testCase.formattedId));
      var verdict := row.verdict;
      if verdict == "Pass" {
        passed := passed + 1;
      } else if verdict == "Fail" {
        failed := failed + 1;
      } else {
        other := other + 1;
      }
      CountSnoc(rows, row, IsPass);
      CountSnoc(rows, row, IsFail);
      CountSnoc(rows, row, IsOther);
      rows := rows + [row];
    }
    VerdictsPartition(rows);
  }
}
