/** The records `get_user_story_test_data` reads from the tracking service, the detail row it
    builds per test case, and the verdict rule that builds it. */
module TestRecords {
  import opened Wrappers
  import opened RallyApi

  /** A fetched test case. Absent keys are None; `hasLastResult` and `hasOwner` say whether the
      LastResult and Owner references are present and non-empty. */
  datatype TestCase = TestCase(
    formattedId: Option<string>,
    name: Option<string>,
    lastVerdict: Option<string>,
    testMethod: Option<string>,
    testType: Option<string>,
    priority: Option<string>,
    status: Option<string>,
    lastRun: Option<string>,
    hasLastResult: bool,
    hasOwner: bool)

  /** A test-case result record: ObjectID, Date and Verdict. */
  datatype ResultRecord = ResultRecord(objectId: Option<string>, date: Option<string>, verdict: Option<string>)

  /** The detail row emitted per test case. */
  datatype Row = Row(testCaseId: Option<string>, testCaseName: string, tcrId: string, dateTime: string, verdict: string)

  const NotAvailable := "N/A"

  /** The latest result of a lookup (ordered by Date, descending, page size 1): its first record,
      if the lookup succeeded and returned any. */
  function LatestResult(lookup: QueryResponse<ResultRecord>): (latest: Option<ResultRecord>)
    ensures latest.Some? <==> lookup.status == HttpOk && lookup.results != []
    ensures latest.Some? ==> latest.value == lookup.results[0]
  {
    if lookup.status == HttpOk && |lookup.results| > 0 then Some(lookup.results[0]) else None
  }

  /** The row of one test case, given the answer to its latest-result lookup. */
  function ResolveRow(tc: TestCase, lookup: QueryResponse<ResultRecord>): (row: Row)
    ensures row.testCaseId == tc.formattedId && row.testCaseName == tc.name.GetOr("Unnamed Test")
    // without a latest result, the row keeps the test case's own verdict and "N/A" fields
    ensures LatestResult(lookup).None? ==>
      row.verdict == tc.lastVerdict.GetOr("No Run") && row.tcrId == NotAvailable && row.dateTime == NotAvailable
    // with one, its Verdict wins when it has one, and its ObjectID and Date are shown
    ensures LatestResult(lookup).Some? ==>
      var latest := LatestResult(lookup).value;
      && row.verdict == (if latest.verdict.Some? then latest.verdict.value else tc.lastVerdict.GetOr("No Run"))
      && row.tcrId == latest.objectId.GetOr(NotAvailable)
      && row.dateTime == latest.date.GetOr(NotAvailable)
  {
    var verdict := tc.lastVerdict.GetOr("No Run");
    match LatestResult(lookup)
    case None => Row(tc.formattedId, tc.name.GetOr("Unnamed Test"), NotAvailable, NotAvailable, verdict)
    case Some(latest) =>
      Row(tc.formattedId, tc.name.GetOr("Unnamed Test"), latest.objectId.GetOr(NotAvailable),
          latest.date.GetOr(NotAvailable), latest.verdict.GetOr(verdict))
  }

  predicate IsPass(row: Row) { row.verdict == "Pass" }

  predicate IsFail(row: Row) { row.verdict == "Fail" }

  predicate IsOther(row: Row) { row.verdict != "Pass" && row.verdict != "Fail" }
}
