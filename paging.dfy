/** The paginated fetch of a story's test cases (utils.py, `get_user_story_test_data`).
    The service is modelled by `respond`, its answer to the page request at each `start` offset,
    and by `total`, the TotalResultCount it reports on every page. */
module Paging {
  import opened RallyApi
  import opened TestRecords

  const PageSize := 200
  const FirstStart := 1

  /** The `start` offset of the `k`-th page request (counting from 0). */
  function StartOf(k: nat): nat {
    FirstStart + PageSize * k
  }

  /** The records of the first `k` pages, concatenated in request order. */
  function Fetched(respond: nat -> QueryResponse<TestCase>, k: nat): seq<TestCase> {
    if k == 0 then [] else Fetched(respond, k - 1) + respond(StartOf(k - 1)).results
  }

  /** A page whose records are kept: a successful response with at least one record. */
  predicate Accepted(page: QueryResponse<TestCase>) {
    page.status == HttpOk && page.results != []
  }

  /** The `k`-th page is kept and leaves the count below the total, so another page is requested. */
  predicate Continues(respond: nat -> QueryResponse<TestCase>, total: nat, k: nat) {
    Accepted(respond(StartOf(k))) && |Fetched(respond, k + 1)| < total
  }

  /** `all` is what the loop gathers after `requests` requests: every request but the last led
      to another one, the last stopped the loop (failed, empty, or total reached), and `all` holds
      the pages in order, the last one included exactly when it was kept. */
  ghost predicate IsPagingOutcome(respond: nat -> QueryResponse<TestCase>, total: nat, all: seq<TestCase>, requests: nat) {
    && requests >= 1
    && (forall k :: 0 <= k < requests - 1 ==> Continues(respond, total, k))
    && !Continues(respond, total, requests - 1)
    && all == (if Accepted(respond(StartOf(requests - 1))) then Fetched(respond, requests)
               else Fetched(respond, requests - 1))
  }

  /** The `while True` loop: request pages from start 1 in steps of 200 until a page fails, comes
      back empty, or the gathered count reaches the total. */
  method FetchAllTestCases(respond: nat -> QueryResponse<TestCase>, total: nat)
    returns (all: seq<TestCase>, requests: nat)
    ensures IsPagingOutcome(respond, total, all, requests)
    ensures requests <= if total == 0 then 1 else total
  {
    all := [];
    requests := 0;
    var start := FirstStart;
    while true
      invariant start == StartOf(requests)
      invariant all == Fetched(respond, requests)
      invariant forall k :: 0 <= k < requests ==> Continues(respond, total, k)
      invariant requests <= |all|
      invariant requests > 0 ==> |all| < total
      decreases total - requests
    {
      var page := respond(start);
      requests := requests + 1;
      if page.status == HttpOk {
        if page.results == [] {
          break;
        }
        all := all + page.results;
        if |all| >= total {
          break;
        }
        start := start + PageSize;
      } else {
        break;
      }
    }
  }

  /** The loop's outcome is determined by the service's answers: two outcomes agree. */
  lemma PagingOutcomeUnique(respond: nat -> QueryResponse<TestCase>, total: nat,
                            all1: seq<TestCase>, requests1: nat, all2: seq<TestCase>, requests2: nat)
    requires IsPagingOutcome(respond, total, all1, requests1)
    requires IsPagingOutcome(respond, total, all2, requests2)
    ensures requests1 == requests2 && all1 == all2
  {
  }
}
