# Rally test and root-cause dashboard: a verified model of its data logic

This Dafny project models the data logic of a Streamlit dashboard over the Rally agile-management service. The dashboard lists a user's workspaces, projects and user stories. For one user story it gathers the story's test cases, with their latest verdicts, counts and statistics, and a ten-day failure trend. For a project it builds a root-cause analysis of its defects. In the page code, it models the mutually exclusive "task agents" and "operations agents" toggles and the metrics and grid behind the root-cause charts.

Every HTTP exchange becomes an input value: a status code plus the records of `QueryResult.Results`. The clock becomes the list of the ten trend dates.

Modules, one per concern of `utils.py` and `app.py`:

- `Wrappers`: the `Option` type.
- `Text`: the Python string operations the code uses: `split(c)[0]`, `split(c)[-1]`, `rstrip`, slicing, `endswith`, `lower` and truthiness.
- `StringOrder`: Python's `<` on strings and `sorted` on dict keys.
- `Counting`:
  - filtered counts;
  - counter dicts as histograms;
  - `sum(d.values())`;
  - the order of a dict's keys, which follows insertion;
  - exact percentages.
- `RallyClient`:
  - the configuration check;
  - endpoint normalisation;
  - the story-name rule;
  - the workspace, project and user-story lists.
- `TestRecords`, `Paging`, `TestAggregation`, `Statistics`, `FailureTrend`, `TestReport`: `get_user_story_test_data`.
- `Rca`: `get_project_rca_data`.
- `Dashboard`: the toggle callbacks, the fail percentage, the most common root cause, the recent-month metric and the trend grid of `app.py`.

Where the source updates state step by step, the model does the same:

- the paging `while True` loop;
- the per-test-case counters;
- the trend loops;
- the five RCA dictionaries;
- the nested grid loops;
- the `st.session_state` toggles, as a class.

Each of these methods is proved against a specification function, and lemmas state what that function satisfies.

## Model

| member | source | states |
|---|---|---|
| RallyClient.CheckRallyConfig | utils.py:43-50 | true exactly when both `rally_endpoint` and `rally_api_key` are present and non-empty |
| RallyClient.NormalizeEndpoint | utils.py:57-59 | the base URL ends with `/slm/webservice/v2.0`; it starts with the endpoint minus its trailing slashes and adds at most the API path |
| RallyClient.NormalizeIdempotent | utils.py:128-130 | normalising an already normalised endpoint leaves it unchanged (the same code recurs at 108-110, 275-277, 342-344 and 597-599) |
| RallyClient.ProjectsEndpointAsWritten | utils.py:184-189 | `get_rally_projects`' base URL as written, normalised and then cut at the first `#`; it holds no `#` |
| RallyClient.ProjectsEndpointLosesApiPath | utils.py:184-189 | for the endpoint `#`, the URL as written does not end with the API path |
| RallyClient.ProjectsEndpointDropsFragmentAndApiPath | utils.py:184-189 | whenever the endpoint carries a `#`, the URL as written is the endpoint cut at its first `#`: the API path appended after the fragment is lost, and the result ends with the path only if the part before `#` already did |
| RallyClient.ProjectsEndpointKeepsOnlyHost | utils.py:184-189 | for a browser URL `host#fragment`, the URL as written is just `host`; it ends with the API path only if `host` already did |
| RallyClient.ProjectsEndpoint | utils.py:184-189 | corrected order: the fragment is removed first. The result holds no `#` and ends with the API path; without a `#` it equals the plain normalisation |
| RallyClient.NormalizeAddsOnlyApiPath | utils.py:57-59 | normalising adds no character that is missing from both the endpoint and the API path |
| RallyClient.StoryName | utils.py:67-69 | the first line of the story. When it has 60 or more characters: its first 60 plus `...`. Otherwise: unchanged. At most 63 characters, no newline |
| RallyClient.DecimalString | utils.py:160 | `str(ObjectID)`: decimal digits, preceded by `-` exactly for a negative ObjectID |
| RallyClient.DecimalRoundTrip | utils.py:160 | reading the decimal string back gives the ObjectID again |
| RallyClient.DecimalStringInjective | utils.py:160 | distinct ObjectIDs give distinct workspace ids |
| RallyClient.ListedWorkspaces | utils.py:151-162 | the entries are, in record order, `(str(ObjectID), Name)` of exactly the records whose ObjectID and Name are both truthy; ids and names are non-empty |
| RallyClient.GetRallyWorkspaces | utils.py:147-172 | on a non-200 response: empty; on 200: the loop yields exactly the listed workspaces |
| RallyClient.ProjectIdOf | utils.py:249 | a truthy ObjectID. Otherwise the last `/`-segment of `_ref`: a suffix without `/`, preceded in `_ref` by a `/` unless it is all of `_ref` |
| RallyClient.GetRallyProjects | utils.py:199-256 | returns `[]` when the workspace lookup fails, the workspace ref is empty, or the query reports errors. A failed project query returns None. Otherwise one entry per record, in order |
| RallyClient.ProjectRefs | utils.py:245-254 | one id/name entry per project record, in order |
| RallyClient.GetRallyUserStories | utils.py:306-325 | None exactly on a non-200 response. Otherwise one entry per story with the defaults `""` and `Untitled Story`, and a display name of `id: name` |
| TestRecords.LatestResult | utils.py:438-441 | a latest result exists exactly when the lookup returned 200 with records; it is the first record |
| TestRecords.ResolveRow | utils.py:414-445 | the row's verdict is the latest result's Verdict when there is one, else LastVerdict, else `No Run`. The TCR id and date stay `N/A` without a latest result |
| Paging.FetchAllTestCases | utils.py:361-406 | the fetched test cases are the accepted pages concatenated in request order, with `start` 1, 201, 401 and so on. The loop stops at the first failed page, the first empty page, or once the count reaches the total. It terminates after at most max(1, total) requests |
| Paging.PagingOutcomeUnique | utils.py:365-406 | the service's answers determine the loop's outcome |
| TestAggregation.LatestRow | utils.py:416-445 | the imperative lookup builds exactly `ResolveRow` |
| TestAggregation.ProcessTestCases | utils.py:412-460 | one row per test case, in order. `passed`, `failed` and `other` count the Pass, Fail and remaining rows, and they add up to the number of test cases |
| TestAggregation.VerdictsPartition | utils.py:447-452 | every row is counted exactly once, as passed, failed or other |
| Statistics.AutomationCoverage | utils.py:497-514 | the automated share as an exact percentage, case-insensitive on Method or Type; it lies in [0, 100] |
| Statistics.FlakyTests | utils.py:515-517 | the number of Fail rows when any row is Pass, else 0 |
| Statistics.NeverRun | utils.py:518-520 | the test cases that lack a LastRun or a LastResult: all of them minus those that have both |
| Statistics.PriorityDistribution | utils.py:522-526 | exactly the keys High, Medium and Low. Each holds the number of test cases whose lower-cased Priority is `high`, `medium` or `low`, and the three sum to at most the number of test cases |
| Statistics.StatusDistribution | utils.py:527-530 | the histogram of the non-empty TestCaseStatus values; its counts sum to the number of test cases that have a status |
| Statistics.WithStatusCountsStatuses | utils.py:528 | the per-status list comprehension counts that status's occurrences among the non-empty statuses |
| Statistics.ComputeStatistics | utils.py:496-536 | the block exists exactly when at least one test case was fetched |
| FailureTrend.DayOf | utils.py:553-554 | a row has a day exactly when its date is not `N/A`; the day is the whole part of the date before its first `T` (all of it without a `T`) |
| FailureTrend.DayTrendOf | utils.py:551-574 | a day's entry: failed <= total <= rows, one detail per failure, and rate = failed/total*100 (0 on a day without runs) |
| FailureTrend.FailureDetailsOfDay | utils.py:557-565 | each failure detail lists a failed row of that day, with the defaults `Unknown`, `N/A` and `Unassigned` |
| FailureTrend.CountedDaySnoc | utils.py:552-565 | one more row changes only its own day's counts: the total, plus the failures and details for a Fail row |
| FailureTrend.BuildFailureTrend | utils.py:541-574 | the trend has exactly the window's dates as keys, and each entry is the day's finished entry |
| FailureTrend.CountRows | utils.py:552-565 | the per-row loop leaves every window day with its final counts and details |
| FailureTrend.ApplyRates | utils.py:569-574 | the rate loop finishes every counted day |
| FailureTrend.DailyTrendOf | utils.py:577-586 | the daily trend has the same days, totals, failures, rates and details as the failure trend |
| FailureTrend.RatesComplement | utils.py:568-586 | on a day with runs, the failure and success rates sum to 100; on a day without runs, both are 0 |
| FailureTrend.DayTotalAtMostDated | utils.py:553-556 | only rows with a result date are counted for a day |
| FailureTrend.TwoDaysDisjoint | utils.py:553-556 | two different days count disjoint rows: their totals add up to the number of rows that fall on either day, which is at most the dated rows |
| TestReport.StoryDefects | utils.py:480-487 | on 200: one defect per record, with the defaults `Unnamed Defect`, `Unknown`, `None` and `None`; otherwise no defects |
| TestReport.GetUserStoryTestData | utils.py:331-592 | the paging outcome; None exactly when a test case has an Owner; otherwise the counts, rows, pass percentage, defects, statistics and ten-day trends as listed below the table |
| Rca.DefectOf | utils.py:636-649 | a defect's creation date is the part of CreationDate before its first `T` (all of it without a `T`), its root cause defaults to `Unspecified`, its name to `Unnamed Defect`, and its severity, priority and state to `None` |
| Rca.Month | utils.py:656 | the month key is the first 7 characters of the date, or all of it when shorter |
| Rca.MonthlySnoc | utils.py:656-660 | one more defect adds one to its root cause in its month's row, and creates that row when it is new |
| Rca.ReportSnoc | utils.py:635-668 | one more defect record extends the report by one defect and bumps each counter dict once |
| Rca.TallyDefect | utils.py:636-668 | the imperative loop body performs exactly that step |
| Rca.GetProjectRcaData | utils.py:618-674 | None exactly on a non-200 response; otherwise the report of the records, as listed below the table |
| Rca.TalliesAddUp | utils.py:652-668 | each of the four histograms sums to the number of defects |
| Rca.ColumnSum | utils.py:652-660 | a root cause's counts, summed over all months, equal its summary count |
| Rca.CausesInCountsMonth | utils.py:656-660 | a month's row counts exactly the defects created in that month |
| Rca.ReportTotals | utils.py:623-670 | in a finished report, every tally sums to the number of defects. Each root cause's monthly counts sum to its summary count, and each month's row sums to its defects |
| Dashboard.ToggleTask | app.py:113-119 | with its widget on: task agents on, and operations agents and their widget off. With it off: only the task flag is cleared |
| Dashboard.ToggleOps | app.py:121-127 | the mirror image for the operations agents |
| Dashboard.SessionState.ToggleTaskAgents | app.py:113-119 | the in-place callback makes the session state `ToggleTask` of the old state |
| Dashboard.SessionState.ToggleOpsAgents | app.py:121-127 | the in-place callback makes the session state `ToggleOps` of the old state |
| Dashboard.SessionState.Handle | app.py:113-127 | a widget write followed by its change callback updates the session in place exactly as `Step`, the transition that `StepKeepsSynced` and `NeverBothEnabled` are about |
| Dashboard.SessionState.constructor | app.py:108-111 | a fresh session has both flags off |
| Dashboard.StepKeepsSynced | app.py:113-127 | a widget change and its callback keep each flag equal to its widget, with at most one flag on |
| Dashboard.NeverBothEnabled | app.py:108-127 | from a synced session, which includes a fresh one, no sequence of toggle changes enables both kinds of agents |
| Dashboard.FailPercentage | app.py:462 | failed/total*100 when there are test cases, else 0 |
| Dashboard.SharesOfReport | app.py:462 | with a report's counts, the pass and fail shares lie in [0, 100]. For a non-empty story the pass, fail and other shares sum to 100 |
| Dashboard.FirstMaxIndex | app.py:612 | `max(items, key=count)`: the first position in key order whose count is maximal |
| Dashboard.TopRootCause | app.py:611-612 | there is none exactly when no root cause was counted; otherwise it is the first maximal key |
| Dashboard.TopRootCauseIsMostCommon | app.py:611-612 | in a report, the top root cause is in the summary and no root cause has a larger count |
| Dashboard.DisplayRootCause | app.py:613 | names longer than 20 characters: their first 20 plus `...`; others unchanged |
| Dashboard.TopShare | app.py:614 | the top root cause's share of all defects, as an exact percentage |
| Dashboard.RecentMonthDefects | app.py:629-631 | the greatest month key and the sum of its row; absent when the trend is empty |
| Dashboard.RecentMonthCountsItsDefects | app.py:629-631 | in a report, the recent-month count is the number of defects created in that month |
| Dashboard.GridLength | app.py:661-668 | the grid has months × root causes cells |
| Dashboard.GridCell | app.py:661-668 | the cell of month i and root cause j sits at i·\|causes\| + j. Its count is `monthly_trend[m].get(rc, 0)` |
| Dashboard.BuildTrendGrid | app.py:658-668 | the months and root causes are the sorted keys, strictly ascending and complete; the nested loops build exactly that grid |
| Dashboard.AppendMonth | app.py:663-668 | the inner loop appends one cell per root cause for one month |
| StringOrder.SortedKeys | app.py:658-659 | `sorted(d.keys())`: strictly ascending and holding exactly the keys |
| Counting.HistogramSum | utils.py:652-668 | a counter dict filled by one increment per element sums to the number of elements |

`TestReport.GetUserStoryTestData` (utils.py:331-592) ensures the following:

- The fetched test cases are the paging outcome.
- The result is None exactly when some fetched test case has an Owner.
- Otherwise:
  - the totals, rows and counts are those the loops compute, and `pass_percentage` = passed/total*100 (0 without tests);
  - the defects and the statistics are as specified;
  - the failure trend has exactly the ten window days, each with its finished entry;
  - the daily trend is derived from the failure trend.

`Rca.GetProjectRcaData` (utils.py:618-674) ensures the following:

- The result is None exactly on a non-200 response.
- Otherwise:
  - the defects are the records mapped in order;
  - every counter dict is the histogram of its field;
  - the monthly trend is the histogram of each month's root causes;
  - the root-cause key order is first-occurrence order.

## Left out

- HTTP, sessions, headers, TLS and JSON decoding are not modelled. Each response is an input: a status code and its list of records.
- The model does not distinguish a JSON `null` from an absent key. Both become `None`, and `.get(key, default)` yields the default.
- Test-case records keep only the fields the logic reads. The LastResult and Owner references are reduced to "present and non-empty".
- Of the exceptions the data can raise, only one is modelled. Whenever a fetched test case has an Owner, the owner distribution (utils.py:531-535) puts dicts into a `set`, which raises TypeError, and the model gives None in exactly that case. The ones that a JSON `null` raises are listed next. Failures of I/O and decoding are not modelled.
- GetUserStoryTestData: returns a report where the source returns None (utils.py:590-592) because a field holds JSON `null`. This happens when:
  - LastResult is `null`: `.get('Duration')` on it raises AttributeError (utils.py:504);
  - Method, Type or Priority is `null`: `.lower()` raises (utils.py:498-499, 523-525);
  - a latest result's Date is `null`: `.split('T')` raises (utils.py:554).
  The model reads `null` as an absent key, so it takes the default instead.
- GetRallyProjects: a project with a falsy ObjectID and a JSON `null` `_ref` makes `.split('/')` raise (utils.py:249). The handler (utils.py:262-265) then returns `[]` for the whole list. The model reads `null` as an absent `_ref` and lists the project with an empty id segment.
- BuildTrendGrid: a JSON `null` root cause becomes the key `None` in `rca_summary` and the monthly rows (utils.py:637, 653). Next to string keys, `sorted(set(...))` then raises TypeError (app.py:659). The model reads `null` as `Unspecified` and always builds the grid.
- GetProjectRcaData: returns a report where the source returns None because a defect's CreationDate is `null`. There `.split('T')` raises (utils.py:636), and the function falls through to None (utils.py:672-674). The model reads `null` as an absent CreationDate.
- `owner_distribution` has no histogram, because the source never produces one: it fails whenever it is non-empty.
- `avg_execution_time` (utils.py:502-511) is not modelled, because it is float parsing and float averaging. Percentages are exact reals, not floats.
- The clock is not modelled. `datetime.now()` and `timedelta` become the ten window dates, which are passed in and required to be distinct.
- `Paging.FetchAllTestCases` takes TotalResultCount as one fixed value. In the source each page reports its own value.
- `Text.Lower` lowercases ASCII letters only. Python's full Unicode case mapping is not modelled.
- `TestRecords.ResolveRow` keeps ObjectID and Date as strings. In the source, ObjectID is an integer that is only displayed.
- `call_openai_api`, `upload_user_story_to_rally` and `test_rally_connection` are not modelled, except for the story-name rule and the endpoint normalisation they share. The rest of them is HTTP.
- agents/product_owner.py, rally_test.py and the rest of app.py (widgets, CSS, charts, the pandas frames) are not part of this model.
- `Dashboard.RecentMonthDefects` and `StringOrder.MaxKey` are ghost functions: picking the greatest key of a map is a choice that the model states but does not compute. `BuildTrendGrid` computes the sorted keys with a method.

## Findings

| source | as written | input that shows it | evidently intended | confidence | as-written member | corrected member |
|---|---|---|---|---|---|---|
| utils.py:184-189 | `get_rally_projects` appends the API path and only then cuts the endpoint at the first `#` | endpoint `#`: the base URL becomes the empty string. Any `host#fragment`, such as a URL copied from the browser, becomes `host`, without `/slm/webservice/v2.0` | remove the fragment first, then normalise, so the base always ends with the API path | high, not executed | RallyClient.ProjectsEndpointLosesApiPath | RallyClient.ProjectsEndpoint |
