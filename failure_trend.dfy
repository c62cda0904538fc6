/** The ten-day failure trend of `get_user_story_test_data` and the daily trend derived from it.
    The ten dates come from the clock and are a parameter here. */
module FailureTrend {
  import opened Wrappers
  import opened Text
  import opened Counting
  import opened TestRecords

  const TrendDays := 10

  /** One failed run listed under its day; the build, execution time and owner are read from the
      detail row, which never has them, so they always take their defaults. */
  datatype FailureDetail = FailureDetail(
    testCaseId: Option<string>, testCaseName: string, build: string, executionTime: string, owner: string)

  datatype DayTrend = DayTrend(total: nat, failed: nat, failureRate: real, failureDetails: seq<FailureDetail>)

  datatype DailyTrend = DailyTrend(
    total: nat, failed: nat, failureRate: real, failureDetails: seq<FailureDetail>, successRate: real)

  const EmptyDay := DayTrend(0, 0, 0.0, [])

  /** The calendar day of a row: the part of its Date before 'T', or none when it has no result. */
  function DayOf(row: Row): (day: Option<string>)
    ensures day.Some? <==> row.dateTime != NotAvailable
    ensures day.Some? ==>
      && 'T' !in day.value && |day.value| <= |row.dateTime| && day.value == row.dateTime[..|day.value|]
      && (|day.value| < |row.dateTime| ==> row.dateTime[|day.value|] == 'T')
  {
    if row.dateTime == NotAvailable then None else Some(BeforeFirst(row.dateTime, 'T'))
  }

  function DetailOf(row: Row): FailureDetail {
    FailureDetail(row.testCaseId, row.testCaseName, "Unknown", NotAvailable, "Unassigned")
  }

  /** Rows whose result falls on `day`. */
  function DayTotal(rows: seq<Row>, day: string): (n: nat)
    ensures n <= |rows|
  {
    if rows == [] then 0
    else DayTotal(rows[..|rows| - 1], day) + (if DayOf(rows[|rows| - 1]) == Some(day) then 1 else 0)
  }

  /** Failed rows whose result falls on `day`. */
  function DayFailed(rows: seq<Row>, day: string): (n: nat)
    ensures n <= DayTotal(rows, day)
  {
    if rows == [] then 0
    else
      var row := rows[|rows| - 1];
      DayFailed(rows[..|rows| - 1], day) + (if DayOf(row) == Some(day) && IsFail(row) then 1 else 0)
  }

  /** The failure details of `day`, in row order. */
  function FailuresOn(rows: seq<Row>, day: string): (details: seq<FailureDetail>)
    ensures |details| == DayFailed(rows, day)
  {
    if rows == [] then []
    else
      var row := rows[|rows| - 1];
      FailuresOn(rows[..|rows| - 1], day) + (if DayOf(row) == Some(day) && IsFail(row) then [DetailOf(row)] else [])
  }

  /** Every failure detail lists a failed row of its day, with the default build, execution time
      and owner. */
  lemma {:induction false} FailureDetailsOfDay(rows: seq<Row>, day: string)
    ensures forall k :: 0 <= k < |FailuresOn(rows, day)| ==>
      var detail := FailuresOn(rows, day)[k];
      && (exists j :: 0 <= j < |rows| && DayOf(rows[j]) == Some(day) && IsFail(rows[j])
                      && detail.testCaseId == rows[j].testCaseId && detail.testCaseName == rows[j].testCaseName)
      && detail.build == "Unknown" && detail.executionTime == NotAvailable && detail.owner == "Unassigned"
  {
    if rows != [] {
      var init := rows[..|rows| - 1];
      FailureDetailsOfDay(init, day);
      forall k | 0 <= k < |FailuresOn(init, day)|
        ensures exists j :: (0 <= j < |rows| && DayOf(rows[j]) == Some(day) && IsFail(rows[j])
          && FailuresOn(rows, day)[k].testCaseId == rows[j].testCaseId
          && FailuresOn(rows, day)[k].testCaseName == rows[j].testCaseName)
      {
        var j :| 0 <= j < |init| && DayOf(init[j]) == Some(day) && IsFail(init[j])
          && FailuresOn(init, day)[k].testCaseId == init[j].testCaseId
          && FailuresOn(init, day)[k].testCaseName == init[j].testCaseName;
        assert rows[j] == init[j];
      }
    }
  }

  /** The finished entry of one day. */
  function DayTrendOf(rows: seq<Row>, day: string): (t: DayTrend)
    ensures t.failed <= t.total <= |rows|
    ensures |t.failureDetails| == t.failed
    ensures 0.0 <= t.failureRate <= 100.0
    ensures t.total == 0 ==> t.failureRate == 0.0
    ensures t.failureRate == Percentage(t.failed, t.total)
  {
    var total := DayTotal(rows, day);
    var failed := DayFailed(rows, day);
    DayTrend(total, failed, Percentage(failed, total), FailuresOn(rows, day))
  }

  /** The entry of `day` after the per-row loop: counts and details final, rate not yet set. */
  function CountedDay(rows: seq<Row>, day: string): (t: DayTrend)
    ensures t.failureRate == 0.0 && t.failed <= t.total
  {
    DayTrend(DayTotal(rows, day), DayFailed(rows, day), 0.0, FailuresOn(rows, day))
  }

  /** Setting the rate of a counted entry finishes it. */
  lemma CountedDayFinished(rows: seq<Row>, day: string)
    ensures var t := CountedDay(rows, day);
      DayTrendOf(rows, day) == t.(failureRate := Percentage(t.failed, t.total))
  {
  }

  /** The effect of one more row on a day's counted entry. */
  lemma CountedDaySnoc(rows: seq<Row>, row: Row, day: string)
    ensures CountedDay(rows + [row], day) ==
      var t := CountedDay(rows, day);
      if DayOf(row) != Some(day) then t
      else if IsFail(row) then DayTrend(t.total + 1, t.failed + 1, 0.0, t.failureDetails + [DetailOf(row)])
      else DayTrend(t.total + 1, t.failed, 0.0, t.failureDetails)
  {
    assert (rows + [row])[..|rows|] == rows;
  }

  /** The three loops: one zeroed entry per window date, then one count per row whose day is in the
      window, then the failure rate of every day that had runs. */
  method BuildFailureTrend(rows: seq<Row>, window: seq<string>) returns (trend: map<string, DayTrend>)
    ensures trend.Keys == set d | d in window
    ensures forall d :: d in trend ==> trend[d] == DayTrendOf(rows, d)
  {
    trend := map[];
    for i := 0 to |window|
      invariant trend.Keys == set d | d in window[..i]
      invariant forall d :: d in trend ==> trend[d] == EmptyDay
    {
      assert window[..i + 1] == window[..i] + [window[i]];
      trend := trend[window[i] := EmptyDay];
    }
    assert window[..|window|] == window;
    trend := CountRows(rows, trend);
    trend := ApplyRates(rows, window, trend);
  }

  /** The per-row loop: each row with a result whose day is already a key bumps that day's total,
      and its failure count and failure details when it failed. */
  method CountRows(rows: seq<Row>, empty: map<string, DayTrend>) returns (trend: map<string, DayTrend>)
    requires forall d :: d in empty ==> empty[d] == EmptyDay
    ensures trend.Keys == empty.Keys
    ensures forall d :: d in trend ==> trend[d] == CountedDay(rows, d)
  {
    trend := empty;
    for i := 0 to |rows|
      invariant trend.Keys == empty.Keys
      invariant forall d :: d in trend ==> trend[d] == CountedDay(rows[..i], d)
    {
      var row := rows[i];
      if row.dateTime != NotAvailable {
        var date := BeforeFirst(row.dateTime, 'T');
        if date in trend {
          var entry := trend[date];
          if row.verdict == "Fail" {
            var detail := FailureDetail(row.testCaseId, row.testCaseName, "Unknown", NotAvailable, "Unassigned");
            trend := trend[date := DayTrend(entry.total + 1, entry.failed + 1, entry.failureRate, entry.failureDetails + [detail])];
          } else {
            trend := trend[date := DayTrend(entry.total + 1, entry.failed, entry.failureRate, entry.failureDetails)];
          }
        }
      }
      assert rows[..i + 1] == rows[..i] + [row];
      forall d | d in trend
        ensures trend[d] == CountedDay(rows[..i + 1], d)
      {
        CountedDaySnoc(rows[..i], row, d);
      }
    }
    assert rows[..|rows|] == rows;
  }

  /** Setting the rate of a day, counted or already finished, finishes it. */
  lemma RateStep(rows: seq<Row>, day: string, entry: DayTrend)
    requires entry == CountedDay(rows, day) || entry == DayTrendOf(rows, day)
    ensures entry.total > 0 ==>
      DayTrend(entry.total, entry.failed, entry.failed as real / entry.total as real * 100.0, entry.failureDetails)
        == DayTrendOf(rows, day)
    ensures entry.total == 0 ==> entry == DayTrendOf(rows, day)
  {
    CountedDayFinished(rows, day);
  }

  /** The rate loop over the window's dates: a day with runs gets `failed / total * 100`. */
  method ApplyRates(rows: seq<Row>, window: seq<string>, counted: map<string, DayTrend>)
    returns (trend: map<string, DayTrend>)
    requires counted.Keys == set d | d in window
    requires forall d :: d in counted ==> counted[d] == CountedDay(rows, d)
    ensures trend.Keys == counted.Keys
    ensures forall d :: d in trend ==> trend[d] == DayTrendOf(rows, d)
  {
    trend := counted;
    for i := 0 to |window|
      invariant trend.Keys == counted.Keys
      invariant forall d :: d in trend && d in window[..i] ==> trend[d] == DayTrendOf(rows, d)
      invariant forall d :: d in trend && d !in window[..i] ==> trend[d] == CountedDay(rows, d)
    {
      assert window[..i + 1] == window[..i] + [window[i]];
      var date := window[i];
      var entry := trend[date];
      RateStep(rows, date, entry);
      if entry.total > 0 {
        trend := trend[date := DayTrend(entry.total, entry.failed, entry.failed as real / entry.total as real * 100.0, entry.failureDetails)];
      }
    }
    assert window[..|window|] == window;
  }

  /** A daily-trend entry: the day's entry plus its success rate. */
  function DailyOf(t: DayTrend): DailyTrend {
    DailyTrend(t.total, t.failed, t.failureRate, t.failureDetails,
               if t.total > 0 then (t.total - t.failed) as real / t.total as real * 100.0 else 0.0)
  }

  /** The daily trend has the failure trend's days, and each day's entry carries that day's counts. */
  function DailyTrendOf(trend: map<string, DayTrend>): (daily: map<string, DailyTrend>)
    ensures daily.Keys == trend.Keys
    ensures forall d :: d in daily ==>
      daily[d].total == trend[d].total && daily[d].failed == trend[d].failed
      && daily[d].failureRate == trend[d].failureRate && daily[d].failureDetails == trend[d].failureDetails
  {
    map d | d in trend :: DailyOf(trend[d])
  }

  /** On a day with runs the failure and success rates add up to 100; on a day without, both are 0. */
  lemma RatesComplement(rows: seq<Row>, day: string)
    ensures var daily := DailyOf(DayTrendOf(rows, day));
      && (daily.total > 0 ==> daily.failureRate + daily.successRate == 100.0)
      && (daily.total == 0 ==> daily.failureRate == 0.0 && daily.successRate == 0.0)
  {
    var t := DayTrendOf(rows, day);
    if t.total > 0 {
      PercentagesAdd(t.failed, t.total - t.failed, t.total);
      PercentageOfWhole(t.total);
      assert DailyOf(t).successRate == Percentage(t.total - t.failed, t.total);
    }
  }

  /** The rows counted for one day are among those that have a result date: a day's total never
      exceeds the number of dated rows. */
  lemma {:induction false} DayTotalAtMostDated(rows: seq<Row>, day: string)
    ensures DayTotal(rows, day) <= Count(rows, HasResult)
  {
    if rows != [] {
      DayTotalAtMostDated(rows[..|rows| - 1], day);
    }
  }

  predicate HasResult(row: Row) { row.dateTime != NotAvailable }

  predicate OnEitherDay(row: Row, day1: string, day2: string) {
    DayOf(row) == Some(day1) || DayOf(row) == Some(day2)
  }

  /** Two different days count disjoint rows: their totals add up to the rows that fall on either
      day, and together they never exceed the dated rows. */
  lemma {:induction false} TwoDaysDisjoint(rows: seq<Row>, day1: string, day2: string)
    requires day1 != day2
    ensures DayTotal(rows, day1) + DayTotal(rows, day2) == Count(rows, (r: Row) => OnEitherDay(r, day1, day2))
    ensures DayTotal(rows, day1) + DayTotal(rows, day2) <= Count(rows, HasResult)
  {
    if rows != [] {
      TwoDaysDisjoint(rows[..|rows| - 1], day1, day2);
    }
  }
}
