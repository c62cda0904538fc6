/** The logic of the dashboard page (app.py) that is not widget drawing: the two mutually exclusive
    agent toggles, the month-by-root-cause grid behind the trend chart, the most common root cause
    and the metrics shown beside it. */
module Dashboard {
  import opened Wrappers
  import opened Counting
  import opened StringOrder
  import opened TestReport
  import opened Rca

  // ---------------------------------------------------------------- agent toggles

  /** The session fields the toggles touch: the two widget values and the two enabled flags. */
  datatype Session = Session(taskToggle: bool, opsToggle: bool, taskAgentsEnabled: bool, opsAgentsEnabled: bool)

  /** A fresh session: both flags start off, and each widget starts at its flag's value. */
  const InitialSession := Session(false, false, false, false)

  /** `toggle_task_agents`: switching task agents on switches operations agents and their widget
      off; switching it off clears only the task flag. */
  function ToggleTask(s: Session): (t: Session)
    ensures s.taskToggle ==> t.taskAgentsEnabled && !t.opsAgentsEnabled && !t.opsToggle && t.taskToggle
    ensures !s.taskToggle ==> !t.taskAgentsEnabled && t.opsAgentsEnabled == s.opsAgentsEnabled
    ensures !s.taskToggle ==> t.taskToggle == s.taskToggle && t.opsToggle == s.opsToggle
  {
    if s.taskToggle then s.(opsToggle := false, taskAgentsEnabled := true, opsAgentsEnabled := false)
    else s.(taskAgentsEnabled := false)
  }

  /** `toggle_ops_agents`, the mirror image. */
  function ToggleOps(s: Session): (t: Session)
    ensures s.opsToggle ==> t.opsAgentsEnabled && !t.taskAgentsEnabled && !t.taskToggle && t.opsToggle
    ensures !s.opsToggle ==> !t.opsAgentsEnabled && t.taskAgentsEnabled == s.taskAgentsEnabled
    ensures !s.opsToggle ==> t.taskToggle == s.taskToggle && t.opsToggle == s.opsToggle
  {
    if s.opsToggle then s.(taskToggle := false, opsAgentsEnabled := true, taskAgentsEnabled := false)
    else s.(opsAgentsEnabled := false)
  }

  /** The user sets one of the two widgets; its change callback then runs. */
  datatype Event = SetTaskToggle(on: bool) | SetOpsToggle(on: bool)

  function Step(s: Session, e: Event): Session {
    match e
    case SetTaskToggle(on) => ToggleTask(s.(taskToggle := on))
    case SetOpsToggle(on) => ToggleOps(s.(opsToggle := on))
  }

  function Run(s: Session, events: seq<Event>): Session
    decreases |events|
  {
    if events == [] then s else Run(Step(s, events[0]), events[1..])
  }

  /** Each enabled flag mirrors its widget, and at most one of the two is on. */
  predicate Synced(s: Session) {
    && s.taskAgentsEnabled == s.taskToggle
    && s.opsAgentsEnabled == s.opsToggle
    && !(s.taskAgentsEnabled && s.opsAgentsEnabled)
  }

  lemma StepKeepsSynced(s: Session, e: Event)
    requires Synced(s)
    ensures Synced(Step(s, e))
  {
  }

  /** No sequence of toggle changes from a fresh session enables both kinds of agents. */
  lemma {:induction false} NeverBothEnabled(s: Session, events: seq<Event>)
    requires Synced(s)
    ensures Synced(Run(s, events))
    ensures !(Run(s, events).taskAgentsEnabled && Run(s, events).opsAgentsEnabled)
    decreases |events|
  {
    if events != [] {
      StepKeepsSynced(s, events[0]);
      NeverBothEnabled(Step(s, events[0]), events[1..]);
    }
  }

  /** `st.session_state` as far as the toggles go; the callbacks update it in place. */
  class SessionState {
    var taskToggle: bool
    var opsToggle: bool
    var taskAgentsEnabled: bool
    var opsAgentsEnabled: bool

    function View(): Session
      reads this
    {
      Session(taskToggle, opsToggle, taskAgentsEnabled, opsAgentsEnabled)
    }

    constructor()
      ensures View() == InitialSession
    {
      taskToggle, opsToggle := false, false;
      taskAgentsEnabled, opsAgentsEnabled := false, false;
    }

    /** The widget write that precedes each callback. */
    method SetTaskToggle(on: bool)
      modifies this
      ensures View() == old(View()).(taskToggle := on)
    {
      taskToggle := on;
    }

    method SetOpsToggle(on: bool)
      modifies this
      ensures View() == old(View()).(opsToggle := on)
    {
      opsToggle := on;
    }

    /** A widget change followed by its change callback. */
    method Handle(e: Event)
      modifies this
      ensures View() == Step(old(View()), e)
    {
      match e
      case SetTaskToggle(on) =>
        SetTaskToggle(on);
        ToggleTaskAgents();
      case SetOpsToggle(on) =>
        SetOpsToggle(on);
        ToggleOpsAgents();
    }

    method ToggleTaskAgents()
      modifies this
      ensures View() == ToggleTask(old(View()))
    {
      if taskToggle {
        opsToggle := false;
        taskAgentsEnabled := true;
        opsAgentsEnabled := false;
      } else {
        taskAgentsEnabled := false;
      }
    }

    method ToggleOpsAgents()
      modifies this
      ensures View() == ToggleOps(old(View()))
    {
      if opsToggle {
        taskToggle := false;
        opsAgentsEnabled := true;
        taskAgentsEnabled := false;
      } else {
        opsAgentsEnabled := false;
      }
    }
  }

  // ---------------------------------------------------------------- fail percentage

  /** The "Failed Tests" delta: the failed share of the test cases, 0 without any. */
  function FailPercentage(data: TestData): (r: real)
    ensures r == Percentage(data.failed, data.totalTests)
  {
    if data.totalTests > 0 then data.failed as real / data.totalTests as real * 100.0 else 0.0
  }

  /** With the counts of a report, the passed and failed shares lie in [0, 100] and together with
      the other share make up 100 percent of a non-empty story. */
  lemma SharesOfReport(data: TestData)
    requires data.passed + data.failed + data.other == data.totalTests
    requires data.passPercentage == Percentage(data.passed, data.totalTests)
    ensures 0.0 <= FailPercentage(data) <= 100.0
    ensures 0.0 <= data.passPercentage <= 100.0
    ensures data.totalTests > 0 ==>
      data.passPercentage + FailPercentage(data) + Percentage(data.other, data.totalTests) == 100.0
    ensures data.totalTests == 0 ==> data.passPercentage == 0.0 && FailPercentage(data) == 0.0
  {
    if data.totalTests > 0 {
      PercentagesAdd(data.passed, data.failed, data.totalTests);
      PercentagesAdd(data.passed + data.failed, data.other, data.totalTests);
      PercentageOfWhole(data.totalTests);
    }
  }

  // ---------------------------------------------------------------- most common root cause

  /** `max(counts.items(), key=value)` over a dict whose keys are `order`, in order: the position
      of the first key with the largest count. */
  function FirstMaxIndex(order: seq<string>, counts: map<string, nat>): (i: nat)
    requires order != []
    ensures i < |order|
    ensures forall j :: 0 <= j < |order| ==> CountIn(counts, order[j]) <= CountIn(counts, order[i])
    ensures forall j :: 0 <= j < i ==> CountIn(counts, order[j]) < CountIn(counts, order[i])
  {
    if |order| == 1 then 0
    else
      var init := order[..|order| - 1];
      var best := FirstMaxIndex(init, counts);
      assert forall j :: 0 <= j < |init| ==> order[j] == init[j];
      if CountIn(counts, order[|order| - 1]) > CountIn(counts, order[best]) then |order| - 1 else best
  }

  function FirstMax(order: seq<string>, counts: map<string, nat>): (top: string)
    requires order != []
    ensures top in order
    ensures forall i :: 0 <= i < |order| ==> CountIn(counts, order[i]) <= CountIn(counts, top)
  {
    order[FirstMaxIndex(order, counts)]
  }

  /** The most common root cause of a report, if it has any defect. */
  function TopRootCause(data: RcaData): (top: Option<string>)
    ensures top.None? <==> data.rootCauseOrder == []
    ensures top.Some? ==> top.value == FirstMax(data.rootCauseOrder, data.rcaSummary)
  {
    if data.rootCauseOrder == [] then None else Some(FirstMax(data.rootCauseOrder, data.rcaSummary))
  }

  /** In a report, a top root cause exists exactly when the summary is non-empty, and no root cause
      is counted more often than it. */
  lemma TopRootCauseIsMostCommon(data: RcaData)
    requires data.rcaSummary == Histogram(RootCauses(data.defects))
    requires data.rootCauseOrder == FirstOccurrences(RootCauses(data.defects))
    ensures TopRootCause(data).None? <==> data.rcaSummary == map[]
    ensures TopRootCause(data).Some? ==>
      var top := TopRootCause(data).value;
      top in data.rcaSummary && forall rc :: rc in data.rcaSummary ==> data.rcaSummary[rc] <= data.rcaSummary[top]
  {
    MostCommonOfHistogram(RootCauses(data.defects));
  }

  lemma MostCommonOfHistogram(causes: seq<string>)
    ensures var order, counts := FirstOccurrences(causes), Histogram(causes);
      && (order == [] <==> counts == map[])
      && (order != [] ==>
            var top := FirstMax(order, counts);
            top in counts && forall rc :: rc in counts ==> counts[rc] <= counts[top])
  {
    var order, counts := FirstOccurrences(causes), Histogram(causes);
    if causes == [] {
      assert counts == map[];
    } else {
      assert causes[0] in order;
      assert causes[0] in counts;
      var top := FirstMax(order, counts);
      forall rc | rc in counts
        ensures counts[rc] <= counts[top]
      {
        var i :| 0 <= i < |causes| && causes[i] == rc;
        var k :| 0 <= k < |order| && order[k] == rc;
        assert CountIn(counts, order[k]) <= CountIn(counts, top);
      }
    }
  }

  const RootCauseDisplayWidth := 20

  /** The metric label: the name cut to 20 characters plus "..." when it is longer than 20. */
  function DisplayRootCause(rootCause: string): (shown: string)
    ensures |rootCause| <= RootCauseDisplayWidth ==> shown == rootCause
    ensures |rootCause| > RootCauseDisplayWidth ==>
      |shown| == RootCauseDisplayWidth + 3 && shown[..RootCauseDisplayWidth] == rootCause[..RootCauseDisplayWidth]
      && shown[RootCauseDisplayWidth..] == "..."
  {
    if |rootCause| > RootCauseDisplayWidth then rootCause[..RootCauseDisplayWidth] + "..." else rootCause
  }

  /** The metric's delta: the top root cause's share of all defects. */
  function TopShare(data: RcaData, top: string): (share: real)
    ensures |data.defects| > 0 ==> share * |data.defects| as real == CountIn(data.rcaSummary, top) as real * 100.0
  {
    Percentage(CountIn(data.rcaSummary, top), |data.defects|)
  }

  // ---------------------------------------------------------------- recent month

  /** The "Recent Month Defects" metric: the greatest month key and the sum of its row. */
  ghost function RecentMonthDefects(trend: map<string, map<string, nat>>): (recent: Option<(string, nat)>)
    ensures recent.None? <==> trend == map[]
    ensures recent.Some? ==> IsGreatest(recent.value.0, trend.Keys) && recent.value.1 == MapSum(trend[recent.value.0])
  {
    if trend == map[] then None else var month := MaxKey(trend); Some((month, MapSum(trend[month])))
  }

  /** In a report, the recent month's count is the number of defects created in that month. */
  lemma RecentMonthCountsItsDefects(data: RcaData)
    requires data.monthlyTrend == MonthlyTrend(data.defects)
    requires data.monthlyTrend != map[]
    ensures var recent := RecentMonthDefects(data.monthlyTrend).value;
      recent.1 == Occurrences(Months(data.defects), recent.0)
  {
    var month := RecentMonthDefects(data.monthlyTrend).value.0;
    MonthRowSum(data.defects, month);
    CausesInCountsMonth(data.defects, month);
  }

  // ---------------------------------------------------------------- trend grid

  /** One row of the data frame behind the stacked monthly chart. */
  datatype TrendCell = TrendCell(month: string, rootCause: string, count: nat)

  function Cell(monthlyTrend: map<string, map<string, nat>>, month: string, rootCause: string): TrendCell {
    TrendCell(month, rootCause, if month in monthlyTrend then CountIn(monthlyTrend[month], rootCause) else 0)
  }

  /** The cells of one month, one per root cause, in the given order. */
  function MonthCells(monthlyTrend: map<string, map<string, nat>>, month: string, causes: seq<string>): (cells: seq<TrendCell>)
    ensures |cells| == |causes|
    ensures forall j :: 0 <= j < |causes| ==> cells[j] == Cell(monthlyTrend, month, causes[j])
  {
    seq(|causes|, j requires 0 <= j < |causes| => Cell(monthlyTrend, month, causes[j]))
  }

  /** Month after month, each month's cells. */
  function Grid(monthlyTrend: map<string, map<string, nat>>, months: seq<string>, causes: seq<string>): seq<TrendCell> {
    if months == [] then []
    else Grid(monthlyTrend, months[..|months| - 1], causes) + MonthCells(monthlyTrend, months[|months| - 1], causes)
  }

  /** The grid is dense: one cell per month and root cause. */
  lemma {:induction false} GridLength(monthlyTrend: map<string, map<string, nat>>, months: seq<string>, causes: seq<string>)
    ensures |Grid(monthlyTrend, months, causes)| == |months| * |causes|
  {
    if months != [] {
      GridLength(monthlyTrend, months[..|months| - 1], causes);
    }
  }

  /** The cell for month `i` and root cause `j` sits at `i * |causes| + j`, with 0 where the month
      has no defect of that root cause. */
  lemma {:induction false} GridCell(monthlyTrend: map<string, map<string, nat>>, months: seq<string>, causes: seq<string>,
                                    i: nat, j: nat)
    requires i < |months| && j < |causes|
    ensures i * |causes| + j < |Grid(monthlyTrend, months, causes)|
    ensures Grid(monthlyTrend, months, causes)[i * |causes| + j] == Cell(monthlyTrend, months[i], causes[j])
  {
    var init := months[..|months| - 1];
    var n := |causes|;
    GridLength(monthlyTrend, init, causes);
    GridLength(monthlyTrend, months, causes);
    MultiplyBound(i, j, |months|, n);
    if i < |init| {
      MultiplyBound(i, j, |init|, n);
      GridCell(monthlyTrend, init, causes, i, j);
      assert months[i] == init[i];
    }
  }

  lemma MultiplyBound(i: nat, j: nat, rows: nat, n: nat)
    requires i < rows && j < n
    ensures i * n + j < rows * n
  {
    assert (i + 1) * n <= rows * n;
  }

  /** The nested loops over the sorted month keys and the sorted root causes. */
  method BuildTrendGrid(monthlyTrend: map<string, map<string, nat>>, rcaSummary: map<string, nat>)
    returns (grid: seq<TrendCell>, months: seq<string>, causes: seq<string>)
    ensures StrictlyAscending(months) && (forall m :: m in months <==> m in monthlyTrend)
    ensures StrictlyAscending(causes) && (forall rc :: rc in causes <==> rc in rcaSummary)
    ensures grid == Grid(monthlyTrend, months, causes)
  {
    months := SortedKeys(monthlyTrend);
    causes := SortedKeys(rcaSummary);
    grid := [];
    for i := 0 to |months|
      invariant grid == Grid(monthlyTrend, months[..i], causes)
    {
      assert months[..i + 1][..i] == months[..i];
      grid := AppendMonth(grid, monthlyTrend, months[i], causes);
    }
    assert months[..|months|] == months;
  }

  /** The inner loop: one cell per root cause for one month key. */
  method AppendMonth(grid: seq<TrendCell>, monthlyTrend: map<string, map<string, nat>>, month: string, causes: seq<string>)
    returns (extended: seq<TrendCell>)
    requires month in monthlyTrend
    ensures extended == grid + MonthCells(monthlyTrend, month, causes)
  {
    extended := grid;
    for j := 0 to |causes|
      invariant extended == grid + MonthCells(monthlyTrend, month, causes[..j])
    {
      var rc := causes[j];
      extended := extended + [TrendCell(month, rc, CountIn(monthlyTrend[month], rc))];
      assert MonthCells(monthlyTrend, month, causes[..j + 1])
        == MonthCells(monthlyTrend, month, causes[..j]) + [Cell(monthlyTrend, month, rc)];
    }
    assert causes[..|causes|] == causes;
  }
}
