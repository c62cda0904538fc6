/** `get_project_rca_data`: the defects of a project with their root causes, and the counts the
    root-cause-analysis view is drawn from. */
module Rca {
  import opened Wrappers
  import opened Text
  import opened RallyApi
  import opened Counting

  /** A fetched defect: Name, c_RCARootCauseUS, Severity, Priority, State and CreationDate. */
  datatype DefectRecord = DefectRecord(
    name: Option<string>, rootCause: Option<string>, severity: Option<string>,
    priority: Option<string>, state: Option<string>, creationDate: Option<string>)

  datatype RcaDefect = RcaDefect(
    name: string, rootCause: string, severity: string, priority: string, state: string, creationDate: string)

  /** The entry of one defect: the day part of its creation timestamp and every missing field
      defaulted. */
  function DefectOf(r: DefectRecord): (d: RcaDefect)
    ensures var date := r.creationDate.GetOr("");
      && 'T' !in d.creationDate && d.creationDate <= date
      && (|d.creationDate| < |date| ==> date[|d.creationDate|] == 'T')
    ensures d.rootCause == r.rootCause.GetOr("Unspecified")
    ensures d.name == r.name.GetOr("Unnamed Defect") && d.severity == r.severity.GetOr("None")
      && d.priority == r.priority.GetOr("None") && d.state == r.state.GetOr("None")
  {
    RcaDefect(r.name.GetOr("Unnamed Defect"), r.rootCause.GetOr("Unspecified"), r.severity.GetOr("None"),
              r.priority.GetOr("None"), r.state.GetOr("None"), BeforeFirst(r.creationDate.GetOr(""), 'T'))
  }

  /** The `YYYY-MM` key of a defect: the first seven characters of its creation date. */
  function Month(d: RcaDefect): (month: string)
    ensures |month| == if |d.creationDate| < 7 then |d.creationDate| else 7
    ensures month <= d.creationDate
  {
    Take(d.creationDate, 7)
  }

  function RootCauses(ds: seq<RcaDefect>): seq<string> {
    seq(|ds|, i requires 0 <= i < |ds| => ds[i].rootCause)
  }

  function Severities(ds: seq<RcaDefect>): seq<string> {
    seq(|ds|, i requires 0 <= i < |ds| => ds[i].severity)
  }

  function Priorities(ds: seq<RcaDefect>): seq<string> {
    seq(|ds|, i requires 0 <= i < |ds| => ds[i].priority)
  }

  function States(ds: seq<RcaDefect>): seq<string> {
    seq(|ds|, i requires 0 <= i < |ds| => ds[i].state)
  }

  function Months(ds: seq<RcaDefect>): seq<string> {
    seq(|ds|, i requires 0 <= i < |ds| => Month(ds[i]))
  }

  /** The root causes of the defects created in `month`, in defect order. */
  function CausesIn(ds: seq<RcaDefect>, month: string): (causes: seq<string>)
    ensures |causes| <= |ds|
    ensures causes != [] ==> month in Months(ds)
  {
    if ds == [] then []
    else
      var init, d := ds[..|ds| - 1], ds[|ds| - 1];
      assert forall i :: 0 <= i < |init| ==> Months(ds)[i] == Months(init)[i];
      assert Months(ds)[|ds| - 1] == Month(d);
      CausesIn(init, month) + (if Month(d) == month then [d.rootCause] else [])
  }

  /** One row per month that has defects, counting that month's defects per root cause. */
  function MonthlyTrend(ds: seq<RcaDefect>): map<string, map<string, nat>> {
    map month | month in Months(ds) :: Histogram(CausesIn(ds, month))
  }

  datatype RcaData = RcaData(
    defects: seq<RcaDefect>,
    rcaSummary: map<string, nat>,
    monthlyTrend: map<string, map<string, nat>>,
    severityDistribution: map<string, nat>,
    priorityDistribution: map<string, nat>,
    stateDistribution: map<string, nat>,
    /** The keys of `rcaSummary` in insertion order. */
    rootCauseOrder: seq<string>)

  /** The model of a finished report: its defects are the records mapped in order, and each count is
      the histogram of the matching field. */
  ghost predicate IsReportOf(records: seq<DefectRecord>, data: RcaData) {
    MapsRecords(records, data.defects) && Summarises(data)
  }

  /** `defects` lists the entries of `records`, in order. */
  predicate MapsRecords(records: seq<DefectRecord>, defects: seq<RcaDefect>) {
    && |defects| == |records|
    && (forall i :: 0 <= i < |records| ==> defects[i] == DefectOf(records[i]))
  }

  /** Every count of `data` is the histogram of the matching field of its defects. */
  ghost predicate Summarises(data: RcaData) {
    && data.rcaSummary == Histogram(RootCauses(data.defects))
    && data.monthlyTrend == MonthlyTrend(data.defects)
    && data.severityDistribution == Histogram(Severities(data.defects))
    && data.priorityDistribution == Histogram(Priorities(data.defects))
    && data.stateDistribution == Histogram(States(data.defects))
    && data.rootCauseOrder == FirstOccurrences(RootCauses(data.defects))
  }

  /** `monthly_trend.get(month, {})`: the row of `month`, empty while it has no defects. */
  function RowOf(trend: map<string, map<string, nat>>, month: string): map<string, nat> {
    if month in trend then trend[month] else map[]
  }

  /** The monthly trend after one more defect: its month's row, created empty if new, counts one
      more of its root cause. */
  lemma MonthlySnoc(ds: seq<RcaDefect>, d: RcaDefect)
    ensures var before := MonthlyTrend(ds);
      MonthlyTrend(ds + [d]) == before[Month(d) := Bump(RowOf(before, Month(d)), d.rootCause)]
  {
    var m := Month(d);
    var before := MonthlyTrend(ds);
    var after := MonthlyTrend(ds + [d]);
    var expected := before[m := Bump(RowOf(before, m), d.rootCause)];
    MonthsSnoc(ds, d);
    assert after.Keys == expected.Keys;
    MonthlySnocSame(ds, d);
    forall month | month in after && month != m
      ensures after[month] == expected[month]
    {
      MonthlySnocOther(ds, d, month);
    }
  }

  /** The row of the new defect's month counts one more of its root cause. */
  lemma MonthlySnocSame(ds: seq<RcaDefect>, d: RcaDefect)
    ensures Month(d) in MonthlyTrend(ds + [d])
    ensures MonthlyTrend(ds + [d])[Month(d)] == Bump(RowOf(MonthlyTrend(ds), Month(d)), d.rootCause)
  {
    var m := Month(d);
    MonthsSnoc(ds, d);
    CausesInSnoc(ds, d, m);
    HistogramSnoc(CausesIn(ds, m), d.rootCause);
    RowOfMonthly(ds, m);
  }

  /** The rows of the other months do not change. */
  lemma MonthlySnocOther(ds: seq<RcaDefect>, d: RcaDefect, month: string)
    requires month != Month(d) && month in MonthlyTrend(ds + [d])
    ensures month in MonthlyTrend(ds)
    ensures MonthlyTrend(ds + [d])[month] == MonthlyTrend(ds)[month]
  {
    MonthsSnoc(ds, d);
    assert month in Months(ds + [d]);
    assert month in Months(ds) by {
      var i :| 0 <= i < |Months(ds + [d])| && Months(ds + [d])[i] == month;
      assert i < |ds|;
      assert Months(ds)[i] == month;
    }
    CausesInSnoc(ds, d, month);
    var causes := CausesIn(ds, month);
    assert CausesIn(ds + [d], month) == causes;
    assert MonthlyTrend(ds + [d])[month] == Histogram(causes);
    assert MonthlyTrend(ds)[month] == Histogram(causes);
  }

  /** A month's row is the histogram of its root causes, the empty one for a month without defects. */
  lemma RowOfMonthly(ds: seq<RcaDefect>, month: string)
    ensures RowOf(MonthlyTrend(ds), month) == Histogram(CausesIn(ds, month))
  {
    if month !in Months(ds) {
      assert CausesIn(ds, month) == [];
      assert Histogram(CausesIn(ds, month)) == map[];
    }
  }

  lemma MonthsSnoc(ds: seq<RcaDefect>, d: RcaDefect)
    ensures Months(ds + [d]) == Months(ds) + [Month(d)]
  {
  }

  lemma CausesInSnoc(ds: seq<RcaDefect>, d: RcaDefect, month: string)
    ensures CausesIn(ds + [d], month) == CausesIn(ds, month) + (if Month(d) == month then [d.rootCause] else [])
  {
    assert (ds + [d])[..|ds|] == ds;
  }

  lemma ProjectionsSnoc(ds: seq<RcaDefect>, d: RcaDefect)
    ensures RootCauses(ds + [d]) == RootCauses(ds) + [d.rootCause]
    ensures Severities(ds + [d]) == Severities(ds) + [d.severity]
    ensures Priorities(ds + [d]) == Priorities(ds) + [d.priority]
    ensures States(ds + [d]) == States(ds) + [d.state]
  {
  }

  /** The report with one more defect: one more entry, and one more count in each histogram. */
  function AddDefect(data: RcaData, d: RcaDefect): RcaData {
    RcaData(
      data.defects + [d],
      Bump(data.rcaSummary, d.rootCause),
      data.monthlyTrend[Month(d) := Bump(RowOf(data.monthlyTrend, Month(d)), d.rootCause)],
      Bump(data.severityDistribution, d.severity),
      Bump(data.priorityDistribution, d.priority),
      Bump(data.stateDistribution, d.state),
      if d.rootCause in data.rcaSummary then data.rootCauseOrder else data.rootCauseOrder + [d.rootCause])
  }

  /** One more defect record extends the report by one entry and one count in each histogram. */
  lemma ReportSnoc(records: seq<DefectRecord>, r: DefectRecord, data: RcaData)
    requires IsReportOf(records, data)
    ensures IsReportOf(records + [r], AddDefect(data, DefectOf(r)))
  {
    MapsRecordsSnoc(records, r, data.defects);
    SummarisesSnoc(data, DefectOf(r));
  }

  lemma MapsRecordsSnoc(records: seq<DefectRecord>, r: DefectRecord, defects: seq<RcaDefect>)
    requires MapsRecords(records, defects)
    ensures MapsRecords(records + [r], defects + [DefectOf(r)])
  {
    assert (records + [r])[..|records|] == records;
  }

  lemma SummarisesSnoc(data: RcaData, d: RcaDefect)
    requires Summarises(data)
    ensures Summarises(AddDefect(data, d))
  {
    DistributionsSnoc(data.defects, d);
    MonthlySnoc(data.defects, d);
    OrderSnoc(data.defects, d);
  }

  lemma DistributionsSnoc(ds: seq<RcaDefect>, d: RcaDefect)
    ensures Histogram(RootCauses(ds + [d])) == Bump(Histogram(RootCauses(ds)), d.rootCause)
    ensures Histogram(Severities(ds + [d])) == Bump(Histogram(Severities(ds)), d.severity)
    ensures Histogram(Priorities(ds + [d])) == Bump(Histogram(Priorities(ds)), d.priority)
    ensures Histogram(States(ds + [d])) == Bump(Histogram(States(ds)), d.state)
  {
    ProjectionsSnoc(ds, d);
    HistogramSnoc(RootCauses(ds), d.rootCause);
    HistogramSnoc(Severities(ds), d.severity);
    HistogramSnoc(Priorities(ds), d.priority);
    HistogramSnoc(States(ds), d.state);
  }

  /** A root cause joins the key order the first time it is counted. */
  lemma OrderSnoc(ds: seq<RcaDefect>, d: RcaDefect)
    ensures FirstOccurrences(RootCauses(ds + [d])) ==
      if d.rootCause in Histogram(RootCauses(ds)) then FirstOccurrences(RootCauses(ds))
      else FirstOccurrences(RootCauses(ds)) + [d.rootCause]
  {
    ProjectionsSnoc(ds, d);
    var causes := RootCauses(ds) + [d.rootCause];
    assert causes[..|ds|] == RootCauses(ds);
    assert d.rootCause in FirstOccurrences(RootCauses(ds)) <==> d.rootCause in RootCauses(ds);
  }

  /** `ReportSnoc` for the loop's prefixes of the fetched records. */
  lemma ReportPrefix(records: seq<DefectRecord>, i: nat, data: RcaData)
    requires i < |records| && IsReportOf(records[..i], data)
    ensures IsReportOf(records[..i + 1], AddDefect(data, DefectOf(records[i])))
  {
    assert records[..i + 1] == records[..i] + [records[i]];
    ReportSnoc(records[..i], records[i], data);
  }

  /** No defects make an empty report. */
  lemma EmptyReport()
    ensures IsReportOf([], RcaData([], map[], map[], map[], map[], map[], []))
  {
    assert MonthlyTrend([]) == map[];
  }

  /** The loop over the fetched defects, filling every count as it goes; no report when the query
      fails (the function then falls off its end). */
  method GetProjectRcaData(response: QueryResponse<DefectRecord>) returns (data: Option<RcaData>)
    ensures data.None? <==> response.status != HttpOk
    ensures data.Some? ==> IsReportOf(response.results, data.value)
  {
    if response.status != HttpOk {
      return None;
    }
    var records := response.results;
    var report := RcaData([], map[], map[], map[], map[], map[], []);
    EmptyReport();
    for i := 0 to |records|
      invariant IsReportOf(records[..i], report)
    {
      ghost var before := report;
      report := TallyDefect(report, records[i]);
      ReportPrefix(records, i, before);
    }
    assert records[..|records|] == records;
    return Some(report);
  }

  /** The body of the loop: one entry for the defect and one more count in each tally. */
  method TallyDefect(report: RcaData, defect: DefectRecord) returns (next: RcaData)
    ensures next == AddDefect(report, DefectOf(defect))
  {
    var creationDate := BeforeFirst(defect.creationDate.GetOr(""), 'T');
    var rootCause := defect.rootCause.GetOr("Unspecified");
    var severity := defect.severity.GetOr("None");
    var priority := defect.priority.GetOr("None");
    var state := defect.state.GetOr("None");
    var entry := RcaDefect(defect.name.GetOr("Unnamed Defect"), rootCause, severity, priority, state, creationDate);
    ghost var step := AddDefect(report, entry);
    assert entry == DefectOf(defect);

    var rootCauseOrder := report.rootCauseOrder;
    if rootCause !in report.rcaSummary {
      rootCauseOrder := rootCauseOrder + [rootCause];
    }
    assert rootCauseOrder == step.rootCauseOrder;
    var rcaSummary := report.rcaSummary[rootCause := CountIn(report.rcaSummary, rootCause) + 1];
    assert rcaSummary == step.rcaSummary;
    var month := Take(creationDate, 7);
    assert month == Month(entry);
    var monthlyTrend := report.monthlyTrend;
    if month !in monthlyTrend {
      monthlyTrend := monthlyTrend[month := map[]];
    }
    var row: map<string, nat> := monthlyTrend[month];
    monthlyTrend := monthlyTrend[month := row[rootCause := CountIn(row, rootCause) + 1]];
    assert monthlyTrend == step.monthlyTrend;
    var severityDistribution := report.severityDistribution[severity := CountIn(report.severityDistribution, severity) + 1];
    var priorityDistribution := report.priorityDistribution[priority := CountIn(report.priorityDistribution, priority) + 1];
    var stateDistribution := report.stateDistribution[state := CountIn(report.stateDistribution, state) + 1];
    next := RcaData(report.defects + [entry], rcaSummary, monthlyTrend, severityDistribution,
                    priorityDistribution, stateDistribution, rootCauseOrder);
  }

  // ---------------------------------------------------------------- what the counts add up to

  /** Each of the four tallies counts every defect once. */
  lemma TalliesAddUp(ds: seq<RcaDefect>)
    ensures MapSum(Histogram(RootCauses(ds))) == |ds|
    ensures MapSum(Histogram(Severities(ds))) == |ds|
    ensures MapSum(Histogram(Priorities(ds))) == |ds|
    ensures MapSum(Histogram(States(ds))) == |ds|
  {
    HistogramSum(RootCauses(ds));
    HistogramSum(Severities(ds));
    HistogramSum(Priorities(ds));
    HistogramSum(States(ds));
  }

  /** A month's row counts each defect created in that month once. */
  lemma MonthRowSum(ds: seq<RcaDefect>, month: string)
    requires month in MonthlyTrend(ds)
    ensures MapSum(MonthlyTrend(ds)[month]) == |CausesIn(ds, month)|
  {
    HistogramSum(CausesIn(ds, month));
  }

  /** `CausesIn` holds one entry per defect of the month. */
  lemma {:induction false} CausesInCountsMonth(ds: seq<RcaDefect>, month: string)
    ensures |CausesIn(ds, month)| == Occurrences(Months(ds), month)
  {
    if ds != [] {
      var init, d := ds[..|ds| - 1], ds[|ds| - 1];
      CausesInCountsMonth(init, month);
      assert ds == init + [d];
      MonthsSnoc(init, d);
      OccurrencesSnoc(Months(init), Month(d), month);
    }
  }

  /** One root cause's count in every month. */
  ghost function Column(trend: map<string, map<string, nat>>, rootCause: string): map<string, nat> {
    map month | month in trend :: CountIn(trend[month], rootCause)
  }

  /** Counting one more defect in one month changes its root cause's column in that month only. */
  lemma ColumnAfterBump(trend: map<string, map<string, nat>>, month: string, cause: string, rootCause: string)
    ensures var c := Column(trend, rootCause);
      Column(trend[month := Bump(RowOf(trend, month), cause)], rootCause)
        == c[month := CountIn(c, month) + (if cause == rootCause then 1 else 0)]
  {
    var row := RowOf(trend, month);
    var c := Column(trend, rootCause);
    var after := Column(trend[month := Bump(row, cause)], rootCause);
    assert CountIn(row, rootCause) == CountIn(c, month);
    assert after.Keys == c.Keys + {month};
  }

  /** Counting one more defect in one month adds one to the column of its root cause only. */
  lemma ColumnBump(trend: map<string, map<string, nat>>, month: string, cause: string, rootCause: string)
    ensures MapSum(Column(trend[month := Bump(RowOf(trend, month), cause)], rootCause))
        == MapSum(Column(trend, rootCause)) + (if cause == rootCause then 1 else 0)
  {
    var c := Column(trend, rootCause);
    var after := Column(trend[month := Bump(RowOf(trend, month), cause)], rootCause);
    var bump := if cause == rootCause then 1 else 0;
    ColumnAfterBump(trend, month, cause, rootCause);
    assert after == c[month := CountIn(c, month) + bump];
    MapSumReplace(c, month, CountIn(c, month) + bump);
    assert MapSum(after) == MapSum(c) + bump;
  }

  /** A root cause's counts over all months add up to its summary count. */
  lemma {:induction false} ColumnSum(ds: seq<RcaDefect>, rootCause: string)
    ensures MapSum(Column(MonthlyTrend(ds), rootCause)) == CountIn(Histogram(RootCauses(ds)), rootCause)
  {
    if ds == [] {
      assert Column(MonthlyTrend(ds), rootCause) == map[];
    } else {
      var init, d := ds[..|ds| - 1], ds[|ds| - 1];
      assert ds == init + [d];
      ColumnSum(init, rootCause);
      MonthlySnoc(init, d);
      ColumnBump(MonthlyTrend(init), Month(d), d.rootCause, rootCause);
      ProjectionsSnoc(init, d);
      HistogramSnoc(RootCauses(init), d.rootCause);
    }
  }

  /** What a finished report adds up to: each tally sums to the number of fetched defects, each
      root cause's monthly counts sum to its summary count, and each month's row sums to the
      number of defects created in that month. */
  lemma ReportTotals(records: seq<DefectRecord>, data: RcaData)
    requires IsReportOf(records, data)
    ensures |data.defects| == |records|
    ensures MapSum(data.rcaSummary) == |records| && MapSum(data.severityDistribution) == |records|
    ensures MapSum(data.priorityDistribution) == |records| && MapSum(data.stateDistribution) == |records|
    ensures forall rc :: MapSum(Column(data.monthlyTrend, rc)) == CountIn(data.rcaSummary, rc)
    ensures forall month :: month in data.monthlyTrend ==>
      MapSum(data.monthlyTrend[month]) == Occurrences(Months(data.defects), month)
  {
    TalliesAddUp(data.defects);
    forall rc
      ensures MapSum(Column(data.monthlyTrend, rc)) == CountIn(data.rcaSummary, rc)
    {
      ColumnSum(data.defects, rc);
    }
    forall month | month in data.monthlyTrend
      ensures MapSum(data.monthlyTrend[month]) == Occurrences(Months(data.defects), month)
    {
      MonthRowSum(data.defects, month);
      CausesInCountsMonth(data.defects, month);
    }
  }
}
