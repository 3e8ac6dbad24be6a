/** What `detectRegressions` reports for one adapter: trends are built, then their direction and forecast
    are overwritten in place by later stages, and every stage appends to one list of entries. */
module RegressionReport {
  import opened Options
  import opened Sequences
  import opened Regression
  import opened Trends

  /** A missing value is 0; a missing `trendMetric` is empty. */
  datatype Check = Check(key: string, value: real, histKey: string, title: string, trendMetric: string)

  /** What the cold and warm runs of a metric come to: the latest ratio and the median of the earlier ones. */
  datatype Ratio = Ratio(metric: string, latest: real, baseline: real)

  /** The budget table, the stored histories of the adapter, newest first, and its cold/warm ratios. */
  datatype Records = Records(budget: string -> real, history: string -> seq<real>, ratios: seq<Ratio>)

  datatype Severity = Info | Warn | Severe

  datatype Entry = Entry(title: string, current: real, changePct: real, isRegression: bool, direction: Direction,
                         severity: Severity, isImprovement: bool, isFlapping: bool, forecastRuns: Option<int>)

  /** What a trend says of its history beside the slope; the deviation is kept as its square. */
  datatype Sample = Sample(variance: real, r2: real, size: nat, confidence: real)

  /** The state of a trend at one moment; that of the memory growth has a category and forecast model of its own. */
  datatype Trend = Trend(metric: string, isMemory: bool, current: real, baseline: real, slope: real, sample: Sample,
                         direction: Direction, forecastRuns: Option<int>)

  const MIN_RUNS_FOR_TREND := 3

  function Metric(c: Check): string {
    if c.trendMetric != "" then c.trendMetric else c.key
  }

  function ChangePct(current: real, baseline: real): real {
    if baseline > 0.0 then (current - baseline) / baseline * 100.0 else 0.0
  }

  function FindTitle(checks: seq<Check>, metric: string): string {
    if checks == [] then metric
    else if checks[0].trendMetric == metric || checks[0].key == metric then
      if checks[0].title != "" then checks[0].title else metric
    else FindTitle(checks[1..], metric)
  }

  /** `buildChecks`: the program's own checks, with the value measured for each. */
  function BuildChecks(m: string -> real): seq<Check> {
    [Check("collections", m("collections"), "collections_p95", "REST/Collections p95", "collections"),
     Check("graphqlAvg", m("graphqlAvg"), "graphql_avg", "GraphQL Avg", "graphqlAvg"),
     Check("hooks", m("hooks"), "middleware_hooks_p95", "Hooks/Middleware", "hooks"),
     Check("memGrowth", m("memGrowth"), "mem_growth", "Memory Growth", "memGrowth"),
     Check("indexPressure", m("indexPressure"), "index_pressure_p95", "Index Pressure", "indexPressure"),
     Check("dbRaw", m("dbRaw"), "adapter_read_avg", "DB Raw p95", "dbRaw"),
     Check("mixedAvg", m("mixedAvg"), "mixed_workload_aggregate", "Mixed Workload", "mixedAvg")]
  }

  // ------------------------------------------------------------------
  // The stages, one trend at a time
  // ------------------------------------------------------------------

  predicate HasTrend(os: Records, c: Check) {
    c.value > 0.0 && |os.history(c.histKey)| >= MIN_RUNS_FOR_TREND
  }

  function TrendOf(os: Records, c: Check): Option<Trend> {
    var history := os.history(c.histKey);
    if !HasTrend(os, c) then None
    else
      Some(Trend(Metric(c), c.key == "memGrowth", c.value, MeanOf(history), LinearRegression(history).slope,
                 SampleOf(history, c.value, os.budget(c.key)), ComputeTrendSlope(history, c.value, os.budget(c.key)),
                 None))
  }

  function SampleOf(history: seq<real>, current: real, budget: real): Sample {
    Sample(Variance(history), LinearRegression(history).r2, |history|, TrendConfidence(history, current, budget))
  }

  ghost function AfterFlapping(os: Records, t: Trend): Trend {
    if Flaps(os.history(t.metric)) then t.(direction := Direction.Flapping) else t
  }

  function AfterForecast(os: Records, t: Trend): Trend {
    if t.direction in {Direction.Flapping, Stable} || t.slope <= 0.0 then t
    else match ComputeBudgetForecast(t.current, t.slope, os.budget(t.metric))
      case None => t
      case Some(f) => t.(forecastRuns := Some(f.runsUntilBreach))
  }

  ghost function Finished(os: Records, t: Trend): Trend {
    AfterForecast(os, AfterFlapping(os, t))
  }

  function BaselineAlert(os: Records, c: Check): Option<Entry> {
    var history := os.history(c.histKey);
    if c.value <= 0.0 || |history| >= MIN_RUNS_FOR_TREND then None
    else
      var pct := ChangePct(c.value, if history == [] then 0.0 else MeanOf(history));
      if Abs(pct) > 15.0 then Some(Entry(c.title, c.value, pct, pct > 15.0, Stable, Info, false, false, None)) else None
  }

  const RATIO_SUFFIX := " (cold/warm ratio)"

  function RatioEntry(r: Ratio): Option<Entry> {
    if r.latest <= 0.0 || r.baseline <= 0.0 || ChangePct(r.latest, r.baseline) <= 20.0 then None
    else Some(Entry(r.metric + RATIO_SUFFIX, r.latest, ChangePct(r.latest, r.baseline), true, Degrading, Warn, false,
                    false, None))
  }

  ghost function FlappingAlert(os: Records, checks: seq<Check>, t: Trend): Option<Entry> {
    if !Flaps(os.history(t.metric)) then None
    else Some(Entry(FindTitle(checks, t.metric), t.current, ChangePct(t.current, t.baseline), false,
                    Direction.Flapping, Warn, false, true, None))
  }

  function RegressionEntry(checks: seq<Check>, t: Trend): Option<Entry> {
    if t.direction !in {Degrading, Critical} then None
    else Some(Entry(FindTitle(checks, t.metric), t.current, ChangePct(t.current, t.baseline), true, t.direction,
                    if t.direction == Critical then Severe else Warn, false, false, t.forecastRuns))
  }

  function ImprovementEntry(checks: seq<Check>, t: Trend): Option<Entry> {
    var pct := ChangePct(t.current, t.baseline);
    if t.direction in {Degrading, Critical, Direction.Flapping} || pct >= -20.0 then None
    else Some(Entry(FindTitle(checks, t.metric), t.current, pct, false, Improving, Info, true, false, None))
  }

  predicate OverBudget(os: Records, c: Check) {
    c.value > 0.0 && c.value > os.budget(c.key)
  }

  /** Over a budget of zero the percentage is infinite in the program and 0 here. */
  function ViolationEntry(os: Records, c: Check): Entry {
    var budget := os.budget(c.key);
    var pct := if budget == 0.0 then 0.0 else (c.value - budget) / budget * 100.0;
    Entry(c.title, c.value, pct, true, Critical, Severe, false, false, None)
  }

  predicate Listed(entries: seq<Entry>, title: string) {
    exists e <- entries :: e.title == title
  }

  function WithViolations(os: Records, checks: seq<Check>, entries: seq<Entry>): seq<Entry> {
    if checks == [] then entries
    else
      var before := WithViolations(os, checks[..|checks| - 1], entries);
      var c := checks[|checks| - 1];
      if OverBudget(os, c) && !Listed(before, c.title) then before + [ViolationEntry(os, c)] else before
  }

  /** What the stages before the budget check emit, in their order. */
  ghost function BeforeBudgets(os: Records, checks: seq<Check>): seq<Entry> {
    var built := Collect((c: Check) => TrendOf(os, c), checks);
    var done := Map((t: Trend) => Finished(os, t), built);
    Collect((c: Check) => BaselineAlert(os, c), checks)
    + Collect(RatioEntry, os.ratios)
    + Collect((t: Trend) => FlappingAlert(os, checks, t), built)
    + Collect((t: Trend) => RegressionEntry(checks, t), done)
    + Collect((t: Trend) => ImprovementEntry(checks, t), done)
  }

  ghost function Emitted(os: Records, checks: seq<Check>): seq<Entry> {
    WithViolations(os, checks, BeforeBudgets(os, checks))
  }

  /** `isWarmingUp`: too few runs, or more than 30% above the average of the last three. */
  predicate WarmingUp(history: seq<real>, current: real) {
    |history| < 2 || current > MeanOf(if |history| > 3 then history[..3] else history) * 1.3
  }

  /** Everything `detectRegressions` emits for one adapter. */
  ghost function TurnEntries(os: Records, m: string -> real): seq<Entry> {
    if WarmingUp(os.history("collections_p95"), m("collections")) then [] else Emitted(os, BuildChecks(m))
  }

  // ------------------------------------------------------------------
  // The program: trends are objects
  // ------------------------------------------------------------------

  class MetricTrend {
    const metric: string
    const isMemory: bool
    const current: real
    const baseline: real
    const slope: real
    const sample: Sample
    var direction: Direction
    var forecastRunsToBreach: Option<int>

    constructor (t: Trend)
      ensures Value() == t
    {
      metric, isMemory, current, baseline, slope := t.metric, t.isMemory, t.current, t.baseline, t.slope;
      sample := t.sample;
      direction, forecastRunsToBreach := t.direction, t.forecastRuns;
    }

    function Value(): Trend
      reads this
    {
      Trend(metric, isMemory, current, baseline, slope, sample, direction, forecastRunsToBreach)
    }
  }

  ghost predicate Shows(trends: seq<MetricTrend>, values: seq<Trend>)
    reads trends
  {
    |trends| == |values| && forall i :: 0 <= i < |trends| ==> trends[i].Value() == values[i]
  }

  method BuildAdapterTrends(os: Records, checks: seq<Check>) returns (trends: seq<MetricTrend>)
    ensures Distinct(trends) && fresh(set t | t in trends)
    ensures Shows(trends, Collect((c: Check) => TrendOf(os, c), checks))
  {
    hide TrendOf, Collect;
    ghost var build := (c: Check) => TrendOf(os, c);
    trends := [];
    CollectNone(build);
    for i := 0 to |checks|
      invariant Distinct(trends) && fresh(set t | t in trends)
      invariant Shows(trends, Collect(build, checks[..i]))
    {
      CollectStep(build, checks, i);
      var built := TrendOf(os, checks[i]);
      if built.Some? {
        var t := new MetricTrend(built.value);
        trends := trends + [t];
      }
    }
    assert checks[..|checks|] == checks;
  }

  lemma CollectNone<A, B>(f: A -> Option<B>)
    ensures forall s: seq<A> :: s == [] ==> Collect(f, s) == []
  {
  }

  /** The flapping loop: it overwrites the direction of the trends that flap and touches nothing else. */
  method MarkFlapping(os: Records, checks: seq<Check>, trends: seq<MetricTrend>, ghost values: seq<Trend>)
    returns (alerts: seq<Entry>)
    requires Distinct(trends) && Shows(trends, values)
    modifies trends
    ensures Shows(trends, Map((t: Trend) => AfterFlapping(os, t), values))
    ensures alerts == Collect((t: Trend) => FlappingAlert(os, checks, t), values)
  {
    hide Collect, Flaps, FindTitle, ChangePct;
    ghost var alert := (t: Trend) => FlappingAlert(os, checks, t);
    alerts := [];
    CollectNone(alert);
    for i := 0 to |trends|
      invariant forall j :: 0 <= j < i ==> trends[j].Value() == AfterFlapping(os, values[j])
      invariant forall j :: i <= j < |trends| ==> trends[j].Value() == values[j]
      invariant alerts == Collect(alert, values[..i])
    {
      var t := trends[i];
      CollectStep(alert, values, i);
      var isFlapping, _ := DetectFlapping(os.history(t.metric));
      if isFlapping {
        t.direction := Direction.Flapping;
        alerts := alerts + [Entry(FindTitle(checks, t.metric), t.current, ChangePct(t.current, t.baseline), false,
                                  Direction.Flapping, Warn, false, true, None)];
      }
    }
    assert values[..|trends|] == values;
  }

  /** The forecast loop: it sets the forecast of the trends that have one and touches nothing else. */
  method AddForecasts(os: Records, trends: seq<MetricTrend>, ghost values: seq<Trend>)
    requires Distinct(trends) && Shows(trends, values)
    modifies trends
    ensures Shows(trends, Map((t: Trend) => AfterForecast(os, t), values))
  {
    hide ComputeBudgetForecast;
    for i := 0 to |trends|
      invariant forall j :: 0 <= j < i ==> trends[j].Value() == AfterForecast(os, values[j])
      invariant forall j :: i <= j < |trends| ==> trends[j].Value() == values[j]
    {
      var t := trends[i];
      if t.direction != Direction.Flapping && t.direction != Stable && t.slope > 0.0 {
        var forecast := ComputeBudgetForecast(t.current, t.slope, os.budget(t.metric));
        if forecast.Some? { t.forecastRunsToBreach := Some(forecast.value.runsUntilBreach); }
      }
    }
  }

  method EmitRegressions(checks: seq<Check>, trends: seq<MetricTrend>, ghost values: seq<Trend>)
    returns (entries: seq<Entry>)
    requires Shows(trends, values)
    ensures entries == Collect((t: Trend) => RegressionEntry(checks, t), values)
  {
    hide Collect, FindTitle, ChangePct;
    ghost var emit := (t: Trend) => RegressionEntry(checks, t);
    entries := [];
    CollectNone(emit);
    for i := 0 to |trends|
      invariant entries == Collect(emit, values[..i])
    {
      var t := trends[i];
      CollectStep(emit, values, i);
      if t.direction == Degrading || t.direction == Critical {
        entries := entries +
          [Entry(FindTitle(checks, t.metric), t.current, ChangePct(t.current, t.baseline), true, t.direction,
                 if t.direction == Critical then Severe else Warn, false, false, t.forecastRunsToBreach)];
      }
    }
    assert values[..|trends|] == values;
  }

  method EmitImprovements(checks: seq<Check>, trends: seq<MetricTrend>, ghost values: seq<Trend>)
    returns (entries: seq<Entry>)
    requires Shows(trends, values)
    ensures entries == Collect((t: Trend) => ImprovementEntry(checks, t), values)
  {
    hide Collect, FindTitle, ChangePct;
    ghost var emit := (t: Trend) => ImprovementEntry(checks, t);
    entries := [];
    CollectNone(emit);
    for i := 0 to |trends|
      invariant entries == Collect(emit, values[..i])
    {
      var t := trends[i];
      CollectStep(emit, values, i);
      if t.direction !in {Degrading, Critical, Direction.Flapping} {
        var pct := ChangePct(t.current, t.baseline);
        if pct < -20.0 {
          entries := entries +
            [Entry(FindTitle(checks, t.metric), t.current, pct, false, Improving, Info, true, false, None)];
        }
      }
    }
    assert values[..|trends|] == values;
  }

  method EmitBaselineAlerts(os: Records, checks: seq<Check>) returns (entries: seq<Entry>)
    ensures entries == Collect((c: Check) => BaselineAlert(os, c), checks)
  {
    hide Collect, BaselineAlert;
    ghost var emit := (c: Check) => BaselineAlert(os, c);
    entries := [];
    CollectNone(emit);
    for i := 0 to |checks|
      invariant entries == Collect(emit, checks[..i])
    {
      CollectStep(emit, checks, i);
      var alert := BaselineAlert(os, checks[i]);
      if alert.Some? { entries := entries + [alert.value]; }
    }
    assert checks[..|checks|] == checks;
  }

  method EmitRatios(os: Records) returns (entries: seq<Entry>)
    ensures entries == Collect(RatioEntry, os.ratios)
  {
    hide Collect, RatioEntry;
    entries := [];
    CollectNone(RatioEntry);
    for i := 0 to |os.ratios|
      invariant entries == Collect(RatioEntry, os.ratios[..i])
    {
      CollectStep(RatioEntry, os.ratios, i);
      var degraded := RatioEntry(os.ratios[i]);
      if degraded.Some? { entries := entries + [degraded.value]; }
    }
    assert os.ratios[..|os.ratios|] == os.ratios;
  }

  method EmitBudgetViolations(os: Records, checks: seq<Check>, start: seq<Entry>) returns (entries: seq<Entry>)
    ensures entries == WithViolations(os, checks, start)
  {
    hide ViolationEntry, OverBudget;
    entries := start;
    for i := 0 to |checks|
      invariant entries == WithViolations(os, checks[..i], start)
    {
      assert checks[..i + 1][..i] == checks[..i];
      if OverBudget(os, checks[i]) && !Listed(entries, checks[i].title) {
        entries := entries + [ViolationEntry(os, checks[i])];
      }
    }
    assert checks[..|checks|] == checks;
  }

  /** One adapter's turn in the loop over results: nothing while it warms up, else the stages over its checks. */
  method ReportTurn(os: Records, m: string -> real) returns (entries: seq<Entry>)
    ensures entries == TurnEntries(os, m)
  {
    hide Emitted, WarmingUp, BuildChecks;
    if WarmingUp(os.history("collections_p95"), m("collections")) { return []; }
    entries := ReportAdapter(os, BuildChecks(m));
  }

  /** The stages of a turn. */
  method ReportAdapter(os: Records, checks: seq<Check>) returns (entries: seq<Entry>)
    ensures entries == Emitted(os, checks)
  {
    hide *;
    entries := EmitBaselineAlerts(os, checks);
    var ratios := EmitRatios(os);
    var trends := BuildAdapterTrends(os, checks);
    ghost var built := Collect((c: Check) => TrendOf(os, c), checks);
    ghost var marked := Map((t: Trend) => AfterFlapping(os, t), built);
    ghost var done := Map((t: Trend) => AfterForecast(os, t), marked);
    var alerts := MarkFlapping(os, checks, trends, built);
    AddForecasts(os, trends, marked);
    var regressions := EmitRegressions(checks, trends, done);
    var improvements := EmitImprovements(checks, trends, done);
    entries := EmitBudgetViolations(os, checks, entries + ratios + alerts + regressions + improvements);
    StagesCompose(os, built);
    BeforeBudgetsIs(os, checks);
    EmittedIs(os, checks);
  }

  lemma StagesCompose(os: Records, built: seq<Trend>)
    ensures Map((t: Trend) => AfterForecast(os, t), Map((t: Trend) => AfterFlapping(os, t), built)) ==
            Map((t: Trend) => Finished(os, t), built)
  {
    hide AfterForecast, AfterFlapping;
  }

  lemma EmittedIs(os: Records, checks: seq<Check>)
    ensures Emitted(os, checks) == WithViolations(os, checks, BeforeBudgets(os, checks))
  {
  }

  lemma BeforeBudgetsIs(os: Records, checks: seq<Check>)
    ensures var built := Collect((c: Check) => TrendOf(os, c), checks);
            var done := Map((t: Trend) => Finished(os, t), built);
            BeforeBudgets(os, checks) ==
            Collect((c: Check) => BaselineAlert(os, c), checks)
            + Collect(RatioEntry, os.ratios)
            + Collect((t: Trend) => FlappingAlert(os, checks, t), built)
            + Collect((t: Trend) => RegressionEntry(checks, t), done)
            + Collect((t: Trend) => ImprovementEntry(checks, t), done)
  {
  }

  // ------------------------------------------------------------------
  // Stages agree
  // ------------------------------------------------------------------

  /** A trend gives at most one entry; a flapping one gives its alert and nothing else. */
  lemma OneEntryEach(os: Records, checks: seq<Check>, c: Check)
    requires TrendOf(os, c).Some?
    ensures var t := TrendOf(os, c).value;
            var done := Finished(os, t);
            && (FlappingAlert(os, checks, t).Some? <==> Flaps(os.history(t.metric)))
            && (RegressionEntry(checks, done).Some? <==>
               !Flaps(os.history(t.metric)) && t.direction in {Degrading, Critical})
            && (ImprovementEntry(checks, done).Some? <==>
                !Flaps(os.history(t.metric)) && t.direction in {Stable, Improving} &&
                    ChangePct(t.current, t.baseline) < -20.0)
  {
  }

  lemma DirectionOfSlope(os: Records, c: Check)
    requires TrendOf(os, c).Some?
    ensures TrendOf(os, c).value.direction != Direction.Flapping
    ensures OverBudget(os, c) ==> TrendOf(os, c).value.direction != Degrading
  {
    hide LinearRegression, Variance, MeanOf;
  }

  /** A breach is forecast only for a trend whose values have been falling over time. */
  lemma ForecastOnlyWhenFalling(os: Records, c: Check, oldestFirst: seq<real>)
    requires TrendOf(os, c).Some? && os.history(c.histKey) == Reverse(oldestFirst)
    ensures Finished(os, TrendOf(os, c).value).forecastRuns.Some? ==> LinearRegression(oldestFirst).slope < 0.0
  {
    hide LinearRegression, Variance, MeanOf, ComputeTrendSlope, SampleOf, Flaps, ComputeBudgetForecast;
    ReversedSlope(oldestFirst);
  }

  /** Severity and forecast of a trend's entry were computed by different stages and agree. */
  lemma SeverityMatchesForecast(os: Records, checks: seq<Check>, c: Check)
    ensures TrendOf(os, c).Some? && Metric(c) == c.key ==>
              var e := RegressionEntry(checks, Finished(os, TrendOf(os, c).value));
              e.Some? ==> (e.value.severity == Severe <==>
                  e.value.forecastRuns.Some? && e.value.forecastRuns.value <= 5)
  {
  }

  // ------------------------------------------------------------------
  // The report's three lists
  // ------------------------------------------------------------------

  function Regressions(entries: seq<Entry>): seq<Entry> {
    Filter((e: Entry) => !e.isImprovement && !e.isFlapping, entries)
  }

  function Improvements(entries: seq<Entry>): seq<Entry> {
    Filter((e: Entry) => e.isImprovement, entries)
  }

  function FlappingAlerts(entries: seq<Entry>): seq<Entry> {
    Filter((e: Entry) => e.isFlapping, entries)
  }

  lemma {:induction false} WithViolationsMember(os: Records, checks: seq<Check>, start: seq<Entry>, e: Entry)
    requires e in WithViolations(os, checks, start)
    ensures e in start || exists c :: c in checks && OverBudget(os, c) && e == ViolationEntry(os, c)
  {
    hide ViolationEntry, OverBudget, Listed;
    if checks != [] {
      var n := |checks| - 1;
      assert checks == checks[..n] + [checks[n]];
      if e in WithViolations(os, checks[..n], start) { WithViolationsMember(os, checks[..n], start, e); }
    }
  }

  /** No entry is in two of the lists. */
  lemma NeverBoth(os: Records, checks: seq<Check>, e: Entry)
    requires e in Emitted(os, checks)
    ensures !(e.isImprovement && e.isFlapping)
  {
    hide Collect, TrendOf, Finished, Flaps, FindTitle, ChangePct, MeanOf, WithViolations, OverBudget;
    var built := Collect((c: Check) => TrendOf(os, c), checks);
    var done := Map((t: Trend) => Finished(os, t), built);
    var b, f, r, i := (c: Check) => BaselineAlert(os, c), (t: Trend) => FlappingAlert(os, checks, t),
        (t: Trend) => RegressionEntry(checks, t), (t: Trend) => ImprovementEntry(checks, t);
    WithViolationsMember(os, checks, BeforeBudgets(os, checks), e);
    CollectMember(b, checks, e);
    CollectMember(RatioEntry, os.ratios, e);
    CollectMember(f, built, e);
    CollectMember(r, done, e);
    CollectMember(i, done, e);
  }

  lemma {:induction false} FilterSplit(entries: seq<Entry>)
    requires forall e :: e in entries ==> !(e.isImprovement && e.isFlapping)
    ensures multiset(entries) ==
            multiset(Regressions(entries)) + multiset(Improvements(entries)) + multiset(FlappingAlerts(entries))
  {
    hide Regressions, Improvements, FlappingAlerts;
    NothingToSplit();
    if entries != [] {
      var e, rest := entries[0], entries[1..];
      assert entries == [e] + rest && e in entries;
      FilterSplit(rest);
      SplitStep(e, rest);
    }
  }

  lemma NothingToSplit()
    ensures Regressions([]) == [] && Improvements([]) == [] && FlappingAlerts([]) == []
  {
  }

  lemma SplitStep(e: Entry, rest: seq<Entry>)
    ensures Regressions([e] + rest) == (if !e.isImprovement && !e.isFlapping then [e] else []) + Regressions(rest)
    ensures Improvements([e] + rest) == (if e.isImprovement then [e] else []) + Improvements(rest)
    ensures FlappingAlerts([e] + rest) == (if e.isFlapping then [e] else []) + FlappingAlerts(rest)
  {
  }

  /** The three lists of the report share out the entries: none is lost, none is shown twice. */
  lemma ReportIsPartition(os: Records, checks: seq<Check>)
    ensures var entries := Emitted(os, checks);
            multiset(entries) ==
                multiset(Regressions(entries)) + multiset(Improvements(entries)) + multiset(FlappingAlerts(entries))
  {
    hide Emitted, Regressions, Improvements, FlappingAlerts;
    forall e | e in Emitted(os, checks) ensures !(e.isImprovement && e.isFlapping) { NeverBoth(os, checks, e); }
    FilterSplit(Emitted(os, checks));
  }

  // ------------------------------------------------------------------
  // Which budget violations are reported
  // ------------------------------------------------------------------

  /** Titles name one check each and no ratio, and a trend's metric leads back to its check. */
  ghost predicate Registry(checks: seq<Check>) {
    && (forall i, j :: 0 <= i < j < |checks| ==> checks[i].title != checks[j].title)
    && (forall c <- checks :: FindTitle(checks, Metric(c)) == c.title)
    && (forall c <- checks, metric: string :: c.title != metric + RATIO_SUFFIX)
  }

  lemma SameCheck(checks: seq<Check>, c: Check, d: Check)
    requires Registry(checks) && c in checks && d in checks && c.title == d.title
    ensures c == d
  {
  }

  /** The entry a check itself leads to, stage by stage. */
  ghost predicate Own(os: Records, checks: seq<Check>, c: Check, e: Entry) {
    || BaselineAlert(os, c) == Some(e)
    || (TrendOf(os, c).Some? && OfTrend(os, checks, TrendOf(os, c).value, e))
  }

  ghost predicate OfTrend(os: Records, checks: seq<Check>, t: Trend, e: Entry) {
    || FlappingAlert(os, checks, t) == Some(e)
    || RegressionEntry(checks, Finished(os, t)) == Some(e)
    || ImprovementEntry(checks, Finished(os, t)) == Some(e)
  }

  lemma FinishedMember(os: Records, built: seq<Trend>, f: Trend -> Option<Entry>, e: Entry)
    ensures e in Collect(f, Map((t: Trend) => Finished(os, t), built)) <==>
            exists t :: t in built && f(Finished(os, t)) == Some(e)
  {
    hide Finished, Collect;
    var done := Map((t: Trend) => Finished(os, t), built);
    CollectMember(f, done, e);
    if t :| t in built && f(Finished(os, t)) == Some(e) {
      var i :| 0 <= i < |built| && built[i] == t;
      assert done[i] == Finished(os, t);
    }
    if d :| d in done && f(d) == Some(e) {
      var i :| 0 <= i < |done| && done[i] == d;
      assert built[i] in built;
    }
  }

  lemma BuiltMember(os: Records, checks: seq<Check>, t: Trend)
    ensures t in Collect((c: Check) => TrendOf(os, c), checks) <==> exists c :: c in checks && TrendOf(os, c) == Some(t)
  {
    hide TrendOf, Collect;
    CollectMember((c: Check) => TrendOf(os, c), checks, t);
  }

  ghost predicate OfRatio(os: Records, e: Entry) {
    exists r :: r in os.ratios && RatioEntry(r) == Some(e)
  }

  lemma BeforeBudgetsMember(os: Records, checks: seq<Check>, e: Entry)
    ensures e in BeforeBudgets(os, checks) <==> OfRatio(os, e) || exists c :: c in checks && Own(os, checks, c, e)
  {
    hide TrendOf, Collect, BaselineAlert, RatioEntry, FlappingAlert, RegressionEntry, ImprovementEntry, Finished, Map;
    var built := Collect((c: Check) => TrendOf(os, c), checks);
    CollectMember((c: Check) => BaselineAlert(os, c), checks, e);
    CollectMember(RatioEntry, os.ratios, e);
    CollectMember((t: Trend) => FlappingAlert(os, checks, t), built, e);
    FinishedMember(os, built, (t: Trend) => RegressionEntry(checks, t), e);
    FinishedMember(os, built, (t: Trend) => ImprovementEntry(checks, t), e);
    forall t
      ensures t in built <==> exists c :: c in checks && TrendOf(os, c) == Some(t)
    {
      BuiltMember(os, checks, t);
    }
  }

  lemma RatioTitle(os: Records, checks: seq<Check>, c: Check, e: Entry)
    requires Registry(checks) && c in checks && OfRatio(os, e)
    ensures e.title != c.title
  {
    hide FindTitle, Metric, ChangePct;
  }

  lemma RatioSeverity(os: Records, e: Entry)
    requires OfRatio(os, e)
    ensures e.severity == Warn && e.forecastRuns.None?
  {
    hide ChangePct;
  }

  lemma OwnTitle(os: Records, checks: seq<Check>, c: Check, e: Entry)
    requires Registry(checks) && c in checks && Own(os, checks, c, e)
    ensures e.title == c.title
  {
    hide FindTitle, MeanOf, LinearRegression, ComputeTrendSlope, ComputeBudgetForecast, Flaps, ChangePct, Abs;
  }

  /** Before the budget stage, the entries under a check's title are its own. */
  lemma TitledEntries(os: Records, checks: seq<Check>, c: Check, e: Entry)
    requires Registry(checks) && c in checks
    ensures e in BeforeBudgets(os, checks) && e.title == c.title <==> Own(os, checks, c, e)
  {
    hide Registry, BeforeBudgets, Own, RatioEntry;
    BeforeBudgetsMember(os, checks, e);
    if OfRatio(os, e) { RatioTitle(os, checks, c, e); }
    if Own(os, checks, c, e) { OwnTitle(os, checks, c, e); }
    if e in BeforeBudgets(os, checks) && e.title == c.title {
      assert !OfRatio(os, e);
      var d :| d in checks && Own(os, checks, d, e);
      OwnTitle(os, checks, d, e);
      SameCheck(checks, c, d);
    }
  }

  ghost predicate DistinctTitles(checks: seq<Check>) {
    forall i, j :: 0 <= i < j < |checks| ==> checks[i].title != checks[j].title
  }

  lemma InitTitles(checks: seq<Check>, n: nat)
    requires DistinctTitles(checks) && n + 1 == |checks|
    ensures DistinctTitles(checks[..n]) && forall c :: c in checks[..n] ==> c.title != checks[n].title
  {
  }

  ghost predicate Added(os: Records, checks: seq<Check>, start: seq<Entry>, e: Entry) {
    exists c :: c in checks && OverBudget(os, c) && !Listed(start, c.title) && e == ViolationEntry(os, c)
  }

  lemma {:induction false} ViolationsAdded(os: Records, checks: seq<Check>, start: seq<Entry>, e: Entry)
    requires DistinctTitles(checks)
    ensures e in WithViolations(os, checks, start) <==> e in start || Added(os, checks, start, e)
  {
    hide DistinctTitles, OverBudget, Listed, ViolationEntry;
    if checks != [] {
      var n := |checks| - 1;
      InitTitles(checks, n);
      assert checks == checks[..n] + [checks[n]];
      ViolationsAdded(os, checks[..n], start, e);
      StillListed(os, checks[..n], start, checks[n].title);
    }
  }

  lemma StillListed(os: Records, checks: seq<Check>, start: seq<Entry>, title: string)
    requires DistinctTitles(checks) && forall c :: c in checks ==> c.title != title
    ensures Listed(WithViolations(os, checks, start), title) <==> Listed(start, title)
  {
  }

  // ------------------------------------------------------------------
  // Which checks over budget are reported as such
  // ------------------------------------------------------------------

  /** Some entry says that the check is severe. */
  ghost predicate Reported(entries: seq<Entry>, c: Check) {
    exists e :: e in entries && e.title == c.title && e.severity == Severe
  }

  /** Some entry of the check, of whatever severity, is in the report's `regressions`. */
  ghost predicate AmongRegressions(entries: seq<Entry>, c: Check) {
    exists e :: e in entries && e.title == c.title && !e.isImprovement && !e.isFlapping
  }

  /** A violation of its budget is hidden by an alert that the metric flaps, or by one that it improved. */
  ghost predicate Hidden(os: Records, c: Check) {
    && TrendOf(os, c).Some?
    && var t := TrendOf(os, c).value;
    && (Flaps(os.history(t.metric)) || (t.direction != Critical && ChangePct(t.current, t.baseline) < -20.0))
  }

  lemma RegistryTitles(checks: seq<Check>)
    requires Registry(checks)
    ensures DistinctTitles(checks)
  {
    hide FindTitle, Metric;
  }

  lemma AddedTitle(os: Records, checks: seq<Check>, start: seq<Entry>, c: Check, e: Entry)
    requires Registry(checks) && c in checks
    ensures Added(os, checks, start, e) && e.title == c.title <==>
            OverBudget(os, c) && !Listed(start, c.title) && e == ViolationEntry(os, c)
  {
    hide Registry, OverBudget, Listed;
    if Added(os, checks, start, e) && e.title == c.title {
      var d :| d in checks && OverBudget(os, d) && !Listed(start, d.title) && e == ViolationEntry(os, d);
      SameCheck(checks, c, d);
    }
  }

  /** The entries under a check's title are those the check itself leads to, and the violation of its budget when
      there are none. */
  lemma EmittedTitled(os: Records, checks: seq<Check>, c: Check, e: Entry)
    requires Registry(checks) && c in checks
    ensures e in Emitted(os, checks) && e.title == c.title <==>
            || Own(os, checks, c, e)
            || (OverBudget(os, c) && e == ViolationEntry(os, c) && !exists x :: Own(os, checks, c, x))
  {
    hide Registry, BeforeBudgets, Own, WithViolations, OverBudget, Added;
    var start := BeforeBudgets(os, checks);
    RegistryTitles(checks);
    ViolationsAdded(os, checks, start, e);
    AddedTitle(os, checks, start, c, e);
    forall x ensures x in start && x.title == c.title <==> Own(os, checks, c, x) { TitledEntries(os, checks, c, x); }
  }

  lemma OwnEntries(os: Records, checks: seq<Check>, c: Check)
    requires OverBudget(os, c) && TrendOf(os, c).Some?
    ensures Hidden(os, c) ==>
              && (exists e :: Own(os, checks, c, e))
              && (forall e :: Own(os, checks, c, e) ==> e.severity != Severe && (e.isImprovement || e.isFlapping))
    ensures !Hidden(os, c) ==>
              forall e :: Own(os, checks, c, e) ==> e.severity == Severe && !e.isImprovement && !e.isFlapping
  {
    hide Flaps, FindTitle, ChangePct, ComputeBudgetForecast, LinearRegression, MeanOf, ComputeTrendSlope, Abs, Finished,
         SampleOf;
    var t := TrendOf(os, c).value;
    OneEntryEach(os, checks, c);
    DirectionOfSlope(os, c);
    FinishedDirection(os, t);
    assert BaselineAlert(os, c).None?;
    if FlappingAlert(os, checks, t).Some? { assert Own(os, checks, c, FlappingAlert(os, checks, t).value); }
    if ImprovementEntry(checks, Finished(os, t)).Some? {
      assert Own(os, checks, c, ImprovementEntry(checks, Finished(os, t)).value);
    }
  }

  lemma FinishedDirection(os: Records, t: Trend)
    ensures !Flaps(os.history(t.metric)) ==> Finished(os, t).direction == t.direction
  {
    hide Flaps, ComputeBudgetForecast;
  }

  lemma OwnWithoutTrend(os: Records, checks: seq<Check>, c: Check)
    requires TrendOf(os, c).None?
    ensures !Hidden(os, c) && forall e :: Own(os, checks, c, e) <==> BaselineAlert(os, c) == Some(e)
  {
    hide TrendOf, BaselineAlert;
  }

  lemma BaselineIsInfo(os: Records, c: Check)
    ensures var alert := BaselineAlert(os, c);
            alert.Some? ==>
              && TrendOf(os, c).None? && alert.value.severity == Info
              && !alert.value.isImprovement && !alert.value.isFlapping
  {
    hide MeanOf, ChangePct, Abs, SampleOf, ComputeTrendSlope, LinearRegression;
  }

  /** A check over its budget is reported as severe exactly when none of three other alerts stands under its title: that
      its metric flaps, that it improved by more than 20%, or that its history is still too short. */
  lemma OverBudgetEmitted(os: Records, checks: seq<Check>, c: Check)
    requires Registry(checks) && c in checks && OverBudget(os, c)
    ensures Reported(Emitted(os, checks), c) <==> !Hidden(os, c) && BaselineAlert(os, c).None?
    ensures AmongRegressions(Emitted(os, checks), c) <==> !Hidden(os, c)
  {
    hide Registry, Own, OverBudget, Hidden, TrendOf, Emitted, BaselineAlert;
    forall e
      ensures e in Emitted(os, checks) && e.title == c.title <==>
              Own(os, checks, c, e) || (e == ViolationEntry(os, c) && !exists x :: Own(os, checks, c, x))
    {
      EmittedTitled(os, checks, c, e);
    }
    BaselineIsInfo(os, c);
    if TrendOf(os, c).Some? { OwnEntries(os, checks, c); } else { OwnWithoutTrend(os, checks, c); }
    if !exists e :: Own(os, checks, c, e) {
      assert ViolationEntry(os, c) in Emitted(os, checks);
    }
  }

  /** Of the program's own checks, over a whole turn: besides these alerts, warming up hides a violation. */
  lemma OverBudgetReported(os: Records, m: string -> real, c: Check)
    requires c in BuildChecks(m) && OverBudget(os, c)
    ensures Reported(TurnEntries(os, m), c) <==>
            !WarmingUp(os.history("collections_p95"), m("collections")) && !Hidden(os, c) && BaselineAlert(os, c).None?
  {
    hide Registry, OverBudget, Emitted, Hidden, BaselineAlert, BuildChecks, WarmingUp;
    OwnChecks(m);
    OverBudgetEmitted(os, BuildChecks(m), c);
  }

  lemma OwnSeverity(os: Records, checks: seq<Check>, c: Check, e: Entry)
    requires Own(os, checks, c, e) && Metric(c) == c.key
    ensures e.severity == Severe ==> e.forecastRuns.Some? && e.forecastRuns.value <= 5
    ensures e.forecastRuns.Some? && e.severity != Severe ==> e.forecastRuns.value > 5
  {
    hide Flaps, FindTitle, ChangePct, ComputeBudgetForecast, LinearRegression, MeanOf, ComputeTrendSlope, Abs,
         Finished, TrendOf;
    SeverityMatchesForecast(os, checks, c);
  }

  /** Over everything one adapter emits: an entry is severe only when its forecast names one of the next five runs or
      when it is a violation of a budget, and a forecast within five runs makes it severe. */
  lemma EmittedSeverity(os: Records, checks: seq<Check>, e: Entry)
    requires e in Emitted(os, checks) && forall c <- checks :: Metric(c) == c.key
    ensures e.severity == Severe ==>
              || (e.forecastRuns.Some? && e.forecastRuns.value <= 5)
              || exists c :: c in checks && OverBudget(os, c) && e == ViolationEntry(os, c)
    ensures e.forecastRuns.Some? ==> (e.severity == Severe <==> e.forecastRuns.value <= 5)
  {
    hide BeforeBudgets, Own, WithViolations, OverBudget;
    WithViolationsMember(os, checks, BeforeBudgets(os, checks), e);
    if e in BeforeBudgets(os, checks) {
      BeforeBudgetsMember(os, checks, e);
      if OfRatio(os, e) { RatioSeverity(os, e); } else {
        var c :| c in checks && Own(os, checks, c, e);
        OwnSeverity(os, checks, c, e);
      }
    }
  }

  // ------------------------------------------------------------------
  // The program's own checks
  // ------------------------------------------------------------------

  lemma {:induction false} TitleAt(checks: seq<Check>, i: nat, metric: string)
    requires i < |checks| && checks[i].key == metric && checks[i].trendMetric == metric && checks[i].title != ""
    requires forall j :: 0 <= j < i ==> checks[j].key != metric && checks[j].trendMetric != metric
    ensures FindTitle(checks, metric) == checks[i].title
  {
    if i > 0 {
      assert checks[0].key != metric;
      assert forall j :: 0 <= j < i - 1 ==> checks[1..][j] == checks[j + 1];
      TitleAt(checks[1..], i - 1, metric);
    }
  }

  ghost predicate DistinctKeys(checks: seq<Check>) {
    && (forall c <- checks :: c.trendMetric == c.key && c.key != "")
    && (forall i, j :: 0 <= i < j < |checks| ==> checks[i].key != checks[j].key)
  }

  /** No title ends as that of a ratio does. */
  predicate NoRatioTitle(title: string) { title != "" && title[|title| - 1] != ')' }

  lemma NotARatio(title: string, metric: string)
    requires NoRatioTitle(title)
    ensures title != metric + RATIO_SUFFIX
  {
    assert |RATIO_SUFFIX| == 18 && (metric + RATIO_SUFFIX)[|metric| + 17] == ')';
  }

  lemma DistinctKeysRegister(checks: seq<Check>)
    requires DistinctKeys(checks) && DistinctTitles(checks) && forall c <- checks :: NoRatioTitle(c.title)
    ensures Registry(checks)
  {
    hide FindTitle;
    forall c <- checks ensures FindTitle(checks, Metric(c)) == c.title {
      var i :| 0 <= i < |checks| && checks[i] == c;
      forall j | 0 <= j < i
        ensures checks[j].key != c.key && checks[j].trendMetric != c.key
      {
        assert checks[j] in checks;
      }
      TitleAt(checks, i, c.key);
    }
    forall c <- checks, metric: string ensures c.title != metric + RATIO_SUFFIX { NotARatio(c.title, metric); }
  }

  /** The seven checks of the program: each title and metric leads to one check, budgets are looked up under one key,
      and none of them keeps its history under its metric. */
  lemma OwnChecks(m: string -> real)
    ensures Registry(BuildChecks(m))
    ensures forall c <- BuildChecks(m) :: Metric(c) == c.key && Metric(c) != c.histKey
  {
    hide Registry;
    KeysApart(m);
    TitlesApart(m);
    TitlesEnd(m);
    DistinctKeysRegister(BuildChecks(m));
  }

  const KEYS := ["collections", "graphqlAvg", "hooks", "memGrowth", "indexPressure", "dbRaw", "mixedAvg"]
  const TITLES := ["REST/Collections p95", "GraphQL Avg", "Hooks/Middleware", "Memory Growth", "Index Pressure",
                   "DB Raw p95",
                   "Mixed Workload"]

  /** Enough to tell the words apart. */
  function Print(word: string): int {
    if word == "" then 0 else |word| * 1000 + word[0] as int
  }

  ghost predicate Prints(words: seq<string>, prints: seq<int>) {
    |words| == |prints| && forall i :: 0 <= i < |words| ==> Print(words[i]) == prints[i]
  }

  predicate Apart(prints: seq<int>) {
    forall i, j :: 0 <= i < j < |prints| ==> prints[i] != prints[j]
  }

  lemma KeyPrints()
    ensures Prints(KEYS, [11099, 10103, 5104, 9109, 13105, 5100, 8109])
  {
  }

  lemma TitlePrints()
    ensures Prints(TITLES, [20082, 11071, 16072, 13077, 14073, 10068, 14077])
  {
  }

  lemma PrintsApart()
    ensures Apart([11099, 10103, 5104, 9109, 13105, 5100, 8109]) &&
            Apart([20082, 11071, 16072, 13077, 14073, 10068, 14077])
  {
  }

  lemma WordsApart(words: seq<string>, prints: seq<int>)
    requires Prints(words, prints) && Apart(prints)
    ensures Distinct(words)
  {
    hide Print;
  }

  lemma ChecksByList(m: string -> real)
    ensures var checks := BuildChecks(m);
            |checks| == |KEYS| == |TITLES| && forall i :: 0 <= i < |checks| ==>
                checks[i].key == KEYS[i] && checks[i].title == TITLES[i]
  {
  }

  lemma TrendMetrics(m: string -> real)
    ensures forall c <- BuildChecks(m) :: c.trendMetric == c.key && c.key != ""
  {
  }

  lemma KeysApart(m: string -> real)
    ensures DistinctKeys(BuildChecks(m))
  {
    hide BuildChecks, KEYS, TITLES, Prints, Apart;
    KeyPrints();
    PrintsApart();
    WordsApart(KEYS, [11099, 10103, 5104, 9109, 13105, 5100, 8109]);
    ChecksByList(m);
    TrendMetrics(m);
  }

  lemma TitlesApart(m: string -> real)
    ensures DistinctTitles(BuildChecks(m))
  {
    hide BuildChecks, KEYS, TITLES, Prints, Apart;
    TitlePrints();
    PrintsApart();
    WordsApart(TITLES, [20082, 11071, 16072, 13077, 14073, 10068, 14077]);
    ChecksByList(m);
  }

  lemma TitlesEnd(m: string -> real)
    ensures forall c <- BuildChecks(m) :: NoRatioTitle(c.title)
  {
  }

  // ------------------------------------------------------------------
  // Flapping is judged on another series
  // ------------------------------------------------------------------

  /** A steady history under one key and one that goes up and down under another. */
  function Mixed(budget: real, steady: real, flapping: string): Records {
    Records(_ => budget, key => if key == flapping then [1.0, 3.0, 1.0, 3.0] else [steady, steady, steady], [])
  }

  /** The verdict on a metric is the verdict on its own history exactly when the two are stored under one name. */
  lemma FlappingOfOwnHistoryIff(c: Check)
    ensures (forall os: Records :: Flaps(os.history(Metric(c))) <==> Flaps(os.history(c.histKey))) <==>
            Metric(c) == c.histKey
  {
    hide Flaps;
    if Metric(c) != c.histKey {
      FlappingSeries();
      var os := Mixed(100.0, 50.0, Metric(c));
      assert Flaps(os.history(Metric(c))) && !Flaps(os.history(c.histKey));
    }
  }

  /** For every check of the program a steady trend can be marked as flapping. */
  lemma SteadyMarkedFlapping(m: string -> real, c: Check)
    requires c in BuildChecks(m) && c.value > 0.0
    ensures var os := Mixed(100.0, 50.0, Metric(c));
            && TrendOf(os, c).Some? && !Flaps(os.history(c.histKey))
            && AfterFlapping(os, TrendOf(os, c).value).direction == Direction.Flapping
  {
    hide Flaps, BuildChecks, ComputeTrendSlope, LinearRegression, MeanOf;
    OwnChecks(m);
    FlappingSeries();
  }

  // ------------------------------------------------------------------
  // Hidden violations
  // ------------------------------------------------------------------

  function OnlyHooks(value: real): string -> real { key => if key == "hooks" then value else 0.0 }

  function OnlyCollections(value: real): string -> real { key => if key == "collections" then value else 0.0 }

  lemma SteadyTrend(os: Records, c: Check, x: real)
    requires c.value > 0.0 && x > 0.0 && os.history(c.histKey) == [x, x, x]
    ensures var t := TrendOf(os, c);
            && t.Some? && t.value.metric == Metric(c) && t.value.current == c.value && t.value.baseline == x
            && t.value.slope == 0.0 && t.value.direction == Stable
  {
    hide LinearRegression, Variance, MeanOf, SampleOf;
    ThreeValues(x, x, x);
  }

  /** Hooks at 200 with a budget of 100 and a history of 300: twice the budget, and reported as an improvement only. */
  lemma HiddenByImprovement()
    ensures var (m, os) := (OnlyHooks(200.0), Mixed(100.0, 300.0, "unused"));
            var c := BuildChecks(m)[2];
            && OverBudget(os, c) && Hidden(os, c)
            && !AmongRegressions(TurnEntries(os, m), c) && !Reported(TurnEntries(os, m), c)
  {
    hide Registry, Reported, AmongRegressions, Flaps, Emitted, BuildChecks, MeanOf, SampleOf, TrendOf;
    var (m, os) := (OnlyHooks(200.0), Mixed(100.0, 300.0, "unused"));
    OwnChecks(m);
    HooksCheck(m);
    HooksHistory("unused");
    SteadyTrend(os, BuildChecks(m)[2], 300.0);
    OverBudgetEmitted(os, BuildChecks(m), BuildChecks(m)[2]);
    NothingListed(BuildChecks(m)[2]);
  }

  /** The same with a steady history of 150, hidden by the alert that another series flaps. */
  lemma HiddenByFlapping()
    ensures var (m, os) := (OnlyHooks(200.0), Mixed(100.0, 150.0, "hooks"));
            var c := BuildChecks(m)[2];
            && OverBudget(os, c) && Hidden(os, c)
            && !AmongRegressions(TurnEntries(os, m), c) && !Reported(TurnEntries(os, m), c)
  {
    hide Registry, Reported, AmongRegressions, Flaps, Emitted, BuildChecks, MeanOf, SampleOf, TrendOf;
    var (m, os) := (OnlyHooks(200.0), Mixed(100.0, 150.0, "hooks"));
    OwnChecks(m);
    HooksCheck(m);
    HooksHistory("hooks");
    FlappingSeries();
    SteadyTrend(os, BuildChecks(m)[2], 150.0);
    OverBudgetEmitted(os, BuildChecks(m), BuildChecks(m)[2]);
    NothingListed(BuildChecks(m)[2]);
  }

  /** One stored run of hooks, all others steady. */
  function FirstRun(budget: real, only: real): Records {
    Records(_ => budget, key => if key == "middleware_hooks_p95" then [only] else [1.0, 1.0, 1.0], [])
  }

  /** Hooks at 200 with a budget of 100 after a single run of 300: all that is said of them is that they are no
      regression. */
  lemma HiddenByBaseline()
    ensures var (m, os) := (OnlyHooks(200.0), FirstRun(100.0, 300.0));
            var (c, entries) := (BuildChecks(m)[2], TurnEntries(os, m));
            && OverBudget(os, c) && !Hidden(os, c) && !Reported(entries, c)
            && (exists e :: e in entries && e.title == c.title)
            && (forall e :: e in entries && e.title == c.title ==> e.severity == Info && !e.isRegression)
  {
    hide Registry, Emitted, BuildChecks, TrendOf, Own, Hidden, WarmingUp, BaselineAlert;
    var (m, os) := (OnlyHooks(200.0), FirstRun(100.0, 300.0));
    HooksCheck(m);
    var c := BuildChecks(m)[2];
    FirstRunTurn();
    OwnChecks(m);
    FirstRunAlert(os, c);
    OwnWithoutTrend(os, BuildChecks(m), c);
    forall e ensures e in Emitted(os, BuildChecks(m)) && e.title == c.title <==> BaselineAlert(os, c) == Some(e) {
      EmittedTitled(os, BuildChecks(m), c, e);
    }
    NothingListed(c);
  }

  lemma FirstRunTurn()
    ensures var (m, os) := (OnlyHooks(200.0), FirstRun(100.0, 300.0));
            && m("hooks") == 200.0 && os.history("middleware_hooks_p95") == [300.0]
            && !WarmingUp(os.history("collections_p95"), m("collections"))
  {
    hide MeanOf;
    assert |"collections_p95"| == 15 && |"middleware_hooks_p95"| == 20 && |"collections"| == 11 && |"hooks"| == 5;
    ThreeValues(1.0, 1.0, 1.0);
  }

  lemma FirstRunAlert(os: Records, c: Check)
    requires c.value == 200.0 && os.history(c.histKey) == [300.0]
    ensures TrendOf(os, c).None? && BaselineAlert(os, c).Some?
    ensures BaselineAlert(os, c).value.severity == Info && !BaselineAlert(os, c).value.isRegression
  {
    assert SumsOf([300.0], 1) == Push(SumsOf([300.0], 0), 0.0, 300.0);
  }

  /** Collections at 200 with a budget of 100 and a history of 100: the slower they are, the surer the adapter is taken
      to be warming up, and nothing is said of it at all. */
  lemma HiddenByWarmUp()
    ensures var (m, os) := (OnlyCollections(200.0), Mixed(100.0, 100.0, "unused"));
            OverBudget(os, BuildChecks(m)[0]) && !Hidden(os, BuildChecks(m)[0]) && TurnEntries(os, m) == []
  {
    hide Flaps, Emitted, TrendOf, MeanOf;
    var (m, os) := (OnlyCollections(200.0), Mixed(100.0, 100.0, "unused"));
    CollectionsHistory();
    SteadyTrend(os, BuildChecks(m)[0], 100.0);
    FlappingSeries();
    ThreeValues(100.0, 100.0, 100.0);
  }

  lemma CollectionsHistory()
    ensures "collections_p95" != "unused" && "collections" != "unused"
  {
    assert |"collections_p95"| == 15 && |"unused"| == 6 && |"collections"| == 11;
  }

  lemma HooksCheck(m: string -> real)
    ensures |BuildChecks(m)| == 7
    ensures BuildChecks(m)[2] == Check("hooks", m("hooks"), "middleware_hooks_p95", "Hooks/Middleware", "hooks")
    ensures BuildChecks(m)[2] in BuildChecks(m)
  {
  }

  lemma NothingListed(c: Check)
    ensures !Reported([], c) && !AmongRegressions([], c)
  {
  }

  lemma HooksHistory(flapping: string)
    requires flapping in {"unused", "hooks"}
    ensures flapping != "middleware_hooks_p95"
  {
    assert |flapping| < |"middleware_hooks_p95"|;
  }
}
