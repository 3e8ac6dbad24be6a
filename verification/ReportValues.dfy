/** What the report of one adapter says, in terms of the measured values and their histories. */
module ReportValues {
  import opened Options
  import opened Sequences
  import opened Regression
  import opened Trends
  import opened RegressionReport

  // ------------------------------------------------------------------
  // Percentages
  // ------------------------------------------------------------------

  /** `pct` is the change from `base` to `v` as a percentage of `base`, and 0 when `base` is not positive. */
  predicate Changed(pct: real, v: real, base: real) {
    if base > 0.0 then pct * base == (v - base) * 100.0 else pct == 0.0
  }

  lemma PercentIs(pct: real, v: real, base: real)
    requires base > 0.0
    ensures pct == (v - base) / base * 100.0 <==> pct * base == (v - base) * 100.0
  {
    var q := (v - base) / base;
    assert q * base == v - base;
    assert (q * 100.0) * base == (q * base) * 100.0;
    if pct * base == (v - base) * 100.0 { CancelFactor(base, pct, q * 100.0); }
  }

  lemma ChangeIs(pct: real, v: real, base: real)
    ensures pct == ChangePct(v, base) <==> Changed(pct, v, base)
  {
    if base > 0.0 { PercentIs(pct, v, base); }
  }

  /** A percentage beyond a bound, without the division. */
  lemma ChangeBound(v: real, base: real, bound: real)
    requires base > 0.0
    ensures ChangePct(v, base) > bound <==> 100.0 * v > (100.0 + bound) * base
    ensures ChangePct(v, base) < bound <==> 100.0 * v < (100.0 + bound) * base
  {
    var pct := ChangePct(v, base);
    ChangeIs(pct, v, base);
    ScaleLess(bound, pct, base);
    ScaleLess(pct, bound, base);
    assert (100.0 + bound) * base == 100.0 * base + bound * base;
  }

  lemma NoChange(v: real, base: real)
    requires base <= 0.0
    ensures ChangePct(v, base) == 0.0
  {
  }

  // ------------------------------------------------------------------
  // When each kind of entry is due
  // ------------------------------------------------------------------

  function History(os: Records, c: Check): seq<real> { os.history(c.histKey) }

  /** More than 15% away from the mean of one or two runs. */
  predicate ShortDue(os: Records, c: Check) {
    var h := History(os, c);
    && c.value > 0.0 && 0 < |h| < 3 && MeanOf(h) > 0.0
    && (100.0 * c.value > 115.0 * MeanOf(h) || 100.0 * c.value < 85.0 * MeanOf(h))
  }

  predicate Trending(os: Records, c: Check) {
    c.value > 0.0 && |History(os, c)| >= 3
  }

  /** The fitted line climbs by at least 0.0001 a run and explains enough of the history. */
  predicate Climbs(h: seq<real>) {
    48.0 * LinearRegression(h).r2 > |h| as real + 1.0 && LinearRegression(h).slope >= 0.0001
  }

  ghost predicate FlapDue(os: Records, c: Check) {
    Trending(os, c) && Swings(os.history(Metric(c)))
  }

  ghost predicate WorseDue(os: Records, c: Check) {
    Trending(os, c) && !Swings(os.history(Metric(c))) && Climbs(History(os, c))
  }

  /** More than 20% below the mean of the history, with no climbing trend. */
  ghost predicate BetterDue(os: Records, c: Check) {
    var h := History(os, c);
    && Trending(os, c) && !Swings(os.history(Metric(c))) && !Climbs(h)
    && MeanOf(h) > 0.0 && 5.0 * c.value < 4.0 * MeanOf(h)
  }

  predicate OverDue(os: Records, c: Check) { c.value > 0.0 && c.value > os.budget(c.key) }

  // ------------------------------------------------------------------
  // What each kind of entry says
  // ------------------------------------------------------------------

  predicate About(c: Check, base: real, e: Entry) {
    e.title == c.title && e.current == c.value && Changed(e.changePct, c.value, base)
  }

  predicate ShortSays(os: Records, c: Check, e: Entry)
    requires ShortDue(os, c)
  {
    && About(c, MeanOf(History(os, c)), e) && (e.isRegression <==> 100.0 * c.value > 115.0 * MeanOf(History(os, c)))
    && e.direction == Stable && e.severity == Info && !e.isImprovement && !e.isFlapping && e.forecastRuns == None
  }

  predicate FlapSays(os: Records, c: Check, e: Entry)
    requires Trending(os, c)
  {
    && About(c, MeanOf(History(os, c)), e) && !e.isRegression && e.direction == Direction.Flapping
    && e.severity == Warn && !e.isImprovement && e.isFlapping && e.forecastRuns == None
  }

  /** `k` is the first run from now on at which the line through `v` reaches the budget, if one of 1000 does. */
  ghost predicate Foretells(k: Option<int>, v: real, slope: real, budget: real) {
    match k
    case Some(run) =>
      && 0 <= run <= 1000 && Reaches(v, slope, budget, run)
      && forall j :: 0 <= j < run ==> !Reaches(v, slope, budget, j)
    case None => forall j :: 0 <= j <= 1000 ==> !Reaches(v, slope, budget, j)
  }

  ghost predicate WorseSays(os: Records, c: Check, e: Entry)
    requires WorseDue(os, c)
  {
    var h, slope, soon := History(os, c), LinearRegression(History(os, c)).slope,
                          c.value + LinearRegression(History(os, c)).slope * 5.0 >= os.budget(c.key);
    && About(c, MeanOf(h), e) && e.isRegression && e.direction == (if soon then Critical else Degrading)
    && e.severity == (if soon then Severe else Warn) && !e.isImprovement && !e.isFlapping
    && Foretells(e.forecastRuns, c.value, slope, os.budget(c.key))
  }

  ghost predicate BetterSays(os: Records, c: Check, e: Entry)
    requires BetterDue(os, c)
  {
    && About(c, MeanOf(History(os, c)), e) && !e.isRegression && e.direction == Improving
    && e.severity == Info && e.isImprovement && !e.isFlapping && e.forecastRuns == None
  }

  predicate OverSays(os: Records, c: Check, e: Entry) {
    var budget := os.budget(c.key);
    && e.title == c.title && e.current == c.value && e.isRegression && e.direction == Critical && e.severity == Severe
    && !e.isImprovement && !e.isFlapping && e.forecastRuns == None
    && if budget == 0.0 then e.changePct == 0.0 else e.changePct * budget == (c.value - budget) * 100.0
  }

  // ------------------------------------------------------------------
  // Kind by kind
  // ------------------------------------------------------------------

  lemma ShortAlert(os: Records, c: Check, e: Entry)
    ensures BaselineAlert(os, c) == Some(e) <==> ShortDue(os, c) && ShortSays(os, c, e)
  {
    hide MeanOf, ChangePct;
    var h := History(os, c);
    var base := if h == [] then 0.0 else MeanOf(h);
    ChangeIs(e.changePct, c.value, base);
    if base > 0.0 {
      ChangeBound(c.value, base, 15.0);
      ChangeBound(c.value, base, -15.0);
    } else {
      NoChange(c.value, base);
    }
  }

  lemma TrendIs(os: Records, c: Check)
    ensures TrendOf(os, c).Some? <==> Trending(os, c)
    ensures Trending(os, c) ==>
              var t := TrendOf(os, c).value;
              && t.metric == Metric(c) && t.current == c.value && t.baseline == MeanOf(History(os, c))
              && t.slope == LinearRegression(History(os, c)).slope && t.forecastRuns == None
              && t.direction == ComputeTrendSlope(History(os, c), c.value, os.budget(c.key))
  {
    hide MeanOf, LinearRegression, ComputeTrendSlope, SampleOf;
  }

  /** The least of two values. */
  predicate IsLess(x: real, a: real, b: real) { x <= a && x <= b && (x == a || x == b) }

  /** A trend holds what its history says: how far the values spread, how well the line fits, how many there are, and a
      confidence that stays below a bound of its direction. */
  lemma TrendHolds(os: Records, c: Check)
    requires Trending(os, c)
    ensures TrendOf(os, c).Some?
    ensures var (h, t) := (History(os, c), TrendOf(os, c).value);
            && t.sample.variance * (|h| as real - 1.0) == SquaredError(h, 0.0, MeanOf(h))
            && t.sample.r2 == LinearRegression(h).r2 && t.sample.size == |h|
            && (t.isMemory <==> c.key == "memGrowth")
            && t.metric == (if c.trendMetric != "" then c.trendMetric else c.key)
            && (t.direction in {Degrading, Critical} ==> IsLess(t.sample.confidence, t.sample.r2, 0.95))
            && (t.direction == Improving ==> IsLess(t.sample.confidence, t.sample.r2, 0.9))
            && (t.direction == Stable ==> IsLess(t.sample.confidence, t.sample.r2, 0.5))
  {
    hide LinearRegression, SquaredError, MeanOf, ComputeTrendSlope;
    VarianceIs(History(os, c));
    Quotient(SquaredError(History(os, c), 0.0, MeanOf(History(os, c))), |History(os, c)| as real - 1.0);
  }

  lemma DirectionOfTrend(os: Records, c: Check)
    requires Trending(os, c)
    ensures var (h, d) := (History(os, c), TrendOf(os, c).value.direction);
            var soon := c.value + LinearRegression(h).slope * 5.0 >= os.budget(c.key);
            && TrendOf(os, c).Some? && d != Direction.Flapping
            && (d == Critical <==> Climbs(h) && soon) && (d == Degrading <==> Climbs(h) && !soon)
  {
    hide LinearRegression, ComputeTrendSlope, TrendOf;
    TrendIs(os, c);
    DirectionByFit(History(os, c), c.value, os.budget(c.key));
  }

  lemma FlapAlert(os: Records, checks: seq<Check>, c: Check, e: Entry)
    requires FindTitle(checks, Metric(c)) == c.title && Trending(os, c)
    ensures TrendOf(os, c).Some?
    ensures FlappingAlert(os, checks, TrendOf(os, c).value) == Some(e) <==> FlapDue(os, c) && FlapSays(os, c, e)
  {
    hide MeanOf, ChangePct, LinearRegression, ComputeTrendSlope, TrendOf, Flaps, Swings, FindTitle;
    TrendIs(os, c);
    FlapsIff(os.history(Metric(c)));
    ChangeIs(e.changePct, c.value, MeanOf(History(os, c)));
  }

  lemma OneForecast(j: Option<int>, k: Option<int>, v: real, slope: real, budget: real)
    requires Foretells(j, v, slope, budget) && Foretells(k, v, slope, budget)
    ensures j == k
  {
    hide Reaches;
  }

  function RunsOf(f: Option<Forecast>): Option<int> { if f.Some? then Some(f.value.runsUntilBreach) else None }

  lemma ForecastForetells(v: real, slope: real, budget: real)
    ensures Foretells(RunsOf(ComputeBudgetForecast(v, slope, budget)), v, slope, budget)
  {
    hide Reaches, ComputeBudgetForecast;
    ForecastIsFirstBreach(v, slope, budget);
  }

  /** What the stages leave of a trend that does not flap. */
  lemma FinishedIs(os: Records, t: Trend)
    requires !Flaps(os.history(t.metric)) && t.forecastRuns == None
    ensures var done := Finished(os, t);
            && done.metric == t.metric && done.current == t.current && done.baseline == t.baseline
            && done.direction == t.direction
            && (t.direction !in {Direction.Flapping, Stable} && t.slope > 0.0 ==>
                  done.forecastRuns == RunsOf(ComputeBudgetForecast(t.current, t.slope, os.budget(t.metric))))
  {
    hide Flaps, ComputeBudgetForecast;
  }

  lemma WorseAlert(os: Records, checks: seq<Check>, c: Check, e: Entry)
    requires FindTitle(checks, Metric(c)) == c.title && Metric(c) == c.key && Trending(os, c)
    ensures TrendOf(os, c).Some?
    ensures RegressionEntry(checks, Finished(os, TrendOf(os, c).value)) == Some(e) <==>
            WorseDue(os, c) && WorseSays(os, c, e)
  {
    hide MeanOf, ChangePct, LinearRegression, ComputeTrendSlope, TrendOf, Flaps, Swings, FindTitle, Finished, Foretells,
         ComputeBudgetForecast;
    TrendIs(os, c);
    FlapsIff(os.history(Metric(c)));
    DirectionOfTrend(os, c);
    OneEntryEach(os, checks, c);
    ChangeIs(e.changePct, c.value, MeanOf(History(os, c)));
    if !Swings(os.history(Metric(c))) {
      FinishedIs(os, TrendOf(os, c).value);
      var slope := LinearRegression(History(os, c)).slope;
      ForecastForetells(c.value, slope, os.budget(c.key));
      if Foretells(e.forecastRuns, c.value, slope, os.budget(c.key)) {
        OneForecast(e.forecastRuns, RunsOf(ComputeBudgetForecast(c.value, slope, os.budget(c.key))), c.value, slope,
                    os.budget(c.key));
      }
    }
  }

  lemma BetterAlert(os: Records, checks: seq<Check>, c: Check, e: Entry)
    requires FindTitle(checks, Metric(c)) == c.title && Trending(os, c)
    ensures TrendOf(os, c).Some?
    ensures ImprovementEntry(checks, Finished(os, TrendOf(os, c).value)) == Some(e) <==>
            BetterDue(os, c) && BetterSays(os, c, e)
  {
    hide MeanOf, ChangePct, LinearRegression, ComputeTrendSlope, TrendOf, Flaps, Swings, FindTitle, Finished;
    var base := MeanOf(History(os, c));
    TrendIs(os, c);
    FlapsIff(os.history(Metric(c)));
    DirectionOfTrend(os, c);
    OneEntryEach(os, checks, c);
    ChangeIs(e.changePct, c.value, base);
    if base > 0.0 { ChangeBound(c.value, base, -20.0); } else { NoChange(c.value, base); }
    if !Swings(os.history(Metric(c))) { FinishedIs(os, TrendOf(os, c).value); }
  }

  lemma OverAlert(os: Records, c: Check, e: Entry)
    ensures OverBudget(os, c) <==> OverDue(os, c)
    ensures e == ViolationEntry(os, c) <==> OverSays(os, c, e)
  {
    var budget := os.budget(c.key);
    if budget != 0.0 { SignedPercent(e.changePct, c.value, budget); }
  }

  lemma SignedPercent(pct: real, v: real, base: real)
    requires base != 0.0
    ensures pct == (v - base) / base * 100.0 <==> pct * base == (v - base) * 100.0
  {
    var q := (v - base) / base;
    assert q * base == v - base;
    assert (q * 100.0) * base == (q * base) * 100.0;
    if pct * base == (v - base) * 100.0 {
      if base > 0.0 { CancelFactor(base, pct, q * 100.0); }
      else {
        assert (-base) * pct == (-base) * (q * 100.0);
        CancelFactor(-base, pct, q * 100.0);
      }
    }
  }

  // ------------------------------------------------------------------
  // The whole turn
  // ------------------------------------------------------------------

  ghost predicate Quiet(os: Records, c: Check) {
    !ShortDue(os, c) && !FlapDue(os, c) && !WorseDue(os, c) && !BetterDue(os, c)
  }

  /** Everything that is to be said of a check, in its values. */
  ghost predicate Due(os: Records, c: Check, e: Entry) {
    || (ShortDue(os, c) && ShortSays(os, c, e))
    || (FlapDue(os, c) && FlapSays(os, c, e))
    || (WorseDue(os, c) && WorseSays(os, c, e))
    || (BetterDue(os, c) && BetterSays(os, c, e))
  }

  lemma OwnIsDue(os: Records, checks: seq<Check>, c: Check, e: Entry)
    requires FindTitle(checks, Metric(c)) == c.title && Metric(c) == c.key
    ensures Own(os, checks, c, e) <==> Due(os, c, e)
  {
    hide TrendOf, BaselineAlert, FlappingAlert, RegressionEntry, ImprovementEntry, Finished, ShortDue, Climbs, Flaps,
         Swings, ShortSays, FlapSays, WorseSays, BetterSays, FindTitle;
    ShortAlert(os, c, e);
    TrendIs(os, c);
    if Trending(os, c) {
      FlapAlert(os, checks, c, e);
      WorseAlert(os, checks, c, e);
      BetterAlert(os, checks, c, e);
    }
  }

  /** When something is due, there is an entry that says it. */
  lemma DueSomething(os: Records, c: Check)
    requires Metric(c) == c.key
    ensures Quiet(os, c) <==> !exists e :: Due(os, c, e)
  {
    hide ShortDue, Climbs, Flaps, Swings, ComputeBudgetForecast, Foretells, MeanOf, LinearRegression, ChangePct;
    var h := History(os, c);
    if !Quiet(os, c) {
      var base := if h == [] then 0.0 else MeanOf(h);
      var pct := ChangePct(c.value, base);
      ChangeIs(pct, c.value, base);
      if ShortDue(os, c) {
        ShortHasMean(os, c);
        var over := 100.0 * c.value > 115.0 * base;
        assert Due(os, c, Entry(c.title, c.value, pct, over, Stable, Info, false, false, None));
      } else if FlapDue(os, c) {
        assert Due(os, c, Entry(c.title, c.value, pct, false, Direction.Flapping, Warn, false, true, None));
      } else if BetterDue(os, c) {
        assert Due(os, c, Entry(c.title, c.value, pct, false, Improving, Info, true, false, None));
      } else {
        var slope := LinearRegression(h).slope;
        var soon := c.value + slope * 5.0 >= os.budget(c.key);
        var k := RunsOf(ComputeBudgetForecast(c.value, slope, os.budget(c.key)));
        ForecastForetells(c.value, slope, os.budget(c.key));
        var e := Entry(c.title, c.value, pct, true, if soon then Critical else Degrading,
                       if soon then Severe else Warn, false, false, k);
        assert WorseDue(os, c) && WorseSays(os, c, e);
        assert Due(os, c, e);
      }
    }
  }

  lemma ShortHasMean(os: Records, c: Check)
    requires ShortDue(os, c)
    ensures History(os, c) != [] && MeanOf(History(os, c)) > 0.0
  {
  }

  /** Fewer than two stored runs, or more than 30% above the mean of the newest three. */
  predicate Warming(h: seq<real>, current: real) {
    || |h| < 2
    || (|h| == 2 && 20.0 * current > 13.0 * (h[0] + h[1]))
    || (|h| > 2 && 30.0 * current > 13.0 * (h[0] + h[1] + h[2]))
  }

  lemma WarmingIs(h: seq<real>, current: real)
    ensures WarmingUp(h, current) <==> Warming(h, current)
  {
    if |h| >= 2 {
      var recent := if |h| > 3 then h[..3] else h;
      MeanIsAverage(recent, MeanOf(recent));
      ShortTotal(recent);
    }
  }

  lemma ShortTotal(v: seq<real>)
    ensures |v| == 2 ==> Total(v) == v[0] + v[1]
    ensures |v| == 3 ==> Total(v) == v[0] + v[1] + v[2]
  {
    if |v| == 2 || |v| == 3 {
      assert v[..2][..1] == v[..1] && v[..1][..0] == [];
      assert Total(v[..1]) == v[0];
      assert Total(v[..2]) == v[0] + v[1];
      assert v[..|v|] == v;
    }
  }

  /** All that one adapter's turn says of a check, in terms of its value, its history and its budget: nothing while the
      adapter warms up, else what is due of it, and the violation of its budget when nothing else is. */
  lemma TurnSays(os: Records, m: string -> real, c: Check, e: Entry)
    requires c in BuildChecks(m)
    ensures e in TurnEntries(os, m) && e.title == c.title <==>
            && !Warming(os.history("collections_p95"), m("collections"))
            && (Due(os, c, e) || (Quiet(os, c) && OverDue(os, c) && OverSays(os, c, e)))
  {
    hide *;
    OwnChecks(m);
    WarmingIs(os.history("collections_p95"), m("collections"));
    TurnIs(os, m);
    OwnTitles(BuildChecks(m), c);
    EmittedTitled(os, BuildChecks(m), c, e);
    forall x ensures Own(os, BuildChecks(m), c, x) <==> Due(os, c, x) { OwnIsDue(os, BuildChecks(m), c, x); }
    DueSomething(os, c);
    OverAlert(os, c, e);
  }

  lemma TurnIs(os: Records, m: string -> real)
    ensures TurnEntries(os, m) ==
            if WarmingUp(os.history("collections_p95"), m("collections")) then [] else Emitted(os, BuildChecks(m))
  {
    hide Emitted, WarmingUp, BuildChecks;
  }

  lemma OwnTitles(checks: seq<Check>, c: Check)
    requires Registry(checks) && c in checks
    ensures FindTitle(checks, Metric(c)) == c.title
  {
    hide FindTitle, Metric;
  }

  /** An entry has the title of the first check that has the metric as its trend or its key, or the metric itself. */
  lemma {:induction false} TitleIsFirst(checks: seq<Check>, metric: string) returns (i: nat)
    ensures i <= |checks| && forall j :: 0 <= j < i ==> checks[j].trendMetric != metric && checks[j].key != metric
    ensures i < |checks| ==> metric in {checks[i].trendMetric, checks[i].key}
    ensures FindTitle(checks, metric) == if i < |checks| && checks[i].title != "" then checks[i].title else metric
  {
    if checks == [] || checks[0].trendMetric == metric || checks[0].key == metric {
      i := 0;
    } else {
      var j := TitleIsFirst(checks[1..], metric);
      assert forall k :: 0 <= k < j ==> checks[1..][k] == checks[k + 1];
      i := j + 1;
    }
  }

  /** Under which name each of the program's checks keeps its history, by its title. */
  lemma OwnHistories(m: string -> real, c: Check)
    requires c in BuildChecks(m)
    ensures c.value == m(c.key)
    ensures (c.title, c.key, c.histKey) in
            {("REST/Collections p95", "collections", "collections_p95"), ("GraphQL Avg", "graphqlAvg", "graphql_avg"),
             ("Hooks/Middleware", "hooks", "middleware_hooks_p95"), ("Memory Growth", "memGrowth", "mem_growth"),
             ("Index Pressure", "indexPressure", "index_pressure_p95"), ("DB Raw p95", "dbRaw", "adapter_read_avg"),
             ("Mixed Workload", "mixedAvg", "mixed_workload_aggregate")}
  {
  }

  // ------------------------------------------------------------------
  // Ratios
  // ------------------------------------------------------------------

  ghost predicate RatioSays(r: Ratio, e: Entry) {
    && r.latest > 0.0 && r.baseline > 0.0 && 5.0 * r.latest > 6.0 * r.baseline
    && e.title == r.metric + " (cold/warm ratio)" && e.current == r.latest && Changed(e.changePct, r.latest, r.baseline)
    && e.isRegression && e.direction == Degrading && e.severity == Warn
    && !e.isImprovement && !e.isFlapping && e.forecastRuns == None
  }

  /** A ratio is reported exactly when it is more than 20% above the earlier ones. */
  lemma RatioIff(r: Ratio, e: Entry)
    ensures RatioEntry(r) == Some(e) <==> RatioSays(r, e)
  {
    hide ChangePct;
    if r.baseline > 0.0 {
      ChangeBound(r.latest, r.baseline, 20.0);
      ChangeIs(e.changePct, r.latest, r.baseline);
    }
  }

  /** The entries of a turn that are about no check are those of its degraded ratios. */
  lemma TurnSaysRatios(os: Records, m: string -> real, e: Entry)
    ensures e in TurnEntries(os, m) && (forall c :: c in BuildChecks(m) ==> e.title != c.title) <==>
            && !Warming(os.history("collections_p95"), m("collections"))
            && exists r :: r in os.ratios && RatioSays(r, e)
  {
    hide *;
    var checks := BuildChecks(m);
    OwnChecks(m);
    WarmingIs(os.history("collections_p95"), m("collections"));
    TurnIs(os, m);
    UntitledEntries(os, checks, e);
    forall r ensures RatioEntry(r) == Some(e) <==> RatioSays(r, e) { RatioIff(r, e); }
    OfRatioIs(os, e);
  }

  lemma OfRatioIs(os: Records, e: Entry)
    ensures OfRatio(os, e) <==> exists r :: r in os.ratios && RatioEntry(r) == Some(e)
  {
    hide RatioEntry;
  }

  lemma UntitledEntries(os: Records, checks: seq<Check>, e: Entry)
    requires Registry(checks)
    ensures e in Emitted(os, checks) && (forall c :: c in checks ==> e.title != c.title) <==> OfRatio(os, e)
  {
    hide Registry, BeforeBudgets, Own, WithViolations, OverBudget, OfRatio;
    RegistryTitles(checks);
    ViolationsAdded(os, checks, BeforeBudgets(os, checks), e);
    BeforeBudgetsMember(os, checks, e);
    forall c | c in checks && Own(os, checks, c, e) ensures e.title == c.title { OwnTitle(os, checks, c, e); }
    if OfRatio(os, e) {
      forall c | c in checks ensures e.title != c.title { RatioTitle(os, checks, c, e); }
    }
  }

  // ------------------------------------------------------------------
  // Nothing is said twice
  // ------------------------------------------------------------------

  function Titled(c: Check): Entry -> bool { (e: Entry) => e.title == c.title }

  function TrendTitled(checks: seq<Check>, c: Check): Trend -> bool {
    (t: Trend) => FindTitle(checks, t.metric) == c.title
  }

  lemma ChecksOnce(checks: seq<Check>, c: Check)
    requires Registry(checks)
    ensures Once(checks, (d: Check) => d.title == c.title)
  {
    hide FindTitle, Metric;
  }

  lemma BuiltOnce(os: Records, checks: seq<Check>, c: Check)
    requires Registry(checks)
    ensures Once(Collect((d: Check) => TrendOf(os, d), checks), TrendTitled(checks, c))
  {
    hide FindTitle, TrendOf, Once, Collect;
    ChecksOnce(checks, c);
    forall d | d in checks && TrendOf(os, d).Some? ensures TrendOf(os, d).value.metric == Metric(d) { TrendIs(os, d); }
    CollectOnce((d: Check) => TrendOf(os, d), checks, (d: Check) => d.title == c.title, TrendTitled(checks, c));
  }

  lemma ShortOnce(os: Records, checks: seq<Check>, c: Check)
    requires Registry(checks)
    ensures Once(Collect((d: Check) => BaselineAlert(os, d), checks), Titled(c))
  {
    hide Registry, Once, Collect, MeanOf, ChangePct;
    ChecksOnce(checks, c);
    CollectOnce((d: Check) => BaselineAlert(os, d), checks, (d: Check) => d.title == c.title, Titled(c));
  }

  lemma FinishedMetric(os: Records, t: Trend)
    ensures Finished(os, t).metric == t.metric
  {
    hide Flaps, ComputeBudgetForecast;
  }

  lemma TrendEntriesOnce(os: Records, checks: seq<Check>, c: Check)
    requires Registry(checks)
    ensures var built := Collect((d: Check) => TrendOf(os, d), checks);
            var done := Map((t: Trend) => Finished(os, t), built);
            && Once(Collect((t: Trend) => FlappingAlert(os, checks, t), built), Titled(c))
            && Once(Collect((t: Trend) => RegressionEntry(checks, t), done), Titled(c))
            && Once(Collect((t: Trend) => ImprovementEntry(checks, t), done), Titled(c))
  {
    hide Registry, Once, Collect, FindTitle, ChangePct, Flaps, Finished, Map, TrendOf;
    var built := Collect((d: Check) => TrendOf(os, d), checks);
    var done := Map((t: Trend) => Finished(os, t), built);
    var p := TrendTitled(checks, c);
    BuiltOnce(os, checks, c);
    forall t ensures Finished(os, t).metric == t.metric { FinishedMetric(os, t); }
    MapOnce((t: Trend) => Finished(os, t), built, p, p);
    CollectOnce((t: Trend) => FlappingAlert(os, checks, t), built, p, Titled(c));
    CollectOnce((t: Trend) => RegressionEntry(checks, t), done, p, Titled(c));
    CollectOnce((t: Trend) => ImprovementEntry(checks, t), done, p, Titled(c));
  }

  /** The stage an entry of a check comes from. */
  datatype Stage = Short | Flap | Worse | Better

  ghost predicate From(os: Records, checks: seq<Check>, c: Check, s: Stage) {
    match s
    case Short => BaselineAlert(os, c).Some?
    case Flap => TrendOf(os, c).Some? && FlappingAlert(os, checks, TrendOf(os, c).value).Some?
    case Worse => TrendOf(os, c).Some? && RegressionEntry(checks, Finished(os, TrendOf(os, c).value)).Some?
    case Better => TrendOf(os, c).Some? && ImprovementEntry(checks, Finished(os, TrendOf(os, c).value)).Some?
  }

  lemma OneStage(os: Records, checks: seq<Check>, c: Check, s: Stage, t: Stage)
    requires From(os, checks, c, s) && From(os, checks, c, t)
    ensures s == t
  {
    hide TrendOf, BaselineAlert, FlappingAlert, RegressionEntry, ImprovementEntry, Finished, Flaps;
    BaselineIsInfo(os, c);
    if TrendOf(os, c).Some? { OneEntryEach(os, checks, c); }
  }

  lemma FromShort(os: Records, checks: seq<Check>, c: Check, e: Entry)
    requires Registry(checks) && c in checks && e.title == c.title
    requires e in Collect((d: Check) => BaselineAlert(os, d), checks)
    ensures From(os, checks, c, Short)
  {
    hide Registry, Collect, MeanOf, ChangePct;
    CollectMember((d: Check) => BaselineAlert(os, d), checks, e);
    var d :| d in checks && BaselineAlert(os, d) == Some(e);
    SameCheck(checks, c, d);
  }

  /** A trend with the check's title is the check's own. */
  lemma TrendOfCheck(os: Records, checks: seq<Check>, c: Check, t: Trend)
    requires Registry(checks) && c in checks
    requires t in Collect((d: Check) => TrendOf(os, d), checks) && FindTitle(checks, t.metric) == c.title
    ensures TrendOf(os, c) == Some(t)
  {
    hide FindTitle, TrendOf, Collect, Metric;
    BuiltMember(os, checks, t);
    var d :| d in checks && TrendOf(os, d) == Some(t);
    TrendIs(os, d);
    SameCheck(checks, c, d);
  }

  lemma FromTrend(os: Records, checks: seq<Check>, c: Check, e: Entry)
    requires Registry(checks) && c in checks && e.title == c.title
    ensures var built := Collect((d: Check) => TrendOf(os, d), checks);
            var done := Map((t: Trend) => Finished(os, t), built);
            && (e in Collect((t: Trend) => FlappingAlert(os, checks, t), built) ==> From(os, checks, c, Flap))
            && (e in Collect((t: Trend) => RegressionEntry(checks, t), done) ==> From(os, checks, c, Worse))
            && (e in Collect((t: Trend) => ImprovementEntry(checks, t), done) ==> From(os, checks, c, Better))
  {
    hide Registry, Collect, FindTitle, ChangePct, Flaps, Finished, TrendOf, Map;
    var built := Collect((d: Check) => TrendOf(os, d), checks);
    CollectMember((t: Trend) => FlappingAlert(os, checks, t), built, e);
    FinishedMember(os, built, (t: Trend) => RegressionEntry(checks, t), e);
    FinishedMember(os, built, (t: Trend) => ImprovementEntry(checks, t), e);
    forall t | t in built && FindTitle(checks, t.metric) == c.title
      ensures TrendOf(os, c) == Some(t)
    {
      TrendOfCheck(os, checks, c, t);
    }
    forall t ensures Finished(os, t).metric == t.metric { FinishedMetric(os, t); }
  }

  lemma BeforeBudgetsOnce(os: Records, checks: seq<Check>, c: Check)
    requires Registry(checks) && c in checks
    ensures Once(BeforeBudgets(os, checks), Titled(c))
  {
    hide Registry, Once, Collect, TrendOf, BaselineAlert, RatioEntry, FlappingAlert, RegressionEntry,
         ImprovementEntry, Finished, Map, From;
    var q := Titled(c);
    var built := Collect((d: Check) => TrendOf(os, d), checks);
    var done := Map((t: Trend) => Finished(os, t), built);
    var a, r := Collect((d: Check) => BaselineAlert(os, d), checks), Collect(RatioEntry, os.ratios);
    var f := Collect((t: Trend) => FlappingAlert(os, checks, t), built);
    var w := Collect((t: Trend) => RegressionEntry(checks, t), done);
    var b := Collect((t: Trend) => ImprovementEntry(checks, t), done);
    ShortOnce(os, checks, c);
    TrendEntriesOnce(os, checks, c);
    forall e | e in r ensures !q(e) { CollectMember(RatioEntry, os.ratios, e); RatioTitle(os, checks, c, e); }
    NoneOnce(r, q);
    forall e | e in a && q(e) ensures From(os, checks, c, Short) { FromShort(os, checks, c, e); }
    forall e | q(e)
      ensures (e in f ==> From(os, checks, c, Flap)) && (e in w ==> From(os, checks, c, Worse))
      ensures e in b ==> From(os, checks, c, Better)
    {
      FromTrend(os, checks, c, e);
    }
    forall s, t | From(os, checks, c, s) && From(os, checks, c, t) ensures s == t { OneStage(os, checks, c, s, t); }
    OnceConcat(a, r, q);
    OnceConcat(a + r, f, q);
    OnceConcat(a + r + f, w, q);
    OnceConcat(a + r + f + w, b, q);
  }

  lemma NoneOnce<T>(s: seq<T>, q: T -> bool)
    requires forall x :: x in s ==> !q(x)
    ensures Once(s, q)
  {
  }

  lemma {:induction false} ViolationsOnce(os: Records, checks: seq<Check>, start: seq<Entry>, c: Check)
    requires Once(start, Titled(c))
    ensures Once(WithViolations(os, checks, start), Titled(c))
  {
    if checks != [] {
      hide Once, OverBudget;
      var n := |checks| - 1;
      ViolationsOnce(os, checks[..n], start, c);
      var before, e := WithViolations(os, checks[..n], start), ViolationEntry(os, checks[n]);
      if !Listed(before, checks[n].title) {
        OneOnce(e, Titled(c));
        OnceConcat(before, [e], Titled(c));
      }
    }
  }

  lemma OneOnce<T>(x: T, q: T -> bool)
    ensures Once([x], q)
  {
  }

  /** A turn has at most one entry for each check. */
  lemma TurnSaysOnce(os: Records, m: string -> real, c: Check)
    requires c in BuildChecks(m)
    ensures Once(TurnEntries(os, m), Titled(c))
  {
    hide *;
    OwnChecks(m);
    TurnIs(os, m);
    EmittedIs(os, BuildChecks(m));
    BeforeBudgetsOnce(os, BuildChecks(m), c);
    ViolationsOnce(os, BuildChecks(m), BeforeBudgets(os, BuildChecks(m)), c);
    NothingOnce<Entry>(Titled(c));
  }

  lemma NothingOnce<T>(q: T -> bool)
    ensures Once([], q)
  {
  }
}
