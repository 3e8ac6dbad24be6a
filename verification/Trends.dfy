/** Trend direction, budget forecast and flapping detection of
    scripts/benchmark-matrix/regression-detector.ts. */
module Trends {
  import opened Options
  import opened Sequences
  import opened Regression

  datatype Direction = Stable | Improving | Degrading | Critical | Flapping

  datatype Forecast = Forecast(runsUntilBreach: int, projectedValue: real)

  function Abs(x: real): real { if x < 0.0 then -x else x }

  /** `Math.ceil`. */
  function Ceil(x: real): (k: int)
    ensures k as real - 1.0 < x <= k as real
  {
    var f := x.Floor;
    if f as real == x then f else f + 1
  }

  /** The square of `stddev`. */
  function Variance(v: seq<real>): real {
    if |v| < 2 then 0.0 else SquaredError(v, 0.0, MeanOf(v)) / (|v| - 1) as real
  }

  /** `absSlope / (sd / Math.sqrt(n)) > 0.5`, on squares; the fallback when `sd` is zero. */
  predicate Significant(slope: real, variance: real, n: nat) {
    if variance > 0.0 then 4.0 * Square(slope) * n as real > variance else Abs(slope) > 0.001
  }

  function ClassifySlope(slope: real, variance: real, n: nat, current: real, budget: real): Direction {
    if !Significant(slope, variance, n) || Abs(slope) < 0.0001 then Stable
    else if slope > 0.0 then
      if current >= budget || Ceil((budget - current) / slope) <= 5 then Critical else Degrading
    else Improving
  }

  function ComputeTrendSlope(history: seq<real>, current: real, budget: real): Direction {
    ClassifySlope(LinearRegression(history).slope, Variance(history), |history|, current, budget)
  }

  function Min(x: real, y: real): real { if x < y then x else y }

  /** The confidence `computeTrendSlope` returns beside the direction: the fit's r2, with a cap for each direction. */
  function TrendConfidence(history: seq<real>, current: real, budget: real): real {
    Min(LinearRegression(history).r2,
        match ComputeTrendSlope(history, current, budget)
        case Stable => 0.5
        case Improving => 0.9
        case _ => 0.95)
  }

  function ComputeBudgetForecast(current: real, slope: real, budget: real): Option<Forecast> {
    if current >= budget then Some(Forecast(0, current))
    else if slope <= 0.0 then None
    else
      var runs := Ceil((budget - current) / slope);
      if runs > 1000 then None else Some(Forecast(runs, current + slope * runs as real))
  }

  // ------------------------------------------------------------------
  // Forecasts
  // ------------------------------------------------------------------

  /** After `k` more runs on the trend the budget is reached. */
  predicate Reaches(current: real, slope: real, budget: real, k: int) {
    current + slope * k as real >= budget
  }

  lemma DivideBound(a: real, d: real, k: real)
    requires d > 0.0
    ensures a / d <= k <==> a <= d * k
  {
  }

  /** The run named by the forecast reaches the budget and no earlier one does. */
  lemma CeilIsFirst(current: real, slope: real, budget: real, k: int)
    requires slope > 0.0
    ensures Reaches(current, slope, budget, k) <==> k >= Ceil((budget - current) / slope)
  {
    DivideBound(budget - current, slope, k as real);
  }

  /** A falling or flat trend under budget never reaches it. */
  lemma NeverReaches(current: real, slope: real, budget: real, k: int)
    requires current < budget && slope <= 0.0 && k >= 0
    ensures !Reaches(current, slope, budget, k)
  {
    assert slope * k as real <= 0.0;
  }

  /** The forecast is the first run from now on that reaches the budget, and there is none
      exactly when no run within the horizon of 1000 does. */
  lemma ForecastIsFirstBreach(current: real, slope: real, budget: real)
    ensures match ComputeBudgetForecast(current, slope, budget)
            case Some(f) =>
              && 0 <= f.runsUntilBreach <= 1000
              && Reaches(current, slope, budget, f.runsUntilBreach)
              && (forall j :: 0 <= j < f.runsUntilBreach ==> !Reaches(current, slope, budget, j))
              && f.projectedValue == current + slope * f.runsUntilBreach as real
            case None =>
              forall j :: 0 <= j <= 1000 ==> !Reaches(current, slope, budget, j)
  {
    if current >= budget {
      assert slope * 0 as real == 0.0;
    } else if slope <= 0.0 {
      forall j | 0 <= j <= 1000 ensures !Reaches(current, slope, budget, j) {
        NeverReaches(current, slope, budget, j);
      }
    } else {
      hide Reaches;
      forall j: int ensures Reaches(current, slope, budget, j) <==> j >= Ceil((budget - current) / slope) {
        CeilIsFirst(current, slope, budget, j);
      }
      DivideBound(budget - current, slope, 0.0);
    }
  }

  /** A significant slope above zero is critical exactly when five more runs reach the budget. */
  lemma CriticalWithinFive(slope: real, variance: real, n: nat, current: real, budget: real)
    requires Significant(slope, variance, n) && slope >= 0.0001
    ensures ClassifySlope(slope, variance, n, current, budget) ==
            if Reaches(current, slope, budget, 5) then Critical else Degrading
  {
    CeilIsFirst(current, slope, budget, 5);
    if current >= budget { ProductSign(slope, 5.0); }
  }

  /** Direction and forecast agree: a significant slope above zero is critical exactly when its forecast names
      one of the next five runs, and degrading exactly when it names a later one or none. */
  lemma DirectionMatchesForecast(slope: real, variance: real, n: nat, current: real, budget: real)
    requires Significant(slope, variance, n) && slope >= 0.0001
    ensures var d, f := ClassifySlope(slope, variance, n, current, budget),
            ComputeBudgetForecast(current, slope, budget);
            && (d == Critical <==> f.Some? && f.value.runsUntilBreach <= 5)
            && (d == Degrading <==> f.None? || f.value.runsUntilBreach > 5)
  {
  }

  // ------------------------------------------------------------------
  // Significance and direction by the fit
  // ------------------------------------------------------------------

  /** Cross-multiplied: from four slopes squared to the coefficient. */
  lemma SignificanceScaled(q: real, n: real, tot: real, r2: real)
    requires n >= 2.0 && tot > 0.0 && 12.0 * (r2 * tot) == q * (n * ((n - 1.0) * (n + 1.0)))
    ensures 4.0 * q * n > tot / (n - 1.0) <==> 48.0 * r2 > n + 1.0
  {
    var a, b, k := 4.0 * q * n, tot, n - 1.0;
    QuotientLess(b, k, a);
    assert 4.0 * (q * (n * (k * (n + 1.0)))) == (a * k) * (n + 1.0) by { Regroup(q, n, k, n + 1.0); }
    assert (a * k) * (n + 1.0) == (48.0 * r2) * b;
    ScaleLess(b, a * k, n + 1.0);
    ScaleLess(n + 1.0, 48.0 * r2, b);
  }

  lemma Regroup(q: real, n: real, k: real, j: real)
    ensures 4.0 * (q * (n * (k * j))) == ((4.0 * q * n) * k) * j
  {
  }

  lemma QuotientLess(b: real, k: real, a: real)
    requires k > 0.0
    ensures a > b / k <==> a * k > b
  {
  }

  lemma ScaleLess(x: real, y: real, c: real)
    requires c > 0.0
    ensures x < y <==> x * c < y * c
  {
    ProductSign(y - x, c);
    ProductSign(x - y, c);
    assert (y - x) * c == y * c - x * c;
    if x == y { assert x * c == y * c; }
  }

  lemma VarianceIs(v: seq<real>)
    requires |v| >= 2
    ensures Variance(v) == SquaredError(v, 0.0, MeanOf(v)) / (|v| as real - 1.0)
    ensures Variance(v) > 0.0 <==> SquaredError(v, 0.0, MeanOf(v)) > 0.0
    ensures SquaredError(v, 0.0, MeanOf(v)) >= 0.0
  {
    hide MeanOf, ErrorTo;
    ErrorSign(v, 0.0, MeanOf(v), |v|);
    QuotientLess(0.0, |v| as real - 1.0, SquaredError(v, 0.0, MeanOf(v)));
    QuotientSign(SquaredError(v, 0.0, MeanOf(v)), |v| as real - 1.0);
  }

  lemma QuotientSign(a: real, k: real)
    requires k > 0.0
    ensures a / k > 0.0 <==> a > 0.0
  {
  }

  lemma LevelFit(q: real, n: real, tot: real, r2: real)
    requires n >= 2.0 && tot == 0.0 && 12.0 * (r2 * tot) == q * (n * ((n - 1.0) * (n + 1.0)))
    ensures q == 0.0
  {
    ZeroProduct(r2, tot);
    ProductSign(n - 1.0, n + 1.0);
    ProductSign(n, (n - 1.0) * (n + 1.0));
    ProductSign(q, n * ((n - 1.0) * (n + 1.0)));
    ProductSign(-q, n * ((n - 1.0) * (n + 1.0)));
  }

  lemma SlopeOfSquare(s: real)
    requires Square(s) == 0.0
    ensures s == 0.0
  {
    SquareSign(s);
  }

  /** A slope is significant exactly when the fit explains more than `(n + 1) / 48` of the spread: half a standard
      error, as a statement about r2. */
  lemma SignificantIff(v: seq<real>)
    ensures var f := LinearRegression(v);
            Significant(f.slope, Variance(v), |v|) <==> 48.0 * f.r2 > |v| as real + 1.0
  {
    hide LinearRegression, SquaredError, MeanOf, Square, Variance;
    var f := LinearRegression(v);
    if |v| < 2 {
      FewValues(v);
    } else {
      var tot := SquaredError(v, 0.0, MeanOf(v));
      DeterminationOfSlope(v);
      VarianceIs(v);
      if tot > 0.0 {
        SignificanceScaled(Square(f.slope), |v| as real, tot, f.r2);
      } else {
        LevelFit(Square(f.slope), |v| as real, tot, f.r2);
        SlopeOfSquare(f.slope);
        FitErrors(v);
      }
    }
  }

  lemma FewValues(v: seq<real>)
    requires |v| < 2
    ensures LinearRegression(v).slope == 0.0 && LinearRegression(v).r2 == 0.0 && Variance(v) == 0.0
  {
  }

  /** The direction of a stored history, by the line fitted to it: 0.0001 is the least slope that counts, and five runs
      tell critical from degrading. */
  lemma DirectionByFit(history: seq<real>, current: real, budget: real)
    ensures var (f, d) := (LinearRegression(history), ComputeTrendSlope(history, current, budget));
            var significant := 48.0 * f.r2 > |history| as real + 1.0;
            && (d == Improving <==> significant && f.slope <= -0.0001)
            && (d == Critical <==> significant && f.slope >= 0.0001 && current + f.slope * 5.0 >= budget)
            && (d == Degrading <==> significant && f.slope >= 0.0001 && current + f.slope * 5.0 < budget)
            && d != Flapping
  {
    hide LinearRegression, Variance, Significant;
    SignificantIff(history);
    var f := LinearRegression(history);
    SlopeDirections(f.slope, Variance(history), |history|, current, budget);
    if f.slope >= 0.0001 && Significant(f.slope, Variance(history), |history|) {
      CriticalWithinFive(f.slope, Variance(history), |history|, current, budget);
    }
  }

  /** From 47 runs on no trend is anything but stable. */
  lemma LongHistoriesAreStable(history: seq<real>, current: real, budget: real)
    requires |history| >= 47
    ensures ComputeTrendSlope(history, current, budget) == Stable
  {
    hide LinearRegression, ComputeTrendSlope;
    DirectionByFit(history, current, budget);
    DeterminationIsProportion(history);
  }

  /** A confidence is a proportion, and one above a half rules out a stable trend. */
  lemma ConfidentIsNotStable(history: seq<real>, current: real, budget: real)
    ensures 0.0 <= TrendConfidence(history, current, budget) <= LinearRegression(history).r2
    ensures TrendConfidence(history, current, budget) > 0.5 ==> ComputeTrendSlope(history, current, budget) != Stable
  {
    hide LinearRegression, ComputeTrendSlope;
    DeterminationIsProportion(history);
  }

  lemma ReversedVariance(v: seq<real>)
    ensures Variance(Reverse(v)) == Variance(v)
  {
    hide SumsOf, ErrorTo;
    if |v| >= 2 {
      ReversedError(v, MeanOf(v));
    }
  }

  lemma SlopeDirections(slope: real, variance: real, n: nat, current: real, budget: real)
    ensures ClassifySlope(slope, variance, n, current, budget) in {Degrading, Critical} <==>
            slope >= 0.0001 && Significant(slope, variance, n)
    ensures ClassifySlope(slope, variance, n, current, budget) == Improving <==>
            slope <= -0.0001 && Significant(slope, variance, n)
  {
  }

  lemma SignificantEitherWay(slope: real, variance: real, n: nat)
    ensures Significant(-slope, variance, n) == Significant(slope, variance, n)
  {
  }

  lemma TrendIsSlope(history: seq<real>, current: real, budget: real)
    ensures ComputeTrendSlope(history, current, budget) ==
            ClassifySlope(LinearRegression(history).slope, Variance(history), |history|, current, budget)
  {
    hide LinearRegression, Variance, ClassifySlope;
  }

  /** The history comes newest first, so the direction is that of time reversed: a trend is reported as degrading
      or critical exactly when the values have been falling significantly, and as improving exactly when they have
      been rising significantly. */
  lemma DirectionIsReversed(oldestFirst: seq<real>, current: real, budget: real)
    ensures var slope := LinearRegression(oldestFirst).slope;
            var significant := Significant(slope, Variance(oldestFirst), |oldestFirst|);
            var reported := ComputeTrendSlope(Reverse(oldestFirst), current, budget);
            && (reported in {Degrading, Critical} <==> slope <= -0.0001 && significant)
            && (reported == Improving <==> slope >= 0.0001 && significant)
  {
    hide *;
    var slope := LinearRegression(oldestFirst).slope;
    TrendIsSlope(Reverse(oldestFirst), current, budget);
    ReversedSlope(oldestFirst);
    ReversedVariance(oldestFirst);
    SlopeDirections(-slope, Variance(oldestFirst), |oldestFirst|, current, budget);
    SignificantEitherWay(slope, Variance(oldestFirst), |oldestFirst|);
  }

  /** Below the budget a breach is forecast exactly when the values have been falling over time so fast that, were the
      fall turned into a rise, 1000 runs would reach the budget. */
  lemma ForecastIsReversed(oldestFirst: seq<real>, current: real, budget: real)
    requires current < budget
    ensures var slope := LinearRegression(oldestFirst).slope;
            ComputeBudgetForecast(current, LinearRegression(Reverse(oldestFirst)).slope, budget).Some? <==>
            slope < 0.0 && Reaches(current, -slope, budget, 1000)
  {
    hide LinearRegression;
    ReversedSlope(oldestFirst);
    var slope := LinearRegression(oldestFirst).slope;
    if slope < 0.0 {
      CeilIsFirst(current, -slope, budget, 1000);
    }
  }

  /** Latencies that fell from 3 to 1 are said to reach 100 in 99 runs; ones that rose from 1 to 3, never. */
  lemma FallingForecast()
    ensures var f := ComputeBudgetForecast(1.0, LinearRegression(Reverse([3.0, 2.0, 1.0])).slope, 100.0);
            f.Some? && f.value.runsUntilBreach == 99
    ensures ComputeBudgetForecast(3.0, LinearRegression(Reverse([1.0, 2.0, 3.0])).slope, 100.0).None?
  {
    hide LinearRegression;
    ThreeValues(1.0, 2.0, 3.0);
    ThreeValues(3.0, 2.0, 1.0);
    assert Reverse([3.0, 2.0, 1.0]) == [1.0, 2.0, 3.0] && Reverse([1.0, 2.0, 3.0]) == [3.0, 2.0, 1.0];
  }

  lemma ThreeValues(a: real, b: real, c: real)
    ensures LinearRegression([a, b, c]).slope == (c - a) / 2.0
    ensures MeanOf([a, b, c]) == (a + b + c) / 3.0
    ensures a + c == 2.0 * b ==> Variance([a, b, c]) == (Square(a - b) + Square(c - b)) / 2.0
  {
    hide Square;
    var v := [a, b, c];
    var m := SumsOf(v, 3);
    SumsOfThree(v);
    EnoughPoints(v);
    assert Denominator(m) == 6.0;
    assert LinearRegression(v).slope == Slope(m);
    if a + c == 2.0 * b {
      assert MeanOf(v) == b;
      ErrorOfThree(v, b);
    }
  }

  lemma SumsOfThree(v: seq<real>)
    requires |v| == 3
    ensures SumsOf(v, 3).n == 3.0 && SumsOf(v, 3).x == 3.0 && SumsOf(v, 3).x2 == 5.0
    ensures SumsOf(v, 3).y == v[0] + v[1] + v[2] && SumsOf(v, 3).xy == v[1] + 2.0 * v[2]
  {
    assert SumsOf(v, 1) == Push(SumsOf(v, 0), 0.0, v[0]);
    assert SumsOf(v, 2) == Push(SumsOf(v, 1), 1.0, v[1]);
    assert SumsOf(v, 3) == Push(SumsOf(v, 2), 2.0, v[2]);
  }

  lemma ErrorOfThree(v: seq<real>, b: real)
    requires |v| == 3 && v[1] == b
    ensures SquaredError(v, 0.0, b) == Square(v[0] - b) + Square(v[2] - b)
  {
    assert ErrorTo(v, 0.0, b, 1) == ErrorTo(v, 0.0, b, 0) + Square(v[0] - b);
    assert ErrorTo(v, 0.0, b, 2) == ErrorTo(v, 0.0, b, 1) + Square(v[1] - b);
    assert ErrorTo(v, 0.0, b, 3) == ErrorTo(v, 0.0, b, 2) + Square(v[2] - b);
  }

  /** Latencies that fell from 3 to 1 are reported as degrading; ones that rose from 1 to 3 as improving. */
  lemma FallingReportedDegrading()
    ensures ComputeTrendSlope(Reverse([3.0, 2.0, 1.0]), 1.0, 100.0) == Degrading
    ensures ComputeTrendSlope(Reverse([1.0, 2.0, 3.0]), 3.0, 100.0) == Improving
  {
    hide LinearRegression, Variance;
    ThreeValues(1.0, 2.0, 3.0);
    ThreeValues(3.0, 2.0, 1.0);
    assert Reverse([3.0, 2.0, 1.0]) == [1.0, 2.0, 3.0] && Reverse([1.0, 2.0, 3.0]) == [3.0, 2.0, 1.0];
  }

  // ------------------------------------------------------------------
  // Flapping
  // ------------------------------------------------------------------

  function Max(x: real, y: real): real { if x < y then y else x }

  /** Direction of one change of a metric: up, down, or too small to count. */
  function Move(previous: real, current: real): int {
    var threshold := Max(Abs(previous) * 0.005, 0.001);
    if current - previous > threshold then 1
    else if current - previous < -threshold then -1
    else 0
  }

  /** The changes that count, in order. */
  function Moves(history: seq<real>, k: nat): seq<int>
    requires k <= |history|
  {
    if k < 2 then []
    else
      var m := Move(history[k - 2], history[k - 1]);
      Moves(history, k - 1) + (if m == 0 then [] else [m])
  }

  predicate TurnAt(moves: seq<int>, k: nat) {
    1 <= k < |moves| && moves[k] != moves[k - 1]
  }

  /** Positions at which a move differs from the one before it. */
  ghost function Turns(moves: seq<int>): set<nat> {
    set k: nat | k < |moves| && TurnAt(moves, k)
  }

  lemma TurnsGrow(moves: seq<int>, m: int)
    ensures Turns(moves + [m]) ==
            Turns(moves) + (if moves != [] && moves[|moves| - 1] != m then {|moves|} else {})
  {
    assert forall k: nat :: k < |moves| ==> (TurnAt(moves + [m], k) <==> TurnAt(moves, k));
  }

  /** Flapping needs four runs, two turns, and turns at three fifths of the counted moves. */
  ghost predicate Flaps(history: seq<real>) {
    var moves := Moves(history, |history|);
    |history| >= 4 && |Turns(moves)| >= 2 && 5 * |Turns(moves)| >= 3 * |moves|
  }

  /** A series that goes up, down and up again flaps; a short one never does. */
  lemma FlappingSeries()
    ensures Flaps([1.0, 3.0, 1.0, 3.0])
    ensures forall history :: |history| < 4 ==> !Flaps(history)
  {
    hide Moves, Turns;
    SeriesMoves();
    SeriesTurns();
  }

  lemma SeriesMoves()
    ensures Moves([1.0, 3.0, 1.0, 3.0], 4) == [1, -1, 1]
  {
    hide Move;
    var h := [1.0, 3.0, 1.0, 3.0];
    UpAndDown();
    assert Moves(h, 1) == [];
    assert Moves(h, 2) == [] + [1];
    assert Moves(h, 3) == [1] + [-1];
    assert Moves(h, 4) == [1, -1] + [1];
  }

  lemma UpAndDown()
    ensures Move(1.0, 3.0) == 1 && Move(3.0, 1.0) == -1
  {
  }

  lemma SeriesTurns()
    ensures |Turns([1, -1, 1])| == 2
  {
    assert Turns([1, -1, 1]) == {1, 2};
  }

  lemma FlapsIs(history: seq<real>)
    ensures var moves := Moves(history, |history|);
            Flaps(history) <==> |history| >= 4 && |Turns(moves)| >= 2 && 5 * |Turns(moves)| >= 3 * |moves|
  {
  }

  lemma FirstMove(history: seq<real>)
    requires history != []
    ensures Moves(history, 1) == [] && Turns([]) == {}
  {
  }

  lemma MovesNext(history: seq<real>, i: nat)
    requires 1 <= i < |history|
    ensures var m := Move(history[i - 1], history[i]);
            Moves(history, i + 1) == if m == 0 then Moves(history, i) else Moves(history, i) + [m]
  {
    hide Move;
  }

  lemma TurnsCount(moves: seq<int>, m: int)
    ensures |Turns(moves + [m])| == |Turns(moves)| + if moves != [] && moves[|moves| - 1] != m then 1 else 0
  {
    TurnsGrow(moves, m);
  }

  /** Flips are the turns of the counted moves. */
  method DetectFlapping(history: seq<real>) returns (isFlapping: bool, flipCount: nat)
    ensures flipCount == if |history| < 4 then 0 else |Turns(Moves(history, |history|))|
    ensures isFlapping <==> Flaps(history)
    ensures isFlapping <==> flipCount >= 2 && 5 * flipCount >= 3 * |Moves(history, |history|)|
  {
    hide Moves, Move, Turns, Flaps;
    FlapsIs(history);
    if |history| < 4 { return false, 0; }
    FirstMove(history);
    var pairCount: nat := 0;
    var prevDirection: Option<int> := None;
    flipCount := 0;
    for i := 1 to |history|
      invariant var moves := Moves(history, i);
                && pairCount == |moves|
                && flipCount == |Turns(moves)|
                && prevDirection == if moves == [] then None else Some(moves[|moves| - 1])
    {
      ghost var moves := Moves(history, i);
      var direction := Move(history[i - 1], history[i]);
      MovesNext(history, i);
      if direction != 0 {
        TurnsCount(moves, direction);
        pairCount := pairCount + 1;
        if prevDirection.Some? && direction != prevDirection.value {
          flipCount := flipCount + 1;
        }
        prevDirection := Some(direction);
      }
    }
    assert flipCount <= pairCount by { TurnsBound(Moves(history, |history|)); }
    var flipRatio := if pairCount > 0 then flipCount as real / pairCount as real else 0.0;
    isFlapping := flipCount >= 2 && flipRatio >= 0.6;
    if pairCount > 0 { RatioBound(flipCount, pairCount); }
  }

  lemma RatioBound(f: nat, p: nat)
    requires p > 0
    ensures f as real / p as real >= 0.6 <==> 5 * f >= 3 * p
  {
  }

  /** Fewer turns than moves. */
  lemma TurnsBound(moves: seq<int>)
    ensures |Turns(moves)| <= |moves|
    ensures moves != [] ==> |Turns(moves)| < |moves|
    decreases |moves|
  {
    if moves != [] {
      var init := moves[..|moves| - 1];
      TurnsBound(init);
      TurnsGrow(init, moves[|moves| - 1]);
      assert moves == init + [moves[|moves| - 1]];
    }
  }

  /** A change counts as a move when it is more than half a percent of the earlier value, and more than a thousandth. */
  function Counted(previous: real, current: real): int {
    var d := current - previous;
    if 1000.0 * d > 1.0 && 1000.0 * d > 5.0 * Abs(previous) then 1
    else if 1000.0 * d < -1.0 && 1000.0 * d < -5.0 * Abs(previous) then -1
    else 0
  }

  lemma MoveIs(previous: real, current: real)
    ensures Move(previous, current) == Counted(previous, current)
  {
  }

  /** The change at each position after the first. */
  function Changes(history: seq<real>): seq<int> {
    seq(if history == [] then 0 else |history| - 1, i requires 0 <= i < |history| - 1 =>
      Counted(history[i], history[i + 1]))
  }

  function NotLevel(): int -> bool { m => m != 0 }

  lemma {:induction false} MovesAre(history: seq<real>, k: nat)
    requires 1 <= k <= |history|
    ensures Moves(history, k) == Filter(NotLevel(), Changes(history[..k]))
  {
    if k >= 2 {
      hide Filter, Move, Counted;
      MovesAre(history, k - 1);
      MoveIs(history[k - 2], history[k - 1]);
      var m := Counted(history[k - 2], history[k - 1]);
      assert Changes(history[..k]) == Changes(history[..k - 1]) + [m];
      FilterConcat(NotLevel(), Changes(history[..k - 1]), [m]);
      FilterOne(NotLevel(), m);
    } else {
      assert Changes(history[..k]) == [];
    }
  }

  /** A history swings: of its moves, at least two and at least three in five turn. */
  ghost predicate Swings(history: seq<real>) {
    var moves := Filter(NotLevel(), Changes(history));
    |history| >= 4 && |Turns(moves)| >= 2 && 5 * |Turns(moves)| >= 3 * |moves|
  }

  lemma FlapsIff(history: seq<real>)
    ensures Flaps(history) <==> Swings(history)
  {
    hide Moves, Turns, Changes, Filter;
    if history != [] {
      MovesAre(history, |history|);
      assert history[..|history|] == history;
    }
  }

  /** The turns of a sequence of moves are the positions where the direction changes. */
  lemma TurnsAre(moves: seq<int>)
    ensures forall k: nat :: k in Turns(moves) <==> 1 <= k < |moves| && moves[k] != moves[k - 1]
  {
    forall k: nat ensures k in Turns(moves) <==> TurnAt(moves, k) {}
  }
}
