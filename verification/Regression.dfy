/** `linearRegression` of scripts/benchmark-matrix/utils.ts, over exact reals. */
module Regression {

  // ------------------------------------------------------------------
  // The program
  // ------------------------------------------------------------------

  /** The five sums of the program and the number of points, over a prefix of the values. */
  datatype Sums = Sums(n: real, x: real, x2: real, y: real, xy: real, y2: real)

  /** One more turn of every `reduce`: position `i` holds `y`. */
  function Push(m: Sums, i: real, y: real): Sums {
    Sums(m.n + 1.0, m.x + i, m.x2 + i * i, m.y + y, m.xy + i * y, m.y2 + y * y)
  }

  function SumsOf(v: seq<real>, k: nat): Sums
    requires k <= |v|
  {
    if k == 0 then Sums(0.0, 0.0, 0.0, 0.0, 0.0, 0.0)
    else Push(SumsOf(v, k - 1), (k - 1) as real, v[k - 1])
  }

  function Square(x: real): real { x * x }

  /** The squared distances of the first `k` values from the line `slope * i + intercept`. */
  function ErrorTo(v: seq<real>, slope: real, intercept: real, k: nat): real
    requires k <= |v|
  {
    if k == 0 then 0.0
    else ErrorTo(v, slope, intercept, k - 1) + Square(v[k - 1] - (slope * (k - 1) as real + intercept))
  }

  function SquaredError(v: seq<real>, slope: real, intercept: real): real {
    ErrorTo(v, slope, intercept, |v|)
  }

  /** `n * sumX2 - sumX * sumX`. */
  function Denominator(m: Sums): real { m.n * m.x2 - m.x * m.x }

  function Slope(m: Sums): real
    requires Denominator(m) > 0.0
  {
    (m.n * m.xy - m.x * m.y) / Denominator(m)
  }

  function Intercept(m: Sums): real
    requires Denominator(m) > 0.0 && m.n > 0.0
  {
    (m.y - Slope(m) * m.x) / m.n
  }

  datatype Fit = Fit(slope: real, intercept: real, r2: real)

  function LinearRegression(v: seq<real>): Fit {
    var n := |v|;
    if n < 2 then Fit(0.0, if n == 1 then v[0] else 0.0, 0.0) else
    EnoughPoints(v);
    var m := SumsOf(v, n);
    var slope, intercept := Slope(m), Intercept(m);
    var meanY := m.y / m.n;
    var ssRes := SquaredError(v, slope, intercept);
    var ssTot := SquaredError(v, 0.0, meanY);
    Fit(slope, intercept, if ssTot > 0.0 then 1.0 - ssRes / ssTot else 0.0)
  }

  // ------------------------------------------------------------------
  // The denominator
  // ------------------------------------------------------------------

  lemma PositionStep(r: real)
    ensures (r - 1.0) * (r - 2.0) + 2.0 * (r - 1.0) == r * (r - 1.0)
    ensures (r - 1.0) * (r - 2.0) * (2.0 * r - 3.0) + 6.0 * ((r - 1.0) * (r - 1.0)) == r * (r - 1.0) * (2.0 * r - 1.0)
  {
  }

  /** The sums of positions and of their squares in closed form. */
  lemma {:induction false} PositionSums(v: seq<real>, k: nat)
    requires k <= |v|
    ensures var m, r := SumsOf(v, k), k as real;
            && m.n == r
            && 2.0 * m.x == r * (r - 1.0)
            && 6.0 * m.x2 == r * (r - 1.0) * (2.0 * r - 1.0)
  {
    hide SumsOf;
    SumsUnfold(v, k);
    if k > 0 {
      PositionSums(v, k - 1);
      PushPosition(SumsOf(v, k - 1), k as real, v[k - 1]);
    }
  }

  lemma SumsUnfold(v: seq<real>, k: nat)
    requires k <= |v|
    ensures SumsOf(v, k) ==
            if k == 0 then Sums(0.0, 0.0, 0.0, 0.0, 0.0, 0.0)
            else Push(SumsOf(v, k - 1), (k - 1) as real, v[k - 1])
  {
  }

  lemma PushPosition(m: Sums, r: real, y: real)
    requires m.n == r - 1.0 && 2.0 * m.x == (r - 1.0) * (r - 2.0)
    requires 6.0 * m.x2 == (r - 1.0) * (r - 2.0) * (2.0 * r - 3.0)
    ensures var w := Push(m, r - 1.0, y);
            w.n == r && 2.0 * w.x == r * (r - 1.0) && 6.0 * w.x2 == r * (r - 1.0) * (2.0 * r - 1.0)
  {
    PositionStep(r);
  }

  lemma DenominatorForm(r: real, s: real, q: real)
    requires 2.0 * s == r * (r - 1.0) && 6.0 * q == r * (r - 1.0) * (2.0 * r - 1.0)
    ensures 12.0 * (r * q - s * s) == Square(r) * ((r - 1.0) * (r + 1.0))
  {
  }

  lemma ProductSign(x: real, y: real)
    ensures x > 0.0 && y > 0.0 ==> x * y > 0.0
    ensures x >= 0.0 && y >= 0.0 ==> x * y >= 0.0
    ensures x > 0.0 && y < 0.0 ==> x * y < 0.0
  {
  }

  function Times(x: real, y: real): real { x * y }

  lemma TimesSign(x: real, y: real)
    ensures x > 0.0 && y > 0.0 ==> Times(x, y) > 0.0
  {
    ProductSign(x, y);
  }

  lemma SquareIsTimes(x: real)
    ensures Square(x) == Times(x, x) == Times(-x, -x)
    ensures Square(0.0) == 0.0
  {
  }

  lemma SquareSign(x: real)
    ensures Square(x) >= 0.0
    ensures x != 0.0 ==> Square(x) > 0.0
  {
    hide Square, Times;
    SquareIsTimes(x);
    TimesSign(x, x);
    TimesSign(-x, -x);
  }

  /** Two or more points have distinct positions, so the slope's denominator is positive. */
  lemma EnoughPoints(v: seq<real>)
    requires |v| >= 2
    ensures SumsOf(v, |v|).n == |v| as real && Denominator(SumsOf(v, |v|)) > 0.0
  {
    hide Square, SumsOf;
    var r := |v| as real;
    PositionSums(v, |v|);
    DenominatorForm(r, SumsOf(v, |v|).x, SumsOf(v, |v|).x2);
    SquareSign(r);
    ProductSign(r - 1.0, r + 1.0);
    ProductSign(Square(r), (r - 1.0) * (r + 1.0));
  }

  // ------------------------------------------------------------------
  // The error as a polynomial
  // ------------------------------------------------------------------

  function ErrorForm(m: Sums, a: real, b: real): real {
    m.y2 + a * a * m.x2 + b * b * m.n - 2.0 * a * m.xy - 2.0 * b * m.y + 2.0 * a * b * m.x
  }

  lemma ErrorFormPush(m: Sums, i: real, y: real, a: real, b: real)
    ensures ErrorForm(Push(m, i, y), a, b) == ErrorForm(m, a, b) + Square(y - (a * i + b))
  {
  }

  lemma ErrorFormStart(a: real, b: real)
    ensures ErrorForm(Sums(0.0, 0.0, 0.0, 0.0, 0.0, 0.0), a, b) == 0.0
  {
  }

  lemma {:induction false} ErrorExpands(v: seq<real>, a: real, b: real, k: nat)
    requires k <= |v|
    ensures ErrorTo(v, a, b, k) == ErrorForm(SumsOf(v, k), a, b)
  {
    hide ErrorForm, Push, Square;
    if k == 0 {
      ErrorFormStart(a, b);
    } else {
      ErrorExpands(v, a, b, k - 1);
      ErrorFormPush(SumsOf(v, k - 1), (k - 1) as real, v[k - 1], a, b);
    }
  }

  /** How much the error grows when a line that solves the normal equations is moved. */
  function Growth(m: Sums, p: real, q: real): real {
    p * p * m.x2 + 2.0 * (p * q) * m.x + q * q * m.n
  }

  ghost predicate Solves(m: Sums, s: real, t: real) {
    s * m.x2 + t * m.x == m.xy && s * m.x + m.n * t == m.y
  }

  lemma ErrorGrows(m: Sums, s: real, t: real, p: real, q: real)
    requires Solves(m, s, t)
    ensures ErrorForm(m, s + p, t + q) == ErrorForm(m, s, t) + Growth(m, p, q)
  {
  }

  lemma GrowthForm(m: Sums, p: real, q: real)
    ensures m.n * Growth(m, p, q) == Square(m.n * q + p * m.x) + Square(p) * Denominator(m)
  {
  }

  lemma SumOfSquares(n: real, f: real, w: real, p: real, d: real)
    requires n > 0.0 && d > 0.0 && n * f == Square(w) + Square(p) * d
    ensures f >= 0.0
    ensures f == 0.0 ==> w == 0.0 && p == 0.0
  {
    hide Square;
    SquareSign(w);
    SquareSign(p);
    ProductSign(Square(p), d);
    ProductSign(n, f);
    ZeroProduct(n, f);
  }

  /** The growth is not negative, and vanishes only when the line is not moved. */
  lemma GrowthSign(m: Sums, p: real, q: real)
    requires m.n > 0.0 && Denominator(m) > 0.0
    ensures Growth(m, p, q) >= 0.0
    ensures Growth(m, p, q) == 0.0 ==> p == 0.0 && q == 0.0
  {
    hide Growth, Denominator, Square;
    GrowthForm(m, p, q);
    SumOfSquares(m.n, Growth(m, p, q), m.n * q + p * m.x, p, Denominator(m));
    ZeroProduct(p, m.x);
    ProductSign(m.n, q);
    ProductSign(m.n, -q);
  }

  lemma ZeroProduct(x: real, y: real)
    ensures x == 0.0 || y == 0.0 ==> x * y == 0.0
  {
  }

  lemma NormalEquations(m: Sums)
    requires m.n > 0.0 && Denominator(m) > 0.0
    ensures Solves(m, Slope(m), Intercept(m))
  {
  }

  // ------------------------------------------------------------------
  // Main results
  // ------------------------------------------------------------------

  lemma FitOf(v: seq<real>)
    requires |v| >= 2
    ensures var m, f := SumsOf(v, |v|), LinearRegression(v);
            m.n > 0.0 && Denominator(m) > 0.0 && f.slope == Slope(m) && f.intercept == Intercept(m)
  {
    hide Denominator, Slope, Intercept, SumsOf, SquaredError;
    EnoughPoints(v);
  }

  /** Least squares: no line has a smaller squared error, and no other line has the same one. */
  lemma LeastSquares(v: seq<real>, a: real, b: real)
    requires |v| >= 2
    ensures var f := LinearRegression(v);
            && SquaredError(v, f.slope, f.intercept) <= SquaredError(v, a, b)
            && (SquaredError(v, f.slope, f.intercept) == SquaredError(v, a, b) ==> a == f.slope && b == f.intercept)
  {
    hide LinearRegression, Denominator, Slope, Intercept, SumsOf, ErrorTo, ErrorForm, Growth, Solves;
    var m, f := SumsOf(v, |v|), LinearRegression(v);
    FitOf(v);
    NormalEquations(m);
    ErrorExpands(v, a, b, |v|);
    ErrorExpands(v, f.slope, f.intercept, |v|);
    ErrorGrows(m, f.slope, f.intercept, a - f.slope, b - f.intercept);
    GrowthSign(m, a - f.slope, b - f.intercept);
    assert f.slope + (a - f.slope) == a && f.intercept + (b - f.intercept) == b;
  }

  lemma {:induction false} ErrorSign(v: seq<real>, a: real, b: real, k: nat)
    requires k <= |v|
    ensures ErrorTo(v, a, b, k) >= 0.0
  {
    if k > 0 {
      ErrorSign(v, a, b, k - 1);
      SquareSign(v[k - 1] - (a * (k - 1) as real + b));
    }
  }

  lemma Proportion(r: real, t: real)
    requires 0.0 <= r <= t && t > 0.0
    ensures 0.0 <= r / t <= 1.0
  {
  }

  /** The coefficient of determination is a proportion, for every history. */
  lemma DeterminationIsProportion(v: seq<real>)
    ensures 0.0 <= LinearRegression(v).r2 <= 1.0
  {
    hide Denominator, Slope, Intercept, SumsOf, ErrorTo;
    if |v| >= 2 {
      EnoughPoints(v);
      var f, mean := LinearRegression(v), SumsOf(v, |v|).y / SumsOf(v, |v|).n;
      var res, tot := SquaredError(v, f.slope, f.intercept), SquaredError(v, 0.0, mean);
      LeastSquares(v, 0.0, mean);
      ErrorSign(v, f.slope, f.intercept, |v|);
      if tot > 0.0 { Proportion(res, tot); }
    }
  }

  // ------------------------------------------------------------------
  // What the coefficient of determination says
  // ------------------------------------------------------------------

  function MeanOf(v: seq<real>): real
    requires v != []
  {
    SumsOf(v, |v|).y / |v| as real
  }

  function Total(v: seq<real>): real {
    if v == [] then 0.0 else Total(v[..|v| - 1]) + v[|v| - 1]
  }

  lemma {:induction false} SumIsTotal(v: seq<real>, k: nat)
    requires k <= |v|
    ensures SumsOf(v, k).y == Total(v[..k])
  {
    if k > 0 {
      hide Push;
      SumIsTotal(v, k - 1);
      SumsStep(v, k);
      assert v[..k][..k - 1] == v[..k - 1];
    }
  }

  /** The mean is the one value that makes up the same total. */
  lemma MeanIsAverage(v: seq<real>, x: real)
    requires v != []
    ensures MeanOf(v) == x <==> |v| as real * x == Total(v)
  {
    hide SumsOf;
    MeanTimes(v);
    SumIsTotal(v, |v|);
    assert v[..|v|] == v;
    if |v| as real * x == Total(v) { CancelFactor(|v| as real, x, MeanOf(v)); }
  }

  /** Every value lies on the line. */
  ghost predicate OnLine(v: seq<real>, slope: real, intercept: real) {
    forall i :: 0 <= i < |v| ==> v[i] == slope * i as real + intercept
  }

  ghost predicate OnLineTo(v: seq<real>, slope: real, intercept: real, k: nat)
    requires k <= |v|
  {
    forall i :: 0 <= i < k ==> v[i] == slope * i as real + intercept
  }

  lemma {:induction false} NoErrorIff(v: seq<real>, a: real, b: real, k: nat)
    requires k <= |v|
    ensures ErrorTo(v, a, b, k) == 0.0 <==> OnLineTo(v, a, b, k)
  {
    if k > 0 {
      hide Square;
      NoErrorIff(v, a, b, k - 1);
      ErrorSign(v, a, b, k - 1);
      var d := v[k - 1] - (a * (k - 1) as real + b);
      SquareSign(d);
      SquareIsTimes(0.0);
      assert ErrorTo(v, a, b, k) == ErrorTo(v, a, b, k - 1) + Square(d);
      assert d == 0.0 <==> v[k - 1] == a * (k - 1) as real + b;
    }
  }

  /** Fewer than two values: a level line through what there is. */
  lemma FewOnLine(v: seq<real>)
    requires |v| < 2
    ensures var f := LinearRegression(v); OnLine(v, f.slope, f.intercept) && f.slope == 0.0 && f.r2 == 0.0
  {
  }

  lemma DivideBack(r: real, t: real)
    requires t > 0.0
    ensures (1.0 - (1.0 - r / t)) * t == r
  {
  }

  /** `r2` by its two errors. */
  lemma FitErrors(v: seq<real>)
    requires |v| >= 2
    ensures var (f, tot) := (LinearRegression(v), SquaredError(v, 0.0, MeanOf(v)));
            var res := SquaredError(v, f.slope, f.intercept);
            0.0 <= res <= tot && f.r2 == if tot > 0.0 then 1.0 - res / tot else 0.0
  {
    hide Denominator, Slope, Intercept, SumsOf, ErrorTo;
    EnoughPoints(v);
    LeastSquares(v, 0.0, MeanOf(v));
    ErrorSign(v, LinearRegression(v).slope, LinearRegression(v).intercept, |v|);
  }

  /** The line leaves the share `1 - r2` of the squared distances from the mean. */
  lemma DeterminationIsShare(v: seq<real>)
    requires |v| >= 2
    ensures var f := LinearRegression(v);
            (1.0 - f.r2) * SquaredError(v, 0.0, MeanOf(v)) == SquaredError(v, f.slope, f.intercept)
  {
    hide *;
    var f := LinearRegression(v);
    FitErrors(v);
    var res, tot := SquaredError(v, f.slope, f.intercept), SquaredError(v, 0.0, MeanOf(v));
    if tot > 0.0 { DivideBack(res, tot); } else { ZeroProduct(1.0 - f.r2, tot); }
  }

  lemma ConstantIff(v: seq<real>)
    requires v != []
    ensures SquaredError(v, 0.0, MeanOf(v)) == 0.0 <==> forall i :: 0 <= i < |v| ==> v[i] == MeanOf(v)
  {
    hide MeanOf, ErrorTo;
    NoErrorIff(v, 0.0, MeanOf(v), |v|);
  }

  lemma OnLineIff(v: seq<real>, a: real, b: real)
    ensures SquaredError(v, a, b) == 0.0 <==> OnLine(v, a, b)
  {
    hide ErrorTo;
    NoErrorIff(v, a, b, |v|);
  }

  lemma FullShare(r2: real, tot: real, res: real)
    requires tot > 0.0 && r2 == 1.0 - res / tot
    ensures r2 == 1.0 <==> res == 0.0
  {
  }

  /** A coefficient of 1 means exactly that the values lie on the line and are not all the same. */
  lemma PerfectFitIff(v: seq<real>)
    requires |v| >= 2
    ensures var f := LinearRegression(v);
            f.r2 == 1.0 <==> OnLine(v, f.slope, f.intercept) && exists i :: 0 <= i < |v| && v[i] != MeanOf(v)
  {
    hide LinearRegression, SquaredError, MeanOf, OnLine;
    var f := LinearRegression(v);
    FitErrors(v);
    ConstantIff(v);
    OnLineIff(v, f.slope, f.intercept);
    var res, tot := SquaredError(v, f.slope, f.intercept), SquaredError(v, 0.0, MeanOf(v));
    if tot > 0.0 { FullShare(f.r2, tot, res); }
  }

  lemma ShareMoved(m: Sums, s: real, t: real, mean: real)
    requires m.n > 0.0 && Solves(m, s, t) && m.n * mean == m.y
    ensures m.n * (ErrorForm(m, 0.0, mean) - ErrorForm(m, s, t)) == Square(s) * Denominator(m)
  {
    hide ErrorForm, Growth, Denominator, Square, Solves;
    var p, q := -s, mean - t;
    ErrorGrows(m, s, t, p, q);
    assert s + p == 0.0 && t + q == mean;
    GrowthForm(m, p, q);
    OffLevel(m, s, t, mean, p, q);
    var w := m.n * q + p * m.x;
    assert w == 0.0;
    assert m.n * Growth(m, p, q) == Square(w) + Square(p) * Denominator(m);
    LevelGrowth(m.n * Growth(m, p, q), w, s, p, Denominator(m));
    ErrorGap(m.n, ErrorForm(m, 0.0, mean), ErrorForm(m, s, t), Growth(m, p, q));
  }

  lemma LevelGrowth(g: real, w: real, s: real, p: real, d: real)
    requires g == Square(w) + Square(p) * d && w == 0.0 && p == -s
    ensures g == Square(s) * d
  {
    hide Square;
    SquareIsTimes(s);
    SquareIsTimes(-s);
    SquareIsTimes(0.0);
  }

  lemma ErrorGap(n: real, tot: real, res: real, g: real)
    requires tot == res + g
    ensures n * (tot - res) == n * g
  {
  }

  lemma OffLevel(m: Sums, s: real, t: real, mean: real, p: real, q: real)
    requires Solves(m, s, t) && m.n * mean == m.y && p == -s && q == mean - t
    ensures m.n * q + p * m.x == 0.0
  {
    assert m.n * q == m.n * mean - m.n * t && p * m.x == -(s * m.x);
  }

  lemma MeanTimes(v: seq<real>)
    requires v != []
    ensures |v| as real * MeanOf(v) == SumsOf(v, |v|).y
  {
    hide SumsOf;
    Quotient(SumsOf(v, |v|).y, |v| as real);
  }

  lemma Quotient(a: real, d: real)
    requires d != 0.0
    ensures d * (a / d) == a
  {
  }

  /** The errors of the mean and of the line, and the slope. */
  lemma ErrorsBySlope(v: seq<real>)
    requires |v| >= 2
    ensures var (f, n) := (LinearRegression(v), |v| as real);
            n * (SquaredError(v, 0.0, MeanOf(v)) - SquaredError(v, f.slope, f.intercept)) ==
            Square(f.slope) * Denominator(SumsOf(v, |v|))
  {
    hide LinearRegression, Denominator, Slope, Intercept, SumsOf, ErrorTo, ErrorForm, Solves, MeanOf, Square;
    var m, f := SumsOf(v, |v|), LinearRegression(v);
    FitOf(v);
    EnoughPoints(v);
    NormalEquations(m);
    MeanTimes(v);
    ErrorExpands(v, 0.0, MeanOf(v), |v|);
    ErrorExpands(v, f.slope, f.intercept, |v|);
    ShareMoved(m, f.slope, f.intercept, MeanOf(v));
  }

  lemma DenominatorIs(v: seq<real>)
    ensures var r := |v| as real;
            12.0 * Denominator(SumsOf(v, |v|)) == Square(r) * ((r - 1.0) * (r + 1.0))
  {
    hide SumsOf, Square;
    PositionSums(v, |v|);
    DenominatorForm(|v| as real, SumsOf(v, |v|).x, SumsOf(v, |v|).x2);
  }

  lemma CancelCount(n: real, r2: real, tot: real, res: real, q: real, d: real)
    requires n > 0.0 && (1.0 - r2) * tot == res && n * (tot - res) == q * d
    requires 12.0 * d == Square(n) * ((n - 1.0) * (n + 1.0))
    ensures 12.0 * (r2 * tot) == q * (n * ((n - 1.0) * (n + 1.0)))
  {
    hide Square;
    var w := (n - 1.0) * (n + 1.0);
    assert tot - res == r2 * tot;
    assert 12.0 * (q * d) == q * (Square(n) * w);
    assert Square(n) * w == n * (n * w) by { SquareIsTimes(n); assert (n * n) * w == n * (n * w); }
    assert n * (12.0 * (r2 * tot)) == n * (q * (n * w));
    CancelFactor(n, 12.0 * (r2 * tot), q * (n * w));
  }

  lemma CancelFactor(n: real, x: real, y: real)
    requires n > 0.0 && n * x == n * y
    ensures x == y
  {
    assert n * (x - y) == 0.0;
    if x != y { ProductSign(n, x - y); ProductSign(n, y - x); }
  }

  /** The coefficient by the slope: their ratio depends on the number of values and their spread only. */
  lemma DeterminationOfSlope(v: seq<real>)
    requires |v| >= 2
    ensures var (f, n) := (LinearRegression(v), |v| as real);
            12.0 * (f.r2 * SquaredError(v, 0.0, MeanOf(v))) == Square(f.slope) * (n * ((n - 1.0) * (n + 1.0)))
  {
    hide LinearRegression, Denominator, SumsOf, SquaredError, MeanOf, Square;
    var f := LinearRegression(v);
    DeterminationIsShare(v);
    ErrorsBySlope(v);
    DenominatorIs(v);
    CancelCount(|v| as real, f.r2, SquaredError(v, 0.0, MeanOf(v)), SquaredError(v, f.slope, f.intercept),
                Square(f.slope), Denominator(SumsOf(v, |v|)));
  }

  // ------------------------------------------------------------------
  // Reading the history backwards
  // ------------------------------------------------------------------

  function Reverse(v: seq<real>): (r: seq<real>)
    ensures |r| == |v|
    ensures forall i :: 0 <= i < |v| ==> r[i] == v[|v| - 1 - i]
  {
    if v == [] then [] else Reverse(v[1..]) + [v[0]]
  }

  lemma SumsStep(v: seq<real>, k: nat)
    requires 0 < k <= |v|
    ensures SumsOf(v, k).y == SumsOf(v, k - 1).y + v[k - 1]
    ensures SumsOf(v, k).xy == SumsOf(v, k - 1).xy + (k - 1) as real * v[k - 1]
    ensures SumsOf(v, k).y2 == SumsOf(v, k - 1).y2 + Square(v[k - 1])
  {
  }

  /** Value `y` moves from position `n - i` to position `i`. */
  lemma ReverseStep(n: real, i: real, s: real, y: real)
    ensures n * s + i * y == n * (s + y) - (n - i) * y
  {
  }

  /** The sums of the reversed values, from the sums of the values that remain. */
  lemma {:induction false} ReverseSums(v: seq<real>, w: seq<real>, k: nat)
    requires |w| == |v| && k <= |v|
    requires forall i :: 0 <= i < |v| ==> w[i] == v[|v| - 1 - i]
    ensures SumsOf(w, k).y == SumsOf(v, |v|).y - SumsOf(v, |v| - k).y
    ensures SumsOf(w, k).xy == (|v| - 1) as real * (SumsOf(v, |v|).y - SumsOf(v, |v| - k).y)
                               - (SumsOf(v, |v|).xy - SumsOf(v, |v| - k).xy)
  {
    hide Push;
    if k > 0 {
      ReverseSums(v, w, k - 1);
      SumsStep(w, k);
      SumsStep(v, |v| - k + 1);
      assert w[k - 1] == v[|v| - k];
      assert (|v| - k) as real == (|v| - 1) as real - (k - 1) as real;
      ReverseStep((|v| - 1) as real, (k - 1) as real, SumsOf(v, |v|).y - SumsOf(v, |v| - k + 1).y, w[k - 1]);
    }
  }

  /** Newest-first instead of oldest-first: the slope changes sign. */
  lemma ReversedSlope(v: seq<real>)
    ensures LinearRegression(Reverse(v)).slope == -LinearRegression(v).slope
  {
    if |v| >= 2 { ReversedFit(v); }
  }

  lemma ReversedFit(v: seq<real>)
    requires |v| >= 2
    ensures LinearRegression(Reverse(v)).slope == -LinearRegression(v).slope
  {
    hide Slope, Denominator, SumsOf, LinearRegression;
    FitOf(v);
    FitOf(Reverse(v));
    ReversedSums(v);
    NegatedSlope(SumsOf(v, |v|), SumsOf(Reverse(v), |v|));
  }

  ghost predicate Mirrored(m: Sums, w: Sums) {
    && w.n == m.n && w.x == m.x && w.x2 == m.x2 && w.y == m.y
    && 2.0 * m.x == m.n * (m.n - 1.0) && w.xy == (m.n - 1.0) * m.y - m.xy
  }

  lemma ReversedSums(v: seq<real>)
    requires |v| > 0
    ensures Mirrored(SumsOf(v, |v|), SumsOf(Reverse(v), |v|))
  {
    hide *;
    SumsPlaced(v);
    SumsPlaced(Reverse(v));
    SumsTurned(v);
    TurnedIsMirrored(SumsOf(v, |v|), SumsOf(Reverse(v), |v|), |v| as real);
  }

  /** The sums that depend on positions only. */
  ghost predicate Placed(m: Sums, r: real) {
    m.n == r && 2.0 * m.x == r * (r - 1.0) && 6.0 * m.x2 == r * (r - 1.0) * (2.0 * r - 1.0)
  }

  /** The sums that depend on values, read backwards. */
  ghost predicate Turned(m: Sums, w: Sums, r: real) {
    w.y == m.y && w.xy == (r - 1.0) * m.y - m.xy
  }

  lemma SumsPlaced(v: seq<real>)
    ensures Placed(SumsOf(v, |v|), |v| as real)
  {
    hide SumsOf;
    PositionSums(v, |v|);
  }

  lemma SumsTurned(v: seq<real>)
    requires |v| > 0
    ensures |Reverse(v)| == |v| && Turned(SumsOf(v, |v|), SumsOf(Reverse(v), |v|), |v| as real)
  {
    hide SumsOf, Turned;
    WholeReverse(v, Reverse(v));
  }

  lemma TurnedIsMirrored(m: Sums, w: Sums, r: real)
    requires Placed(m, r) && Placed(w, r) && Turned(m, w, r)
    ensures Mirrored(m, w)
  {
  }

  lemma WholeReverse(v: seq<real>, w: seq<real>)
    requires |w| == |v| > 0
    requires forall i :: 0 <= i < |v| ==> w[i] == v[|v| - 1 - i]
    ensures Turned(SumsOf(v, |v|), SumsOf(w, |v|), |v| as real)
  {
    hide SumsOf, Turned;
    ReverseSums(v, w, |v|);
    NoSums(v);
    TurnedFrom(SumsOf(v, |v|), SumsOf(v, 0), SumsOf(w, |v|), (|v| - 1) as real, |v| as real);
  }

  lemma TurnedFrom(m: Sums, rest: Sums, w: Sums, n: real, r: real)
    requires rest.y == 0.0 && rest.xy == 0.0 && n == r - 1.0
    requires w.y == m.y - rest.y && w.xy == n * (m.y - rest.y) - (m.xy - rest.xy)
    ensures Turned(m, w, r)
  {
    assert m.y - rest.y == m.y;
  }

  lemma NoSums(v: seq<real>)
    ensures SumsOf(v, 0).y == 0.0 && SumsOf(v, 0).xy == 0.0 && SumsOf(v, 0).y2 == 0.0
  {
  }

  lemma NegatedSlope(m: Sums, w: Sums)
    requires Mirrored(m, w) && Denominator(m) > 0.0
    ensures Slope(w) == -Slope(m)
  {
    NegatedTop(m.n, m.x, m.y, m.xy);
    NegatedQuotient(m.n * m.xy - m.x * m.y, Denominator(m));
  }

  lemma NegatedTop(n: real, x: real, y: real, xy: real)
    requires 2.0 * x == n * (n - 1.0)
    ensures n * ((n - 1.0) * y - xy) - x * y == -(n * xy - x * y)
  {
    assert n * ((n - 1.0) * y - xy) == (n * (n - 1.0)) * y - n * xy;
    assert (2.0 * x) * y == x * y + x * y;
  }

  lemma NegatedQuotient(a: real, d: real)
    requires d > 0.0
    ensures (-a) / d == -(a / d)
  {
  }

  lemma {:induction false} ReverseSquares(v: seq<real>, w: seq<real>, k: nat)
    requires |w| == |v| && k <= |v|
    requires forall i :: 0 <= i < |v| ==> w[i] == v[|v| - 1 - i]
    ensures SumsOf(w, k).y2 == SumsOf(v, |v|).y2 - SumsOf(v, |v| - k).y2
  {
    hide Push, Square;
    if k > 0 {
      ReverseSquares(v, w, k - 1);
      SumsStep(w, k);
      SumsStep(v, |v| - k + 1);
      assert w[k - 1] == v[|v| - k];
    }
  }

  lemma FlatError(m: Sums, w: Sums, b: real)
    requires w.n == m.n && w.y == m.y && w.y2 == m.y2
    ensures ErrorForm(w, 0.0, b) == ErrorForm(m, 0.0, b)
  {
  }

  /** Distances from a level line do not depend on the order. */
  lemma ReversedError(v: seq<real>, b: real)
    requires |v| > 0
    ensures SquaredError(Reverse(v), 0.0, b) == SquaredError(v, 0.0, b)
    ensures SumsOf(Reverse(v), |v|).y == SumsOf(v, |v|).y
  {
    hide SumsOf, ErrorForm, ErrorTo, Reverse;
    var w := Reverse(v);
    ReversedSums(v);
    ReverseSquares(v, w, |v|);
    NoSums(v);
    ErrorExpands(v, 0.0, b, |v|);
    ErrorExpands(w, 0.0, b, |v|);
    FlatError(SumsOf(v, |v|), SumsOf(w, |v|), b);
  }
}
