/**
 * `simpleLinearRegression` and `calculateMetrics`: the closed-form least
 * squares line and its error metrics, over exact reals lifted to JavaScript
 * numbers so that the zero denominators give NaN and infinities as they do.
 */
module Regression {
  import opened Sums
  import opened Numbers

  datatype RegressionLine = RegressionLine(slope: Number, intercept: Number)

  datatype Metrics = Metrics(mae: Number, mse: Number, rmse: Number, r2: Number)

  /**
   * `simpleLinearRegression`: slope `(n·Σxy - Σx·Σy) / (n·Σx² - (Σx)²)` and
   * intercept `meanY - slope·meanX`. Its one caller passes columns of equal length.
   */
  function SimpleLinearRegression(x: seq<real>, y: seq<real>): RegressionLine
    requires |x| == |y|
  {
    FitFrom(|x| as real, Sum(x), Sum(y), Dot(x, y), SumSquares(x))
  }

  /** The arithmetic of `simpleLinearRegression` once the four sums are taken. */
  function FitFrom(n: real, sumX: real, sumY: real, sumXY: real, sumXX: real): RegressionLine
  {
    var meanX := Div(Finite(sumX), Finite(n));
    var meanY := Div(Finite(sumY), Finite(n));
    var slope := Div(Finite(n * sumXY - sumX * sumY), Finite(n * sumXX - sumX * sumX));
    var intercept := Sub(meanY, Mul(slope, meanX));
    RegressionLine(slope, intercept)
  }

  /** `slope * xi + intercept` */
  function LineAt(line: RegressionLine, xi: real): Number
  {
    Add(Mul(line.slope, Finite(xi)), line.intercept)
  }

  /** `x.map(xi => slope * xi + intercept)` */
  function Predictions(x: seq<real>, line: RegressionLine): (p: seq<Number>)
    ensures |p| == |x|
  {
    seq(|x|, i requires 0 <= i < |x| => LineAt(line, x[i]))
  }

  /** `yTrue.map((y, i) => y - yPred[i])` */
  function ResidualsN(yTrue: seq<real>, yPred: seq<Number>): (r: seq<Number>)
    requires |yTrue| == |yPred|
    ensures |r| == |yTrue|
  {
    seq(|yTrue|, i requires 0 <= i < |yTrue| => Sub(Finite(yTrue[i]), yPred[i]))
  }

  /** `y - meanYTrue` for every `y` */
  function Centered(yTrue: seq<real>, mean: Number): (d: seq<Number>)
    ensures |d| == |yTrue|
  {
    seq(|yTrue|, i requires 0 <= i < |yTrue| => Sub(Finite(yTrue[i]), mean))
  }

  function AbsAll(s: seq<Number>): (a: seq<Number>)
    ensures |a| == |s|
  {
    seq(|s|, i requires 0 <= i < |s| => AbsN(s[i]))
  }

  function SquareAll(s: seq<Number>): (q: seq<Number>)
    ensures |q| == |s|
  {
    seq(|s|, i requires 0 <= i < |s| => Mul(s[i], s[i]))
  }

  /**
   * `calculateMetrics`: mean absolute error, mean squared error, its root,
   * and `r2 = 1 - ssResidual / ssTotal`. `sqrt` stands for `Math.sqrt`.
   * Its one caller passes predictions for every observed value.
   */
  function CalculateMetrics(yTrue: seq<real>, yPred: seq<Number>, sqrt: real -> real): Metrics
    requires |yTrue| == |yPred|
  {
    var n := Finite(|yTrue| as real);
    var residuals := ResidualsN(yTrue, yPred);
    var meanYTrue := Div(Finite(Sum(yTrue)), n);
    MetricsFrom(n, SumN(AbsAll(residuals)), SumN(SquareAll(residuals)),
                SumN(SquareAll(Centered(yTrue, meanYTrue))), sqrt)
  }

  /** The arithmetic of `calculateMetrics` once the sums are taken. */
  function MetricsFrom(n: Number, sumAbs: Number, ssResidual: Number, ssTotal: Number, sqrt: real -> real): Metrics
  {
    var mae := Div(sumAbs, n);
    var mse := Div(ssResidual, n);
    var rmse := SqrtN(mse, sqrt);
    var r2 := Sub(Finite(1.0), Div(ssResidual, ssTotal));
    Metrics(mae, mse, rmse, r2)
  }

  // ---------------------------------------------------------------------
  // The fitted line

  /** A zero denominator over a zero numerator: slope `0/0`, so both coefficients are NaN. */
  lemma {:induction false} FitOfFlatColumn(n: real, sx: real, sy: real, sxy: real, sxx: real)
    requires n * sxy - sx * sy == 0.0 && n * sxx - sx * sx == 0.0
    ensures FitFrom(n, sx, sy, sxy, sxx) == RegressionLine(NaN, NaN)
  {
  }

  /** A positive denominator gives a finite slope and intercept. */
  lemma {:induction false} FitOfSpreadColumn(n: real, sx: real, sy: real, sxy: real, sxx: real)
    requires n > 0.0 && n * sxx - sx * sx > 0.0
    ensures FitFrom(n, sx, sy, sxy, sxx).slope == Finite((n * sxy - sx * sy) / (n * sxx - sx * sx))
    ensures FitFrom(n, sx, sy, sxy, sxx).intercept
            == Finite(sy / n - FitFrom(n, sx, sy, sxy, sxx).slope.value * (sx / n))
  {
  }

  /**
   * The slope is NaN exactly when all x values are equal (including no
   * values at all), and never infinite; with an undefined slope the
   * intercept is NaN too.
   */
  lemma {:induction false} SlopeUndefinedIffConstant(x: seq<real>, y: seq<real>)
    requires |x| == |y|
    ensures SimpleLinearRegression(x, y).slope.NaN? <==> Constant(x)
    ensures !SimpleLinearRegression(x, y).slope.Infinity?
    ensures Constant(x) ==> SimpleLinearRegression(x, y).intercept == NaN
  {
    if Constant(x) {
      ConstantXUndefinedFit(x, y);
    } else {
      VaryingXFiniteFit(x, y);
    }
  }

  lemma {:induction false} ConstantXUndefinedFit(x: seq<real>, y: seq<real>)
    requires |x| == |y| && Constant(x)
    ensures SimpleLinearRegression(x, y) == RegressionLine(NaN, NaN)
  {
    var c := if |x| == 0 then 0.0 else x[0];
    SumOfConstant(x, c);
    DotWithConstant(x, y, c);
    ConstantColumnTerms(|x| as real, c, Sum(y), Sum(x), Dot(x, y), SumSquares(x));
  }

  lemma {:induction false} VaryingXFiniteFit(x: seq<real>, y: seq<real>)
    requires |x| == |y| && !Constant(x)
    ensures SimpleLinearRegression(x, y).slope.Finite?
    ensures SimpleLinearRegression(x, y).intercept.Finite?
  {
    VaryingDenominator(x);
    FitThroughMeanPoint(|x| as real, Sum(x), Sum(y), Dot(x, y), SumSquares(x));
  }

  lemma {:induction false} ConstantColumnTerms(n: real, c: real, sy: real, sx: real, sxy: real, sxx: real)
    requires sx == n * c && sxx == n * (c * c) && sxy == c * sy
    ensures FitFrom(n, sx, sy, sxy, sxx) == RegressionLine(NaN, NaN)
  {
    assert n * sxy - sx * sy == 0.0 && n * sxx - sx * sx == 0.0;
    FitOfFlatColumn(n, sx, sy, sxy, sxx);
  }

  /** The slope's denominator `n·Σx² - (Σx)²` is positive when the x values vary. */
  lemma {:induction false} VaryingDenominator(x: seq<real>)
    requires !Constant(x)
    ensures |x| > 0
    ensures (|x| as real) * SumSquares(x) - Sum(x) * Sum(x) > 0.0
  {
    if |x| == 0 {
      assert false;
    }
    var spread := SumSquares(Deviations(x, Mean(x)));
    CenteredSquares(x);
    SumSquaresNonnegative(Deviations(x, Mean(x)));
    SpreadZeroIffConstant(x);
    PositiveProduct(|x| as real, spread);
  }

  lemma {:induction false} PositiveProduct(a: real, b: real)
    requires a > 0.0 && b > 0.0
    ensures a * b > 0.0
  {
  }

  /**
   * With varying x the line is finite and passes through the mean point
   * `(meanX, meanY)`.
   */
  lemma {:induction false} FitPassesThroughMeans(x: seq<real>, y: seq<real>)
    requires |x| == |y| && !Constant(x)
    ensures SimpleLinearRegression(x, y).slope.Finite?
    ensures SimpleLinearRegression(x, y).intercept.Finite?
    ensures var line := SimpleLinearRegression(x, y);
      ThroughMeanPoint(x, y, line.slope.value, line.intercept.value)
  {
    VaryingDenominator(x);
    FitThroughMeanPoint(|x| as real, Sum(x), Sum(y), Dot(x, y), SumSquares(x));
  }

  lemma {:induction false} FitThroughMeanPoint(n: real, sx: real, sy: real, sxy: real, sxx: real)
    requires n > 0.0 && n * sxx - sx * sx > 0.0
    ensures var line := FitFrom(n, sx, sy, sxy, sxx);
      line.slope.Finite? && line.intercept.Finite? &&
      line.slope.value * (sx / n) + line.intercept.value == sy / n
  {
    FitOfSpreadColumn(n, sx, sy, sxy, sxx);
    var line := FitFrom(n, sx, sy, sxy, sxx);
    InterceptBalances(n, sx, sy, line.slope.value, line.intercept.value);
  }

  lemma {:induction false} InterceptBalances(n: real, sx: real, sy: real, a: real, b: real)
    requires n > 0.0 && b == sy / n - a * (sx / n)
    ensures sy - a * sx - n * b == 0.0
    ensures a * (sx / n) + b == sy / n
  {
    assert n * (sx / n) == sx;
    assert n * (sy / n) == sy;
    calc {
      n * b;
    ==
      n * (sy / n) - n * (a * (sx / n));
    ==
      sy - a * (n * (sx / n));
    ==
      sy - a * sx;
    }
  }

  /**
   * The normal equations of least squares: the residuals of the fitted line
   * sum to zero and are orthogonal to x.
   */
  lemma {:induction false} NormalEquations(x: seq<real>, y: seq<real>)
    requires |x| == |y| && !Constant(x)
    ensures var line := SimpleLinearRegression(x, y);
      line.slope.Finite? && line.intercept.Finite? &&
      var r := Residuals(y, Line(x, line.slope.value, line.intercept.value));
      Sum(r) == 0.0 && Dot(x, r) == 0.0
  {
    VaryingDenominator(x);
    FitBalances(x, y);
    var line := SimpleLinearRegression(x, y);
    BalancedLine(x, y, line.slope.value, line.intercept.value);
  }

  /** A line solving the normal equations leaves residuals that sum to zero and are orthogonal to x. */
  lemma {:induction false} BalancedLine(x: seq<real>, y: seq<real>, a: real, b: real)
    requires |x| == |y|
    requires ResidualTotal(x, y, a, b) == 0.0 && ResidualMoment(x, y, a, b) == 0.0
    ensures Sum(Residuals(y, Line(x, a, b))) == 0.0 && Dot(x, Residuals(y, Line(x, a, b))) == 0.0
  {
    ResidualSumsHold(x, y, a, b);
  }

  /** `a·Σx + n·b = Σy` and `a·Σx² + b·Σx = Σxy`: the line `(a, b)` solves the normal equations in the sums. */
  ghost predicate Balanced(n: real, sx: real, sy: real, sxy: real, sxx: real, a: real, b: real)
  {
    sy - a * sx - n * b == 0.0 && sxy - a * sxx - b * sx == 0.0
  }

  /** With a positive denominator the fitted coefficients solve the normal equations. */
  lemma {:induction false} FitBalances(x: seq<real>, y: seq<real>)
    requires |x| == |y| && (|x| as real) * SumSquares(x) - Sum(x) * Sum(x) > 0.0
    ensures var line := SimpleLinearRegression(x, y);
      && line.slope.Finite? && line.intercept.Finite?
      && ResidualTotal(x, y, line.slope.value, line.intercept.value) == 0.0
      && ResidualMoment(x, y, line.slope.value, line.intercept.value) == 0.0
  {
    assert (|x| as real) * SumSquares(x) - Sum(x) * Sum(x) > 0.0;
    NormalEquationTerms(|x| as real, Sum(x), Sum(y), Dot(x, y), SumSquares(x));
  }

  lemma {:induction false} NormalEquationTerms(n: real, sx: real, sy: real, sxy: real, sxx: real)
    requires n > 0.0 && n * sxx - sx * sx > 0.0
    ensures var line := FitFrom(n, sx, sy, sxy, sxx);
      && line.slope.Finite? && line.intercept.Finite?
      && Balanced(n, sx, sy, sxy, sxx, line.slope.value, line.intercept.value)
  {
    FitOfSpreadColumn(n, sx, sy, sxy, sxx);
    var line := FitFrom(n, sx, sy, sxy, sxx);
    InterceptBalances(n, sx, sy, line.slope.value, line.intercept.value);
    SlopeBalances(n, sx, sy, sxy, sxx, line.slope.value, line.intercept.value);
  }

  lemma {:induction false} SlopeBalances(n: real, sx: real, sy: real, sxy: real, sxx: real, a: real, b: real)
    requires n > 0.0 && n * sxx - sx * sx > 0.0
    requires a == (n * sxy - sx * sy) / (n * sxx - sx * sx)
    requires sy - a * sx - n * b == 0.0
    ensures sxy - a * sxx - b * sx == 0.0
  {
    var d := n * sxx - sx * sx;
    assert a * d == n * sxy - sx * sy;
    calc {
      n * (sxy - a * sxx - b * sx);
    ==
      n * sxy - a * (n * sxx) - (n * b) * sx;
    ==
      n * sxy - a * (n * sxx) - (sy - a * sx) * sx;
    ==
      (n * sxy - sx * sy) - a * d;
    ==
      0.0;
    }
    ZeroFactor(n, sxy - a * sxx - b * sx);
  }

  lemma {:induction false} ZeroFactor(n: real, e: real)
    requires n != 0.0 && n * e == 0.0
    ensures e == 0.0
  {
  }

  /** No line has a smaller sum of squared errors than the fitted one. */
  lemma {:induction false} LeastSquares(x: seq<real>, y: seq<real>, a2: real, b2: real)
    requires |x| == |y| && !Constant(x)
    ensures var line := SimpleLinearRegression(x, y);
      line.slope.Finite? && line.intercept.Finite? &&
      Sse(x, y, line.slope.value, line.intercept.value) <= Sse(x, y, a2, b2)
  {
    NormalEquations(x, y);
    var line := SimpleLinearRegression(x, y);
    var a, b := line.slope.value, line.intercept.value;
    SseShift(x, y, a, b, a2, b2);
    SumSquaresNonnegative(Line(x, a2 - a, b2 - b));
  }

  /** Points lying exactly on a line with varying x give back that line. */
  lemma {:induction false} PerfectLineRecovered(x: seq<real>, a: real, b: real)
    requires !Constant(x)
    ensures SimpleLinearRegression(x, Line(x, a, b)) == RegressionLine(Finite(a), Finite(b))
  {
    VaryingDenominator(x);
    LineBalanced(x, a, b);
    FitOfBalancedLine(x, Line(x, a, b), a, b);
  }

  /** The points of a line solve the normal equations for that line. */
  lemma {:induction false} LineBalanced(x: seq<real>, a: real, b: real)
    ensures ResidualTotal(x, Line(x, a, b), a, b) == 0.0 && ResidualMoment(x, Line(x, a, b), a, b) == 0.0
  {
    var p := Line(x, a, b);
    LineIsAffine(x, a, b);
    SumOfAffine(x, p, a, b);
    DotOfLine(x, a, b);
    LineBalancedFinish(x, p, a, b);
  }

  lemma {:induction false} LineBalancedFinish(x: seq<real>, p: seq<real>, a: real, b: real)
    requires |x| == |p|
    requires Sum(p) == a * Sum(x) + (|x| as real) * b
    requires Dot(x, p) == a * SumSquares(x) + b * Sum(x)
    ensures ResidualTotal(x, p, a, b) == 0.0 && ResidualMoment(x, p, a, b) == 0.0
  {
    assert Sum(p) - a * Sum(x) - (|x| as real) * b == 0.0;
    assert Dot(x, p) - a * SumSquares(x) - b * Sum(x) == 0.0;
  }

  /** With a positive denominator, a line solving the normal equations is the fitted line. */
  lemma {:induction false} FitOfBalancedLine(x: seq<real>, y: seq<real>, a: real, b: real)
    requires |x| == |y| && (|x| as real) * SumSquares(x) - Sum(x) * Sum(x) > 0.0
    requires ResidualTotal(x, y, a, b) == 0.0 && ResidualMoment(x, y, a, b) == 0.0
    ensures SimpleLinearRegression(x, y) == RegressionLine(Finite(a), Finite(b))
  {
    assert (|x| as real) * SumSquares(x) - Sum(x) * Sum(x) > 0.0;
    PerfectLineTerms(|x| as real, Sum(x), SumSquares(x), Sum(y), Dot(x, y), a, b);
  }

  lemma {:induction false} PerfectLineTerms(n: real, sx: real, sxx: real, sy: real, sxy: real, a: real, b: real)
    requires n > 0.0 && n * sxx - sx * sx > 0.0
    requires Balanced(n, sx, sy, sxy, sxx, a, b)
    ensures FitFrom(n, sx, sy, sxy, sxx) == RegressionLine(Finite(a), Finite(b))
  {
    BalancedCoefficients(n, sx, sxx, sy, sxy, a, b);
    FitOfSpreadColumn(n, sx, sy, sxy, sxx);
  }

  lemma {:induction false} BalancedCoefficients(n: real, sx: real, sxx: real, sy: real, sxy: real, a: real, b: real)
    requires n > 0.0 && n * sxx - sx * sx > 0.0
    requires sy - a * sx - n * b == 0.0 && sxy - a * sxx - b * sx == 0.0
    ensures (n * sxy - sx * sy) / (n * sxx - sx * sx) == a
    ensures sy / n - a * (sx / n) == b
  {
    BalancedSlope(n, sx, sxx, sy, sxy, a, b);
    BalancedIntercept(n, sx, sy, a, b);
  }

  lemma {:induction false} BalancedSlope(n: real, sx: real, sxx: real, sy: real, sxy: real, a: real, b: real)
    requires n * sxx - sx * sx > 0.0
    requires sy == a * sx + n * b && sxy == a * sxx + b * sx
    ensures (n * sxy - sx * sy) / (n * sxx - sx * sx) == a
  {
    calc {
      n * sxy - sx * sy;
    ==
      n * (a * sxx + b * sx) - sx * (a * sx + n * b);
    ==
      a * (n * sxx - sx * sx);
    }
  }

  lemma {:induction false} BalancedIntercept(n: real, sx: real, sy: real, a: real, b: real)
    requires n > 0.0 && sy == a * sx + n * b
    ensures sy / n - a * (sx / n) == b
  {
    assert n * (sx / n) == sx;
    assert sy / n == a * (sx / n) + b;
  }

  // ---------------------------------------------------------------------
  // The metrics

  /** `mae`, `mse` and `rmse` are finite and non-negative, and `rmse` is the root of `mse`. */
  ghost predicate SoundErrors(m: Metrics)
  {
    && m.mae.Finite? && m.mae.value >= 0.0
    && m.mse.Finite? && m.mse.value >= 0.0
    && m.rmse.Finite? && m.rmse.value >= 0.0 && m.rmse.value * m.rmse.value == m.mse.value
  }

  /** `r2` is `1 - ssRes/ssTot` over a positive total, and NaN (`0/0`) or `-Infinity` over a zero one. */
  ghost predicate R2Is(m: Metrics, ssRes: real, ssTot: real)
  {
    && (ssTot > 0.0 ==> m.r2 == Finite(1.0 - ssRes / ssTot))
    && (ssTot == 0.0 ==> m.r2 == if ssRes == 0.0 then NaN else Infinity(true))
  }

  /**
   * The metrics over finite sums: `mae` and `mse` are the sums over the
   * count, `rmse` the root of `mse`, and `r2` as `R2Is` says.
   */
  lemma {:induction false} MetricsOfFiniteSums(n: real, sumAbs: real, ssRes: real, ssTot: real, sqrt: real -> real)
    requires n > 0.0 && sumAbs >= 0.0 && ssRes >= 0.0 && ssTot >= 0.0 && IsSquareRoot(sqrt)
    ensures var m := MetricsFrom(Finite(n), Finite(sumAbs), Finite(ssRes), Finite(ssTot), sqrt);
      && m.mae == Finite(sumAbs / n)
      && m.mse == Finite(ssRes / n)
      && SoundErrors(m)
      && R2Is(m, ssRes, ssTot)
  {
    NonnegativeQuotient(sumAbs, n);
    NonnegativeQuotient(ssRes, n);
  }

  lemma {:induction false} NonnegativeQuotient(a: real, n: real)
    requires a >= 0.0 && n > 0.0
    ensures a / n >= 0.0
  {
  }

  /** Predictions of a finite line are the line's values. */
  lemma {:induction false} FinitePredictions(x: seq<real>, a: real, b: real)
    ensures Predictions(x, RegressionLine(Finite(a), Finite(b))) == Finites(Line(x, a, b))
  {
    assert forall i :: 0 <= i < |x| ==>
      Predictions(x, RegressionLine(Finite(a), Finite(b)))[i] == Finites(Line(x, a, b))[i];
  }

  /** Residuals of finite predictions are the real residuals. */
  lemma {:induction false} FiniteResiduals(yTrue: seq<real>, p: seq<real>)
    requires |yTrue| == |p|
    ensures FiniteOf(ResidualsN(yTrue, Finites(p)), Residuals(yTrue, p))
  {
  }

  lemma {:induction false} SumNOfAbs(s: seq<Number>, r: seq<real>)
    requires FiniteOf(s, r)
    ensures SumN(AbsAll(s)) == Finite(SumAbs(r))
  {
    if |s| > 0 {
      assert AbsAll(s)[1..] == AbsAll(s[1..]);
      assert FiniteOf(s[1..], r[1..]);
      SumNOfAbs(s[1..], r[1..]);
    }
  }

  lemma {:induction false} SumNOfSquares(s: seq<Number>, r: seq<real>)
    requires FiniteOf(s, r)
    ensures SumN(SquareAll(s)) == Finite(SumSquares(r))
  {
    if |s| > 0 {
      assert SquareAll(s)[1..] == SquareAll(s[1..]);
      assert FiniteOf(s[1..], r[1..]);
      SumNOfSquares(s[1..], r[1..]);
    }
  }

  /** `ssTotal` is the spread of the observed values about their mean. */
  lemma {:induction false} TotalSquares(yTrue: seq<real>)
    requires |yTrue| > 0
    ensures var n := Finite(|yTrue| as real);
      SumN(SquareAll(Centered(yTrue, Div(Finite(Sum(yTrue)), n))))
        == Finite(SumSquares(Deviations(yTrue, Mean(yTrue))))
  {
    var c := Centered(yTrue, Finite(Mean(yTrue)));
    assert FiniteOf(c, Deviations(yTrue, Mean(yTrue)));
    SumNOfSquares(c, Deviations(yTrue, Mean(yTrue)));
  }

  /**
   * Over finite predictions of a non-empty series every metric is computed
   * from the real residuals: `mae` is their mean absolute value, `mse` their
   * mean square, `rmse` the root of `mse`, all finite and non-negative; the
   * total spread is zero exactly when the observed values are all equal, and
   * `r2` is `1 - SSres/SStot` over it (NaN or `-Infinity` over a zero spread).
   */
  lemma {:induction false} MetricsOfFinitePredictions(yTrue: seq<real>, p: seq<real>, sqrt: real -> real)
    requires |yTrue| == |p| && |p| > 0 && IsSquareRoot(sqrt)
    ensures var m := CalculateMetrics(yTrue, Finites(p), sqrt);
      var r := Residuals(yTrue, p);
      var n := |yTrue| as real;
      var ssTot := SumSquares(Deviations(yTrue, Mean(yTrue)));
      && m.mae == Finite(SumAbs(r) / n)
      && m.mse == Finite(SumSquares(r) / n)
      && SoundErrors(m)
      && ssTot >= 0.0 && (ssTot == 0.0 <==> Constant(yTrue))
      && R2Is(m, SumSquares(r), ssTot)
  {
    var r := Residuals(yTrue, p);
    var ssTot := SumSquares(Deviations(yTrue, Mean(yTrue)));
    FiniteSums(yTrue, p, sqrt);
    SumAbsNonnegative(r);
    SumSquaresNonnegative(r);
    SumSquaresNonnegative(Deviations(yTrue, Mean(yTrue)));
    SpreadZeroIffConstant(yTrue);
    MetricsOfFiniteSums(|yTrue| as real, SumAbs(r), SumSquares(r), ssTot, sqrt);
  }

  /** Over finite predictions the sums inside `calculateMetrics` are the real sums. */
  lemma {:induction false} FiniteSums(yTrue: seq<real>, p: seq<real>, sqrt: real -> real)
    requires |yTrue| == |p| && |p| > 0
    ensures var r := Residuals(yTrue, p);
      CalculateMetrics(yTrue, Finites(p), sqrt)
        == MetricsFrom(Finite(|yTrue| as real), Finite(SumAbs(r)), Finite(SumSquares(r)),
                       Finite(SumSquares(Deviations(yTrue, Mean(yTrue)))), sqrt)
  {
    var r := Residuals(yTrue, p);
    var residuals := ResidualsN(yTrue, Finites(p));
    FiniteResiduals(yTrue, p);
    SumNOfAbs(residuals, r);
    SumNOfSquares(residuals, r);
    TotalSquares(yTrue);
  }

  /** A single NaN prediction makes every metric NaN. */
  lemma {:induction false} NaNPredictionSpoilsMetrics(yTrue: seq<real>, yPred: seq<Number>, k: int, sqrt: real -> real)
    requires |yTrue| == |yPred| && 0 <= k < |yPred| && yPred[k] == NaN
    ensures CalculateMetrics(yTrue, yPred, sqrt) == Metrics(NaN, NaN, NaN, NaN)
  {
    var residuals := ResidualsN(yTrue, yPred);
    assert residuals[k] == NaN;
    SumNOfNaN(AbsAll(residuals), k);
    SumNOfNaN(SquareAll(residuals), k);
  }

  /** With all x values equal every prediction, and so every metric, is NaN. */
  lemma {:induction false} ConstantXSpoilsFit(x: seq<real>, y: seq<real>, sqrt: real -> real)
    requires |x| == |y| && |x| > 0 && Constant(x)
    ensures var line := SimpleLinearRegression(x, y);
      && (forall i :: 0 <= i < |x| ==> Predictions(x, line)[i] == NaN)
      && CalculateMetrics(y, Predictions(x, line), sqrt) == Metrics(NaN, NaN, NaN, NaN)
  {
    SlopeUndefinedIffConstant(x, y);
    NaNPredictionSpoilsMetrics(y, Predictions(x, SimpleLinearRegression(x, y)), 0, sqrt);
  }

  /**
   * The metrics of the fitted line on varying x: finite errors, and an `r2`
   * that lies in `[0, 1]` when y varies and is NaN (a perfect fit over a
   * zero spread) when it does not.
   */
  lemma {:induction false} MetricsOfFit(x: seq<real>, y: seq<real>, sqrt: real -> real)
    requires |x| == |y| && !Constant(x) && IsSquareRoot(sqrt)
    ensures var m := CalculateMetrics(y, Predictions(x, SimpleLinearRegression(x, y)), sqrt);
      && SoundErrors(m)
      && (Constant(y) ==> m.r2 == NaN)
      && (!Constant(y) ==> m.r2.Finite? && 0.0 <= m.r2.value <= 1.0)
  {
    VaryingDenominator(x);
    var line := SimpleLinearRegression(x, y);
    LeastSquares(x, y, 0.0, Mean(y));
    var a, b := line.slope.value, line.intercept.value;
    FinitePredictions(x, a, b);
    var p := Line(x, a, b);
    MetricsOfFinitePredictions(y, p, sqrt);
    FlatLineResiduals(x, y, Mean(y));
    var ssRes := SumSquares(Residuals(y, p));
    var ssTot := SumSquares(Deviations(y, Mean(y)));
    assert ssRes <= ssTot;
    SumSquaresNonnegative(Residuals(y, p));
    R2OfFit(CalculateMetrics(y, Predictions(x, line), sqrt), ssRes, ssTot);
  }

  /**
   * Points lying exactly on a line with varying x are fitted without error:
   * `mae`, `mse` and `rmse` are zero, and `r2` is 1, or NaN (`0/0`) when the
   * line is flat and so every y is the same.
   */
  lemma {:induction false} PerfectFitMetrics(x: seq<real>, a: real, b: real, sqrt: real -> real)
    requires !Constant(x) && IsSquareRoot(sqrt)
    ensures var y := Line(x, a, b);
      var m := CalculateMetrics(y, Predictions(x, SimpleLinearRegression(x, y)), sqrt);
      && m.mae == Finite(0.0) && m.mse == Finite(0.0) && m.rmse == Finite(0.0)
      && (Constant(y) ==> m.r2 == NaN)
      && (!Constant(y) ==> m.r2 == Finite(1.0))
  {
    VaryingDenominator(x);
    PerfectLineRecovered(x, a, b);
    FinitePredictions(x, a, b);
    ExactPredictions(Line(x, a, b), sqrt);
  }

  /** Predictions equal to the observed values score zero errors and an `r2` of 1, or NaN over a zero spread. */
  lemma {:induction false} ExactPredictions(y: seq<real>, sqrt: real -> real)
    requires |y| > 0 && IsSquareRoot(sqrt)
    ensures var m := CalculateMetrics(y, Finites(y), sqrt);
      && m.mae == Finite(0.0) && m.mse == Finite(0.0) && m.rmse == Finite(0.0)
      && (Constant(y) ==> m.r2 == NaN)
      && (!Constant(y) ==> m.r2 == Finite(1.0))
  {
    FiniteSums(y, y, sqrt);
    ZeroResiduals(y);
    SumSquaresNonnegative(Deviations(y, Mean(y)));
    SpreadZeroIffConstant(y);
    MetricsOfZeroSums(|y| as real, SumSquares(Deviations(y, Mean(y))), sqrt);
  }

  lemma {:induction false} ZeroResiduals(y: seq<real>)
    ensures SumAbs(Residuals(y, y)) == 0.0 && SumSquares(Residuals(y, y)) == 0.0
  {
    var r := Residuals(y, y);
    assert forall i :: 0 <= i < |r| ==> r[i] == 0.0;
    SumAbsNonnegative(r);
    SumSquaresNonnegative(r);
  }

  /** Zero residual sums give zero errors, and `r2` is 1 over a positive total and NaN over a zero one. */
  lemma {:induction false} MetricsOfZeroSums(n: real, ssTot: real, sqrt: real -> real)
    requires n > 0.0 && ssTot >= 0.0 && IsSquareRoot(sqrt)
    ensures var m := MetricsFrom(Finite(n), Finite(0.0), Finite(0.0), Finite(ssTot), sqrt);
      && m.mae == Finite(0.0) && m.mse == Finite(0.0) && m.rmse == Finite(0.0)
      && (ssTot == 0.0 ==> m.r2 == NaN)
      && (ssTot > 0.0 ==> m.r2 == Finite(1.0))
  {
    ZeroRoot(sqrt);
  }

  /** The non-negative square root of zero is zero. */
  lemma {:induction false} ZeroRoot(sqrt: real -> real)
    requires IsSquareRoot(sqrt)
    ensures sqrt(0.0) == 0.0
  {
    ZeroSquare(sqrt(0.0));
  }

  lemma {:induction false} ZeroSquare(u: real)
    requires u * u == 0.0
    ensures u == 0.0
  {
    if u != 0.0 {
      calc {
        0.0;
      ==
        u * u;
      > { SquarePositive(u); }
        0.0;
      }
    }
  }

  lemma {:induction false} R2OfFit(m: Metrics, ssRes: real, ssTot: real)
    requires 0.0 <= ssRes <= ssTot && R2Is(m, ssRes, ssTot)
    ensures ssTot == 0.0 ==> m.r2 == NaN
    ensures ssTot > 0.0 ==> m.r2.Finite? && 0.0 <= m.r2.value <= 1.0
  {
    if ssTot > 0.0 {
      RatioInUnitInterval(ssRes, ssTot);
    }
  }

  lemma {:induction false} RatioInUnitInterval(r: real, t: real)
    requires 0.0 <= r <= t && t > 0.0
    ensures 0.0 <= 1.0 - r / t <= 1.0
  {
    assert r / t <= 1.0;
  }
}
