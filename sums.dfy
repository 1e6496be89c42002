/**
 * The sums that the statistics pipeline computes with `reduce`, over exact
 * reals, and the algebra of least squares built on them.
 *
 * The recursive sums add from the front; over exact reals the order in which
 * `reduce` adds does not matter.
 */
module Sums {

  /** `s.reduce((a, b) => a + b, 0)` */
  function Sum(s: seq<real>): real
  {
    if |s| == 0 then 0.0 else s[0] + Sum(s[1..])
  }

  /** `x.reduce((sum, xi, i) => sum + xi * y[i], 0)` */
  function Dot(x: seq<real>, y: seq<real>): real
    requires |x| == |y|
  {
    if |x| == 0 then 0.0 else x[0] * y[0] + Dot(x[1..], y[1..])
  }

  /** `s.reduce((sum, r) => sum + r * r, 0)` */
  function SumSquares(s: seq<real>): real
  {
    if |s| == 0 then 0.0 else s[0] * s[0] + SumSquares(s[1..])
  }

  function Abs(r: real): real
  {
    if r < 0.0 then -r else r
  }

  /** `s.reduce((sum, r) => sum + Math.abs(r), 0)` */
  function SumAbs(s: seq<real>): real
  {
    if |s| == 0 then 0.0 else Abs(s[0]) + SumAbs(s[1..])
  }

  function Mean(s: seq<real>): real
    requires |s| > 0
  {
    Sum(s) / (|s| as real)
  }

  /** The line `(a, b)` passes through the mean point `(Mean(x), Mean(y))`. */
  ghost predicate ThroughMeanPoint(x: seq<real>, y: seq<real>, a: real, b: real)
    requires |x| > 0 && |y| > 0
  {
    a * Mean(x) + b == Mean(y)
  }

  /** `x.map(xi => slope * xi + intercept)`: the line's value above each `xi`. */
  function Line(x: seq<real>, slope: real, intercept: real): (p: seq<real>)
    ensures |p| == |x|
  {
    seq(|x|, i requires 0 <= i < |x| => slope * x[i] + intercept)
  }

  /** `yTrue.map((y, i) => y - yPred[i])` */
  function Residuals(yTrue: seq<real>, yPred: seq<real>): (r: seq<real>)
    requires |yTrue| == |yPred|
    ensures |r| == |yTrue|
  {
    seq(|yTrue|, i requires 0 <= i < |yTrue| => yTrue[i] - yPred[i])
  }

  /** Each element's distance from a centre `c`. */
  function Deviations(s: seq<real>, c: real): (d: seq<real>)
    ensures |d| == |s|
  {
    seq(|s|, i requires 0 <= i < |s| => s[i] - c)
  }

  /** Sum of squared errors of the line `(slope, intercept)` on the pairs `(x[i], y[i])`. */
  function Sse(x: seq<real>, y: seq<real>, slope: real, intercept: real): real
    requires |x| == |y|
  {
    SumSquares(Residuals(y, Line(x, slope, intercept)))
  }

  /** Every element is the same. */
  ghost predicate Constant(s: seq<real>)
  {
    forall i, j :: 0 <= i < |s| && 0 <= j < |s| ==> s[i] == s[j]
  }

  /** A sum of squares is never negative, and it is zero exactly when every term is. */
  lemma {:induction false} SumSquaresNonnegative(s: seq<real>)
    ensures SumSquares(s) >= 0.0
    ensures SumSquares(s) == 0.0 <==> forall i :: 0 <= i < |s| ==> s[i] == 0.0
  {
    SumSquaresAtLeastZero(s);
    if SumSquares(s) == 0.0 {
      forall i | 0 <= i < |s| ensures s[i] == 0.0 {
        if s[i] != 0.0 {
          SumSquaresPositive(s, i);
          assert false;
        }
      }
    }
    if forall i :: 0 <= i < |s| ==> s[i] == 0.0 {
      SumOfConstant(s, 0.0);
    }
  }

  lemma {:induction false} SumSquaresAtLeastZero(s: seq<real>)
    ensures SumSquares(s) >= 0.0
  {
    if |s| > 0 {
      SumSquaresAtLeastZero(s[1..]);
      SquarePositive(s[0]);
    }
  }

  /** One nonzero term makes a sum of squares positive. */
  lemma {:induction false} SumSquaresPositive(s: seq<real>, k: int)
    requires 0 <= k < |s| && s[k] != 0.0
    ensures SumSquares(s) > 0.0
  {
    if k == 0 {
      SumSquaresAtLeastZero(s[1..]);
      calc {
        SumSquares(s);
      ==
        s[0] * s[0] + SumSquares(s[1..]);
      >=
        s[0] * s[0];
      > { SquarePositive(s[0]); }
        0.0;
      }
    } else {
      assert s[1..][k - 1] == s[k];
      SumSquaresPositive(s[1..], k - 1);
      calc {
        SumSquares(s);
      ==
        s[0] * s[0] + SumSquares(s[1..]);
      >
        s[0] * s[0];
      >= { SquarePositive(s[0]); }
        0.0;
      }
    }
  }

  lemma {:induction false} SquarePositive(u: real)
    ensures u * u >= 0.0
    ensures u != 0.0 ==> u * u > 0.0
  {
  }

  /** A sum of absolute values is never negative, and it is zero exactly when every term is. */
  lemma {:induction false} SumAbsNonnegative(s: seq<real>)
    ensures SumAbs(s) >= 0.0
    ensures SumAbs(s) == 0.0 <==> forall i :: 0 <= i < |s| ==> s[i] == 0.0
  {
    if |s| > 0 {
      SumAbsNonnegative(s[1..]);
      if SumAbs(s) == 0.0 {
        assert Abs(s[0]) == 0.0 && SumAbs(s[1..]) == 0.0;
        forall i | 0 <= i < |s| ensures s[i] == 0.0 {
          if i > 0 { assert s[i] == s[1..][i - 1]; }
        }
      }
      if forall i :: 0 <= i < |s| ==> s[i] == 0.0 {
        assert forall i :: 0 <= i < |s[1..]| ==> s[1..][i] == s[i + 1];
      }
    }
  }

  /** Summing a pointwise difference: `Σ(u - v) = Σu - Σv`. */
  lemma {:induction false} SumOfDifference(u: seq<real>, v: seq<real>, w: seq<real>)
    requires IsDifference(w, u, v)
    ensures Sum(w) == Sum(u) - Sum(v)
  {
    if |w| > 0 {
      DifferenceTail(w, u, v);
      SumOfDifference(u[1..], v[1..], w[1..]);
    }
  }

  /** Summing an affine image: `Σ(c·x + e) = c·Σx + n·e`. */
  lemma {:induction false} SumOfAffine(x: seq<real>, w: seq<real>, c: real, e: real)
    requires IsAffine(w, x, c, e)
    ensures Sum(w) == c * Sum(x) + (|x| as real) * e
  {
    if |w| > 0 {
      AffineTail(w, x, c, e);
      SumOfAffine(x[1..], w[1..], c, e);
      AffineSumStep(x[0], c, e, Sum(x[1..]), (|x| - 1) as real);
    }
  }

  lemma {:induction false} AffineSumStep(x0: real, c: real, e: real, restX: real, m: real)
    ensures (c * x0 + e) + (c * restX + m * e) == c * (x0 + restX) + (m + 1.0) * e
  {
  }

  /** The dot product against a pointwise difference: `Σz(u - v) = Σzu - Σzv`. */
  lemma {:induction false} DotOfDifference(z: seq<real>, u: seq<real>, v: seq<real>, w: seq<real>)
    requires |z| == |w| && IsDifference(w, u, v)
    ensures Dot(z, w) == Dot(z, u) - Dot(z, v)
  {
    if |w| > 0 {
      DifferenceTail(w, u, v);
      DotOfDifference(z[1..], u[1..], v[1..], w[1..]);
      DifferenceStep(z[0], u[0], v[0]);
    }
  }

  lemma {:induction false} DifferenceStep(z0: real, u0: real, v0: real)
    ensures z0 * (u0 - v0) == z0 * u0 - z0 * v0
  {
  }

  /** The dot product of an affine image: `Σ(c·x + e)·z = c·Σxz + e·Σz`. */
  lemma {:induction false} DotOfAffine(x: seq<real>, z: seq<real>, w: seq<real>, c: real, e: real)
    requires |z| == |w| && IsAffine(w, x, c, e)
    ensures Dot(w, z) == c * Dot(x, z) + e * Sum(z)
  {
    if |w| > 0 {
      AffineTail(w, x, c, e);
      DotOfAffine(x[1..], z[1..], w[1..], c, e);
      AffineDotStep(x[0], z[0], c, e, Dot(x[1..], z[1..]), Sum(z[1..]));
    }
  }

  lemma {:induction false} AffineDotStep(x0: real, z0: real, c: real, e: real, restXZ: real, restZ: real)
    ensures (c * x0 + e) * z0 + (c * restXZ + e * restZ) == c * (x0 * z0 + restXZ) + e * (z0 + restZ)
  {
  }

  /** The dot product is symmetric. */
  lemma {:induction false} DotSymmetric(x: seq<real>, z: seq<real>)
    requires |x| == |z|
    ensures Dot(x, z) == Dot(z, x)
  {
    if |x| > 0 {
      DotSymmetric(x[1..], z[1..]);
      assert x[0] * z[0] == z[0] * x[0];
    }
  }

  /** A sequence dotted with itself is its sum of squares. */
  lemma {:induction false} DotSelf(x: seq<real>)
    ensures Dot(x, x) == SumSquares(x)
  {
    if |x| > 0 {
      DotSelf(x[1..]);
    }
  }

  /** `Σ(r - d)² = Σr² - 2·Σrd + Σd²`. */
  lemma {:induction false} SquaresOfDifference(r: seq<real>, d: seq<real>, w: seq<real>)
    requires IsDifference(w, r, d)
    ensures SumSquares(w) == SumSquares(r) - 2.0 * Dot(r, d) + SumSquares(d)
  {
    if |w| > 0 {
      DifferenceTail(w, r, d);
      SquaresOfDifference(r[1..], d[1..], w[1..]);
      SquareOfDifference(r[0], d[0]);
    }
  }

  lemma {:induction false} DifferenceTail(e: seq<real>, r: seq<real>, d: seq<real>)
    requires IsDifference(e, r, d) && |e| > 0
    ensures IsDifference(e[1..], r[1..], d[1..])
  {
    forall i | 0 <= i < |e| - 1 ensures e[1..][i] == r[1..][i] - d[1..][i] {
      assert e[1..][i] == e[i + 1];
    }
  }

  lemma {:induction false} AffineTail(d: seq<real>, x: seq<real>, c: real, f: real)
    requires IsAffine(d, x, c, f) && |d| > 0
    ensures IsAffine(d[1..], x[1..], c, f)
  {
    forall i | 0 <= i < |d| - 1 ensures d[1..][i] == c * x[1..][i] + f {
      assert d[1..][i] == d[i + 1];
    }
  }

  lemma {:induction false} SquareOfDifference(u: real, v: real)
    ensures (u - v) * (u - v) == u * u - 2.0 * (u * v) + v * v
  {
  }

  /** The line is affine in `x`. */
  lemma {:induction false} LineIsAffine(x: seq<real>, a: real, b: real)
    ensures IsAffine(Line(x, a, b), x, a, b)
  {
  }

  /** The residuals are the true values minus the predictions. */
  lemma {:induction false} ResidualsAreDifference(yTrue: seq<real>, yPred: seq<real>)
    requires |yTrue| == |yPred|
    ensures IsDifference(Residuals(yTrue, yPred), yTrue, yPred)
  {
  }

  /** `Σy - a·Σx - n·b`: what the residuals of the line `(a, b)` add up to, from the sums of the data. */
  function ResidualTotal(x: seq<real>, y: seq<real>, a: real, b: real): real
  {
    Sum(y) - a * Sum(x) - (|x| as real) * b
  }

  /** `Σxy - a·Σx² - b·Σx`: the dot product of x with the residuals of the line `(a, b)`, from the sums of the data. */
  function ResidualMoment(x: seq<real>, y: seq<real>, a: real, b: real): real
    requires |x| == |y|
  {
    Dot(x, y) - a * SumSquares(x) - b * Sum(x)
  }

  /** The sums of a line's residuals are determined by the sums of the data. */
  lemma {:induction false} ResidualSumsHold(x: seq<real>, y: seq<real>, a: real, b: real)
    requires |x| == |y|
    ensures Sum(Residuals(y, Line(x, a, b))) == ResidualTotal(x, y, a, b)
    ensures Dot(x, Residuals(y, Line(x, a, b))) == ResidualMoment(x, y, a, b)
  {
    var p := Line(x, a, b);
    var r := Residuals(y, p);
    LineIsAffine(x, a, b);
    ResidualsAreDifference(y, p);
    SumOfDifference(y, p, r);
    SumOfAffine(x, p, a, b);
    DotOfDifference(x, y, p, r);
    DotOfLine(x, a, b);
    ResidualSumsFinish(x, y, p, r, a, b);
  }

  lemma {:induction false} ResidualSumsFinish(x: seq<real>, y: seq<real>, p: seq<real>, r: seq<real>, a: real, b: real)
    requires |x| == |y| == |p| == |r|
    requires Sum(r) == Sum(y) - Sum(p)
    requires Sum(p) == a * Sum(x) + (|x| as real) * b
    requires Dot(x, r) == Dot(x, y) - Dot(x, p)
    requires Dot(x, p) == a * SumSquares(x) + b * Sum(x)
    ensures Sum(r) == ResidualTotal(x, y, a, b)
    ensures Dot(x, r) == ResidualMoment(x, y, a, b)
  {
    assert Sum(r) == Sum(y) - a * Sum(x) - (|x| as real) * b;
    assert Dot(x, r) == Dot(x, y) - a * SumSquares(x) - b * Sum(x);
  }

  /** `Σx·(a·x + b) = a·Σx² + b·Σx` */
  lemma {:induction false} DotOfLine(x: seq<real>, a: real, b: real)
    ensures Dot(x, Line(x, a, b)) == a * SumSquares(x) + b * Sum(x)
  {
    var p := Line(x, a, b);
    LineIsAffine(x, a, b);
    DotOfAffine(x, x, p, a, b);
    DotSymmetric(p, x);
    DotSelf(x);
    LineDotFinish(x, p, a, b);
  }

  lemma {:induction false} LineDotFinish(x: seq<real>, p: seq<real>, a: real, b: real)
    requires |x| == |p|
    requires Dot(p, x) == a * Dot(x, x) + b * Sum(x)
    requires Dot(p, x) == Dot(x, p)
    requires Dot(x, x) == SumSquares(x)
    ensures Dot(x, p) == a * SumSquares(x) + b * Sum(x)
  {
  }

  /**
   * Around a line whose residuals sum to zero and are orthogonal to `x`,
   * moving to any other line `(a2, b2)` adds exactly the squares of the
   * difference line to the squared error.
   */
  lemma {:induction false} SseShift(x: seq<real>, y: seq<real>, a: real, b: real, a2: real, b2: real)
    requires |x| == |y|
    requires Sum(Residuals(y, Line(x, a, b))) == 0.0 && Dot(x, Residuals(y, Line(x, a, b))) == 0.0
    ensures Sse(x, y, a2, b2) == Sse(x, y, a, b) + SumSquares(Line(x, a2 - a, b2 - b))
  {
    var r := Residuals(y, Line(x, a, b));
    ShiftPointwise(x, y, a, b, a2, b2);
    ShiftSquares(x, r, Line(x, a2 - a, b2 - b), Residuals(y, Line(x, a2, b2)), a2 - a, b2 - b);
    ScaledZeros(a2 - a, b2 - b, Dot(x, r), Sum(r));
  }

  lemma {:induction false} ScaledZeros(c: real, f: real, u: real, v: real)
    requires u == 0.0 && v == 0.0
    ensures c * u + f * v == 0.0
  {
  }

  lemma {:induction false} ShiftPointwise(x: seq<real>, y: seq<real>, a: real, b: real, a2: real, b2: real)
    requires |x| == |y|
    ensures IsDifference(Residuals(y, Line(x, a2, b2)), Residuals(y, Line(x, a, b)), Line(x, a2 - a, b2 - b))
    ensures IsAffine(Line(x, a2 - a, b2 - b), x, a2 - a, b2 - b)
  {
    var r := Residuals(y, Line(x, a, b));
    var d := Line(x, a2 - a, b2 - b);
    var e := Residuals(y, Line(x, a2, b2));
    forall i | 0 <= i < |e| ensures e[i] == r[i] - d[i] {
      ShiftStep(x[i], y[i], a, b, a2, b2);
    }
  }

  /** `e` is the pointwise difference `r - d`. */
  ghost predicate IsDifference(e: seq<real>, r: seq<real>, d: seq<real>)
  {
    |e| == |r| == |d| && forall i :: 0 <= i < |e| ==> e[i] == r[i] - d[i]
  }

  /** `d` is the affine image `c·x + f`. */
  ghost predicate IsAffine(d: seq<real>, x: seq<real>, c: real, f: real)
  {
    |d| == |x| && forall i :: 0 <= i < |d| ==> d[i] == c * x[i] + f
  }

  /** The squared error after subtracting an affine line `d = c·x + f` from the residuals `r`. */
  lemma {:induction false} ShiftSquares(x: seq<real>, r: seq<real>, d: seq<real>, e: seq<real>, c: real, f: real)
    requires IsDifference(e, r, d) && IsAffine(d, x, c, f)
    ensures SumSquares(e) == SumSquares(r) - 2.0 * (c * Dot(x, r) + f * Sum(r)) + SumSquares(d)
  {
    SquaresOfDifference(r, d, e);
    CrossTerm(x, r, d, c, f);
  }

  lemma {:induction false} CrossTerm(x: seq<real>, r: seq<real>, d: seq<real>, c: real, f: real)
    requires |r| == |d| && IsAffine(d, x, c, f)
    ensures Dot(r, d) == c * Dot(x, r) + f * Sum(r)
  {
    DotOfAffine(x, r, d, c, f);
    DotSymmetric(r, d);
  }

  lemma {:induction false} ShiftStep(x0: real, y0: real, a: real, b: real, a2: real, b2: real)
    ensures y0 - (a2 * x0 + b2) == (y0 - (a * x0 + b)) - ((a2 - a) * x0 + (b2 - b))
  {
  }

  /** `Σ(s - c)² = Σs² - 2c·Σs + n·c²`. */
  lemma {:induction false} SumSquaresOfDeviations(s: seq<real>, c: real)
    ensures SumSquares(Deviations(s, c)) == SumSquares(s) - 2.0 * (c * Sum(s)) + (|s| as real) * (c * c)
  {
    var centre := seq(|s|, i requires 0 <= i < |s| => c);
    var d := Deviations(s, c);
    assert IsDifference(d, s, centre);
    SquaresOfDifference(s, centre, d);
    DotSymmetric(s, centre);
    DotWithConstant(centre, s, c);
    SumOfConstant(centre, c);
    DeviationsFinish(s, centre, d, c);
  }

  lemma {:induction false} DeviationsFinish(s: seq<real>, centre: seq<real>, d: seq<real>, c: real)
    requires |s| == |centre|
    requires SumSquares(d) == SumSquares(s) - 2.0 * Dot(s, centre) + SumSquares(centre)
    requires Dot(s, centre) == Dot(centre, s)
    requires Dot(centre, s) == c * Sum(s)
    requires SumSquares(centre) == (|s| as real) * (c * c)
    ensures SumSquares(d) == SumSquares(s) - 2.0 * (c * Sum(s)) + (|s| as real) * (c * c)
  {
  }

  /** A constant sequence sums to its length times its value. */
  lemma {:induction false} SumOfConstant(s: seq<real>, c: real)
    requires forall i :: 0 <= i < |s| ==> s[i] == c
    ensures Sum(s) == (|s| as real) * c
    ensures SumSquares(s) == (|s| as real) * (c * c)
  {
    if |s| > 0 {
      SumOfConstant(s[1..], c);
    }
  }

  /** Against a constant sequence, the dot product factors out the constant. */
  lemma {:induction false} DotWithConstant(x: seq<real>, y: seq<real>, c: real)
    requires |x| == |y|
    requires forall i :: 0 <= i < |x| ==> x[i] == c
    ensures Dot(x, y) == c * Sum(y)
  {
    if |x| > 0 {
      DotWithConstant(x[1..], y[1..], c);
    }
  }

  /** The spread about the mean vanishes exactly when every element is the same. */
  lemma {:induction false} SpreadZeroIffConstant(s: seq<real>)
    requires |s| > 0
    ensures SumSquares(Deviations(s, Mean(s))) == 0.0 <==> Constant(s)
  {
    var n := |s| as real;
    var m := Mean(s);
    var d := Deviations(s, m);
    SumSquaresNonnegative(d);
    if Constant(s) {
      forall i | 0 <= i < |s| ensures s[i] == s[0] { }
      SumOfConstant(s, s[0]);
      MeanOfConstant(Sum(s), n, s[0]);
      forall i | 0 <= i < |d| ensures d[i] == 0.0 { }
    }
    if SumSquares(d) == 0.0 {
      forall i, j | 0 <= i < |s| && 0 <= j < |s| ensures s[i] == s[j] {
        assert d[i] == 0.0 && d[j] == 0.0;
      }
    }
  }

  lemma {:induction false} MeanOfConstant(total: real, n: real, c: real)
    requires n > 0.0 && total == n * c
    ensures total / n == c
  {
  }

  /** `n·Σx² - (Σx)² = n·Σ(x - mean)²`: the regression denominator is n times the spread. */
  lemma {:induction false} CenteredSquares(s: seq<real>)
    requires |s| > 0
    ensures (|s| as real) * SumSquares(s) - Sum(s) * Sum(s)
            == (|s| as real) * SumSquares(Deviations(s, Mean(s)))
  {
    var n := |s| as real;
    var m := Mean(s);
    SumSquaresOfDeviations(s, m);
    assert Sum(s) == n * m;
    CenteredStep(n, SumSquares(s), Sum(s), m);
  }

  lemma {:induction false} CenteredStep(n: real, ss: real, total: real, m: real)
    requires total == n * m
    ensures n * ss - total * total == n * (ss - 2.0 * m * total + n * (m * m))
  {
  }

  /** The residuals of the flat line at height `m` are the deviations from `m`. */
  lemma {:induction false} FlatLineResiduals(x: seq<real>, y: seq<real>, m: real)
    requires |x| == |y|
    ensures Residuals(y, Line(x, 0.0, m)) == Deviations(y, m)
  {
  }
}
