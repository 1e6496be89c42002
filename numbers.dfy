/**
 * JavaScript numbers as the statistics code meets them: an exact finite
 * value, NaN, or a signed infinity. The arithmetic follows the special-value
 * rules of IEEE 754 (NaN absorbs, `x/0` is an infinity, `0/0` and
 * `∞ - ∞` are NaN); rounding is not modelled.
 */
module Numbers {
  import opened Sums

  datatype Number = Finite(value: real) | NaN | Infinity(negative: bool)

  function Add(a: Number, b: Number): Number
  {
    match (a, b)
    case (Finite(u), Finite(v)) => Finite(u + v)
    case (Infinity(p), Finite(_)) => Infinity(p)
    case (Finite(_), Infinity(q)) => Infinity(q)
    case (Infinity(p), Infinity(q)) => if p == q then Infinity(p) else NaN
    case _ => NaN
  }

  function Neg(a: Number): Number
  {
    match a
    case Finite(v) => Finite(-v)
    case Infinity(p) => Infinity(!p)
    case NaN => NaN
  }

  function Sub(a: Number, b: Number): Number
  {
    Add(a, Neg(b))
  }

  function Mul(a: Number, b: Number): Number
  {
    match (a, b)
    case (Finite(u), Finite(v)) => Finite(u * v)
    case (Infinity(p), Finite(v)) => if v == 0.0 then NaN else Infinity(p != (v < 0.0))
    case (Finite(u), Infinity(q)) => if u == 0.0 then NaN else Infinity(q != (u < 0.0))
    case (Infinity(p), Infinity(q)) => Infinity(p != q)
    case _ => NaN
  }

  /**
   * Division. A zero divisor is taken as `+0`, which is what every divisor in
   * the statistics code is when it is zero (a count, a sum of squares, or
   * `n·Σx² - (Σx)²` on equal terms).
   */
  function Div(a: Number, b: Number): Number
  {
    match (a, b)
    case (Finite(u), Finite(v)) =>
      if v != 0.0 then Finite(u / v)
      else if u == 0.0 then NaN
      else Infinity(u < 0.0)
    case (Infinity(p), Finite(v)) => Infinity(p != (v < 0.0))
    case (Finite(_), Infinity(_)) => Finite(0.0)
    case _ => NaN
  }

  /** `Math.abs` */
  function AbsN(a: Number): Number
  {
    match a
    case Finite(v) => Finite(Abs(v))
    case Infinity(_) => Infinity(false)
    case NaN => NaN
  }

  /** `sqrt` returns the non-negative square root of a non-negative real. */
  ghost predicate IsSquareRoot(sqrt: real -> real)
  {
    forall r: real :: r >= 0.0 ==> sqrt(r) >= 0.0 && sqrt(r) * sqrt(r) == r
  }

  /** `Math.sqrt`, with the square root of a real passed in as `sqrt`. */
  function SqrtN(a: Number, sqrt: real -> real): Number
  {
    match a
    case Finite(v) => if v < 0.0 then NaN else Finite(sqrt(v))
    case Infinity(negative) => if negative then NaN else Infinity(false)
    case NaN => NaN
  }

  /** `s.reduce((a, b) => a + b, 0)` over numbers. */
  function SumN(s: seq<Number>): Number
  {
    if |s| == 0 then Finite(0.0) else Add(s[0], SumN(s[1..]))
  }

  /** The numbers `s` are exactly the finite values `r`. */
  ghost predicate FiniteOf(s: seq<Number>, r: seq<real>)
  {
    |s| == |r| && forall i :: 0 <= i < |s| ==> s[i] == Finite(r[i])
  }

  /** `r` read as numbers. */
  function Finites(r: seq<real>): (s: seq<Number>)
    ensures FiniteOf(s, r)
  {
    seq(|r|, i requires 0 <= i < |r| => Finite(r[i]))
  }

  /** Over finite numbers the number sum is the real sum. */
  lemma {:induction false} SumNOfFinite(s: seq<Number>, r: seq<real>)
    requires FiniteOf(s, r)
    ensures SumN(s) == Finite(Sum(r))
  {
    if |s| > 0 {
      assert FiniteOf(s[1..], r[1..]);
      SumNOfFinite(s[1..], r[1..]);
    }
  }

  /** One NaN term makes the whole sum NaN. */
  lemma {:induction false} SumNOfNaN(s: seq<Number>, k: int)
    requires 0 <= k < |s| && s[k] == NaN
    ensures SumN(s) == NaN
  {
    if k > 0 {
      SumNOfNaN(s[1..], k - 1);
    }
  }
}
