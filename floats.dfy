/** The few non-finite values the dashboard's unguarded divisions can yield.

    Amounts are reals; a quotient whose denominator is zero is what IEEE
    arithmetic (and so pandas) gives: +inf or -inf for a non-zero
    numerator, NaN for 0/0.  Comparisons follow IEEE: every comparison
    with NaN is false, and the infinities compare beyond every real. */
module Floats {

  datatype Float = Finite(value: real) | PosInf | NegInf | NaN

  /** a / b for finite a and b. */
  function Div(a: real, b: real): (q: Float)
    ensures b != 0.0 ==> q == Finite(a / b)
    ensures b == 0.0 ==> (q == NaN <==> a == 0.0) && (q == PosInf <==> a > 0.0) && (q == NegInf <==> a < 0.0)
  {
    if b != 0.0 then Finite(a / b)
    else if a > 0.0 then PosInf
    else if a < 0.0 then NegInf
    else NaN
  }

  /** x * c for a positive constant c. */
  function Scale(x: Float, c: real): (y: Float)
    requires c > 0.0
    ensures x.Finite? <==> y.Finite?
    ensures x.Finite? ==> y.value == x.value * c
    ensures !x.Finite? ==> y == x
  {
    match x
    case Finite(v) => Finite(v * c)
    case _ => x
  }

  /** a / b * 100, evaluated left to right as the source writes it. */
  function Percent(a: real, b: real): (p: Float)
    ensures b != 0.0 ==> p == Finite(a / b * 100.0)
    ensures b == 0.0 ==> (p == NaN <==> a == 0.0) && (p == PosInf <==> a > 0.0) && (p == NegInf <==> a < 0.0)
  {
    Scale(Div(a, b), 100.0)
  }

  /** pandas fillna(d): NaN becomes d, everything else stays. */
  function FillNa(x: Float, d: real): (y: Float)
    ensures y != NaN
    ensures x != NaN ==> y == x
    ensures x == NaN ==> y == Finite(d)
  {
    if x == NaN then Finite(d) else x
  }

  /** x >= t */
  predicate Ge(x: Float, t: real) {
    match x
    case Finite(v) => v >= t
    case PosInf => true
    case _ => false
  }

  /** x > t */
  predicate Gt(x: Float, t: real) {
    match x
    case Finite(v) => v > t
    case PosInf => true
    case _ => false
  }

  /** x <= t */
  predicate Le(x: Float, t: real) {
    match x
    case Finite(v) => v <= t
    case NegInf => true
    case _ => false
  }

  /** x < t */
  predicate Lt(x: Float, t: real) {
    match x
    case Finite(v) => v < t
    case NegInf => true
    case _ => false
  }

  /** x > y between two floats. */
  predicate Greater(x: Float, y: Float) {
    match y
    case Finite(v) => Gt(x, v)
    case NegInf => x.Finite? || x == PosInf
    case _ => false
  }

  /** IEEE addition. */
  function Add(x: Float, y: Float): Float {
    match (x, y)
    case (NaN, _) => NaN
    case (_, NaN) => NaN
    case (PosInf, NegInf) => NaN
    case (NegInf, PosInf) => NaN
    case (PosInf, _) => PosInf
    case (_, PosInf) => PosInf
    case (NegInf, _) => NegInf
    case (_, NegInf) => NegInf
    case (Finite(a), Finite(b)) => Finite(a + b)
  }

  function Sum(xs: seq<Float>): Float
    decreases |xs|
  {
    if xs == [] then Finite(0.0) else Add(xs[0], Sum(xs[1..]))
  }

  /** Sum of a sequence of finite values. */
  function RealSum(xs: seq<real>): real
    decreases |xs|
  {
    if xs == [] then 0.0 else xs[0] + RealSum(xs[1..])
  }

  ghost predicate AllFinite(xs: seq<Float>) {
    forall i :: 0 <= i < |xs| ==> xs[i].Finite?
  }

  function Values(xs: seq<Float>): (vs: seq<real>)
    requires AllFinite(xs)
    ensures |vs| == |xs| && forall i :: 0 <= i < |xs| ==> vs[i] == xs[i].value
    decreases |xs|
  {
    if xs == [] then [] else [xs[0].value] + Values(xs[1..])
  }

  /** On finite values the IEEE sum is the real sum. */
  lemma {:induction false} SumOfFinite(xs: seq<Float>)
    requires AllFinite(xs)
    ensures Sum(xs) == Finite(RealSum(Values(xs)))
    decreases |xs|
  {
    if xs != [] {
      SumOfFinite(xs[1..]);
      assert Values(xs)[1..] == Values(xs[1..]);
    }
  }

  /** pandas Series.mean() with its default skipna=True. */
  function Mean(xs: seq<Float>): Float {
    var kept := NonNaN(xs);
    if |kept| == 0 then NaN else DivCount(Sum(kept), |kept|)
  }

  /** x / n for a positive count n. */
  function DivCount(x: Float, n: nat): (y: Float)
    requires n > 0
    ensures x.Finite? <==> y.Finite?
    ensures x.Finite? ==> y.value == x.value / (n as real)
    ensures !x.Finite? ==> y == x
  {
    match x
    case Finite(v) => Finite(v / (n as real))
    case _ => x
  }

  function NonNaN(xs: seq<Float>): (r: seq<Float>)
    ensures |r| <= |xs|
    ensures forall i :: 0 <= i < |r| ==> r[i] != NaN
    ensures (forall i :: 0 <= i < |xs| ==> xs[i] != NaN) ==> r == xs
    decreases |xs|
  {
    if xs == [] then [] else (if xs[0] == NaN then [] else [xs[0]]) + NonNaN(xs[1..])
  }

  /** The mean of finite values is their real average. */
  lemma MeanOfFinite(xs: seq<Float>)
    requires |xs| > 0 && AllFinite(xs)
    ensures Mean(xs) == Finite(RealSum(Values(xs)) / (|xs| as real))
  {
    assert forall i :: 0 <= i < |xs| ==> xs[i] != NaN;
    assert NonNaN(xs) == xs;
    SumOfFinite(xs);
  }

  /** An infinity among finite values dominates the sum. */
  lemma {:induction false} SumWithPosInf(xs: seq<Float>)
    requires forall i :: 0 <= i < |xs| ==> xs[i].Finite? || xs[i] == PosInf
    requires exists i :: 0 <= i < |xs| && xs[i] == PosInf
    ensures Sum(xs) == PosInf
    decreases |xs|
  {
    if xs[0] != PosInf {
      var i :| 0 <= i < |xs| && xs[i] == PosInf;
      assert xs[1..][i - 1] == PosInf;
      SumWithPosInf(xs[1..]);
    } else if exists i :: 0 <= i < |xs[1..]| && xs[1..][i] == PosInf {
      SumWithPosInf(xs[1..]);
    } else {
      assert AllFinite(xs[1..]);
      SumOfFinite(xs[1..]);
    }
  }
}
