/** The zero-safe divisions of the dashboard.

    Every guarded division in the source has the shape
    `(a / b * 100) if b > 0 else 0` or `a / b if b > 0 else 0`; a
    denominator that is zero or negative gives 0. */
module Ratios {
  import opened Floats

  /** (part / whole * 100) if whole > 0 else 0 */
  function Share(part: real, whole: real): real {
    if whole > 0.0 then part / whole * 100.0 else 0.0
  }

  /** Of a positive whole, the share scales back to the part; otherwise it is 0. */
  lemma ShareScales(part: real, whole: real)
    ensures whole > 0.0 ==> Share(part, whole) * whole == part * 100.0
    ensures whole <= 0.0 ==> Share(part, whole) == 0.0
  {
  }

  /** A non-negative part of a positive whole is between 0 and 100 per cent of it. */
  lemma ShareBounds(part: real, whole: real)
    requires whole > 0.0 && 0.0 <= part <= whole
    ensures 0.0 <= Share(part, whole) <= 100.0
  {
    ShareScales(part, whole);
    assert Share(part, whole) * whole <= 100.0 * whole;
  }

  /** A larger part has at least as large a share of one positive whole. */
  lemma ShareMonotone(a: real, b: real, whole: real)
    requires whole > 0.0 && a >= b
    ensures Share(a, whole) >= Share(b, whole)
  {
    assert a / whole - b / whole == (a - b) / whole;
  }

  /** A positive part of a positive whole has a positive share. */
  lemma SharePositive(part: real, whole: real)
    requires whole > 0.0 && part > 0.0
    ensures Share(part, whole) > 0.0
  {
    assert part / whole > 0.0;
  }

  /** A count k out of n > 0 as a percentage: k per cent of n scales back to k, and lies in [0, 100]. */
  lemma ShareOfCount(k: nat, n: nat)
    requires 0 < n && k <= n
    ensures Share(k as real, n as real) * (n as real) == (k as real) * 100.0
    ensures 0.0 <= Share(k as real, n as real) <= 100.0
  {
    ShareScales(k as real, n as real);
    ShareBounds(k as real, n as real);
  }

  /** The shares of the parts of a positive whole add up to 100. */
  lemma SharesOfThree(a: real, b: real, c: real)
    requires a + b + c > 0.0
    ensures Share(a, a + b + c) + Share(b, a + b + c) + Share(c, a + b + c) == 100.0
  {
    var g := a + b + c;
    ShareScales(a, g);
    ShareScales(b, g);
    ShareScales(c, g);
    var sa, sb, sc := Share(a, g), Share(b, g), Share(c, g);
    assert (sa + sb + sc) * g == (a + b + c) * 100.0;
  }

  /** Each value's share of a common whole. */
  function Shares(xs: seq<real>, whole: real): (ss: seq<real>)
    ensures |ss| == |xs| && forall i :: 0 <= i < |xs| ==> ss[i] == Share(xs[i], whole)
    decreases |xs|
  {
    if xs == [] then [] else [Share(xs[0], whole)] + Shares(xs[1..], whole)
  }

  lemma {:induction false} SharesScale(xs: seq<real>, whole: real)
    requires whole > 0.0
    ensures RealSum(Shares(xs, whole)) * whole == RealSum(xs) * 100.0
    decreases |xs|
  {
    if xs != [] {
      SharesScale(xs[1..], whole);
      assert Shares(xs, whole)[1..] == Shares(xs[1..], whole);
      ShareScales(xs[0], whole);
      var s0, rest := Share(xs[0], whole), RealSum(Shares(xs[1..], whole));
      assert (s0 + rest) * whole == s0 * whole + rest * whole;
    }
  }

  /** When the whole is the (positive) sum of the values, their shares add up to 100. */
  lemma SharesSumTo100(xs: seq<real>)
    requires RealSum(xs) > 0.0
    ensures RealSum(Shares(xs, RealSum(xs))) == 100.0
  {
    var w := RealSum(xs);
    SharesScale(xs, w);
    Cancel(RealSum(Shares(xs, w)), 100.0, w);
  }

  /** Shares of one whole add like their parts. */
  lemma ShareAdds(a: real, b: real, whole: real)
    ensures Share(a, whole) + Share(b, whole) == Share(a + b, whole)
  {
  }

  /** A positive whole is 100 per cent of itself. */
  lemma ShareOfWhole(whole: real)
    requires whole > 0.0
    ensures Share(whole, whole) == 100.0
  {
  }

  lemma Cancel(a: real, b: real, w: real)
    requires w > 0.0 && a * w == b * w
    ensures a == b
  {
  }

  /** ((current - previous) / previous * 100) if previous > 0 else 0 */
  function PercentChange(current: real, previous: real): real {
    if previous > 0.0 then (current - previous) / previous * 100.0 else 0.0
  }

  /** Applying the change to a positive previous value gives the current value back. */
  lemma PercentChangeRecovers(current: real, previous: real)
    ensures previous > 0.0 ==> previous + previous * PercentChange(current, previous) / 100.0 == current
    ensures previous <= 0.0 ==> PercentChange(current, previous) == 0.0
  {
  }

  /** A positive previous value: the change is positive, zero or negative exactly as the value rose, stayed or fell. */
  lemma PercentChangeSign(current: real, previous: real)
    requires previous > 0.0
    ensures PercentChange(current, previous) > 0.0 <==> current > previous
    ensures PercentChange(current, previous) == 0.0 <==> current == previous
  {
    PercentChangeRecovers(current, previous);
    var c := PercentChange(current, previous);
    assert previous * c / 100.0 == current - previous;
    if c > 0.0 { assert previous * c > 0.0; }
    if c < 0.0 { assert previous * c < 0.0; }
  }

  /** a / b if b > 0 else 0 */
  function GuardedRatio(a: real, b: real): real {
    if b > 0.0 then a / b else 0.0
  }

  /** Of a positive denominator the ratio scales back to the numerator; otherwise it is 0. */
  lemma GuardedRatioScales(a: real, b: real)
    ensures b > 0.0 ==> GuardedRatio(a, b) * b == a
    ensures b <= 0.0 ==> GuardedRatio(a, b) == 0.0
  {
  }
}
