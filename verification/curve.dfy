/** The risk-free term structure used as a step function, and its parallel
    shift for scenario repricing.

    The same lookup rule is written four times in the source: the first
    point whose tenor is at least `t` supplies the yield, and when no point
    qualifies the last point's yield is used. Two spellings occur: a loop
    that starts from the last yield and breaks at the first match
    (bond_analytics.py, pricing.py), and an early-return helper
    (pricing_with_duration.py, app.py). `RateAt` models the second and
    `LookupWithDefault` the first; the two are proved equal. */
module Curve {

  /** A point of the curve: tenor in whole years, yield as a decimal. */
  datatype CurvePoint = CurvePoint(tenor: int, yld: real)

  /** A curve that has been found: the store only yields a curve date when
      it holds at least one point for that date, so a found curve is never
      empty. A missing curve is `None` at the callers. */
  type Curve = c: seq<CurvePoint> | |c| > 0 witness [CurvePoint(1, 0.0)]

  /** Tenors strictly increasing, as the store returns them (ORDER BY years). */
  ghost predicate Sorted(c: seq<CurvePoint>) {
    forall i, j :: 0 <= i < j < |c| ==> c[i].tenor < c[j].tenor
  }

  /** `k` is the position of the first point whose tenor covers `t`. */
  ghost predicate IsFirstCovering(c: seq<CurvePoint>, t: real, k: int) {
    && 0 <= k < |c|
    && t <= c[k].tenor as real
    && forall j :: 0 <= j < k ==> c[j].tenor as real < t
  }

  /** Position of the first point with `t <= tenor`, or `|c|` when every
      tenor lies below `t`. */
  function FirstCovering(c: seq<CurvePoint>, t: real): (k: nat)
    ensures k <= |c|
    ensures forall j :: 0 <= j < k ==> c[j].tenor as real < t
    ensures k < |c| ==> t <= c[k].tenor as real
  {
    if |c| == 0 then 0
    else if t <= c[0].tenor as real then 0
    else 1 + FirstCovering(c[1..], t)
  }

  /** Risk-free yield applied to a cash flow at time `t` (years). */
  function RateAt(c: Curve, t: real): (y: real)
    ensures (exists k :: IsFirstCovering(c, t, k) && y == c[k].yld)
         || ((forall k :: 0 <= k < |c| ==> c[k].tenor as real < t) && y == c[|c| - 1].yld)
  {
    var k := FirstCovering(c, t);
    if k < |c| then
      assert IsFirstCovering(c, t, k);
      c[k].yld
    else
      c[|c| - 1].yld
  }

  /** Whenever some point covers `t`, the first such point decides. */
  lemma RateAtFirstCovering(c: Curve, t: real, k: int)
    requires IsFirstCovering(c, t, k)
    ensures RateAt(c, t) == c[k].yld
  {
  }

  /** Beyond the longest tenor of a sorted curve the last yield applies
      unchanged (flat extrapolation). */
  lemma FlatExtrapolation(c: Curve, t: real)
    requires Sorted(c)
    requires c[|c| - 1].tenor as real < t
    ensures RateAt(c, t) == c[|c| - 1].yld
  {
  }

  /** The loop spelling: start from the last point's yield, overwrite it at
      the first covering point and stop. */
  method LookupWithDefault(c: Curve, t: real) returns (y: real)
    ensures y == RateAt(c, t)
  {
    y := c[|c| - 1].yld;
    var i := 0;
    while i < |c|
      invariant 0 <= i <= |c|
      invariant forall j :: 0 <= j < i ==> c[j].tenor as real < t
      invariant y == c[|c| - 1].yld
    {
      if t <= c[i].tenor as real {
        y := c[i].yld;
        RateAtFirstCovering(c, t, i);
        return;
      }
      i := i + 1;
    }
  }

  /** A shock of `bps` basis points as a decimal yield change. */
  function BpsToDecimal(bps: int): real {
    bps as real / 10000.0
  }

  /** The scenario curve: every yield moved by the same number of basis
      points, tenors untouched. */
  function Shocked(c: Curve, bps: int): (s: Curve)
    ensures |s| == |c|
    ensures forall i :: 0 <= i < |s| ==> s[i].tenor == c[i].tenor
    ensures forall i :: 0 <= i < |s| ==> s[i].yld - c[i].yld == BpsToDecimal(bps)
  {
    seq(|c|, i requires 0 <= i < |c| => CurvePoint(c[i].tenor, c[i].yld + BpsToDecimal(bps)))
  }

  /** Shifting the curve shifts every looked-up yield by the same amount,
      because the covering point depends on the tenors alone. */
  lemma {:induction false} FirstCoveringIgnoresYields(c: seq<CurvePoint>, d: seq<CurvePoint>, t: real)
    requires |c| == |d|
    requires forall i :: 0 <= i < |c| ==> c[i].tenor == d[i].tenor
    ensures FirstCovering(c, t) == FirstCovering(d, t)
  {
    if |c| > 0 && t > c[0].tenor as real {
      FirstCoveringIgnoresYields(c[1..], d[1..], t);
    }
  }

  lemma RateAtShocked(c: Curve, bps: int, t: real)
    ensures RateAt(Shocked(c, bps), t) == RateAt(c, t) + BpsToDecimal(bps)
  {
    FirstCoveringIgnoresYields(c, Shocked(c, bps), t);
  }

  /** A zero shock leaves the curve as it is. */
  lemma ShockedByZero(c: Curve)
    ensures Shocked(c, 0) == c
  {
    var s := Shocked(c, 0);
    assert forall i :: 0 <= i < |s| ==> s[i] == c[i];
  }
}
