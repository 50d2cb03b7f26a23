/** Discounting and the price / duration / convexity accumulator shared by
    the three bond valuation routines.

    Continuous compounding: a flow `(t, cf)` discounted at the all-in rate
    `r` is worth `cf * exp(-r * t)`. The exponential is not modelled; every
    operation takes the discount function `disc` (standing for
    `x => exp(-x)`) as a parameter, and the facts used about it are the
    ones `exp(-x)` has: it is positive and strictly decreasing. */
module Valuation {
  import opened Curve
  import opened Schedule

  ghost predicate Positive(disc: real -> real) {
    forall x :: disc(x) > 0.0
  }

  ghost predicate StrictlyDecreasing(disc: real -> real) {
    forall x, y :: x < y ==> disc(y) < disc(x)
  }

  /** A stand-in for `x => exp(-x)`. */
  ghost predicate IsDiscount(disc: real -> real) {
    Positive(disc) && StrictlyDecreasing(disc)
  }

  /** One row of a per-flow breakdown: time, amount, present value. */
  datatype FlowPV = FlowPV(time: real, amount: real, pv: real)

  /** Curve yield plus credit spread. */
  function AllInRate(c: Curve, spread: real, t: real): real {
    RateAt(c, t) + spread
  }

  /** `cf * exp(-r * t)`. */
  function PV(f: CashFlow, r: real, disc: real -> real): real {
    f.amount * disc(r * f.time)
  }

  /** `t ** p`. */
  function Weight(t: real, p: nat): real {
    if p == 0 then 1.0 else t * Weight(t, p - 1)
  }

  /** The weights of duration and convexity. */
  lemma SmallWeights(t: real)
    ensures Weight(t, 1) == t
    ensures Weight(t, 2) == t * t
  {
    assert Weight(t, 1) == t;
  }

  /** Sum over the flows of `t ** p * pv`, each flow discounted at its own
      all-in rate: the price for `p = 0`, `weighted_sum` for `p = 1`,
      `convexity_sum` for `p = 2`. Accumulated front to back, as the loop
      does. */
  function Moment(s: seq<CashFlow>, c: Curve, spread: real, disc: real -> real, p: nat): real
    decreases |s|
  {
    if |s| == 0 then 0.0
    else Moment(s[..|s| - 1], c, spread, disc, p) + Term(s[|s| - 1], c, spread, disc, p)
  }

  /** `mean` is the `weight`-weighted average whose weighted total is
      `total`: Macaulay duration and convexity are such averages over the
      price. */
  predicate IsMean(mean: real, weight: real, total: real) {
    mean * weight == total
  }

  /** The contribution `t ** p * pv` of one flow. */
  function Term(f: CashFlow, c: Curve, spread: real, disc: real -> real, p: nat): real {
    TermAt(f, AllInRate(c, spread, f.time), disc, p)
  }

  /** `t ** p * pv` at the all-in rate `r`. */
  function TermAt(f: CashFlow, r: real, disc: real -> real, p: nat): real {
    Weight(f.time, p) * PV(f, r, disc)
  }

  function Price(s: seq<CashFlow>, c: Curve, spread: real, disc: real -> real): real {
    Moment(s, c, spread, disc, 0)
  }

  /** The accumulation loop of bond_analytics.py: look the yield up, add the
      spread, discount, and add `pv`, `t * pv`, `t ** 2 * pv`. */
  method Accumulate(s: seq<CashFlow>, c: Curve, spread: real, disc: real -> real)
    returns (price: real, weightedSum: real, convexitySum: real)
    ensures price == Moment(s, c, spread, disc, 0)
    ensures weightedSum == Moment(s, c, spread, disc, 1)
    ensures convexitySum == Moment(s, c, spread, disc, 2)
  {
    price, weightedSum, convexitySum := 0.0, 0.0, 0.0;
    for i := 0 to |s|
      invariant price == Moment(s[..i], c, spread, disc, 0)
      invariant weightedSum == Moment(s[..i], c, spread, disc, 1)
      invariant convexitySum == Moment(s[..i], c, spread, disc, 2)
    {
      var f := s[i];
      var pv := DiscountFlow(f, c, spread, disc);
      price := price + pv;
      weightedSum := weightedSum + f.time * pv;
      convexitySum := convexitySum + (f.time * f.time) * pv;
      TermValues(f, c, spread, disc, pv);
      MomentStep(s, i, c, spread, disc, 0);
      MomentStep(s, i, c, spread, disc, 1);
      MomentStep(s, i, c, spread, disc, 2);
    }
    assert s[..|s|] == s;
  }

  /** Present value of one flow at the rate the curve lookup gives. */
  method DiscountFlow(f: CashFlow, c: Curve, spread: real, disc: real -> real) returns (pv: real)
    ensures pv == PV(f, AllInRate(c, spread, f.time), disc)
  {
    var yRf := LookupWithDefault(c, f.time);
    var r := yRf + spread;
    pv := PV(f, r, disc);
  }

  lemma MomentStep(s: seq<CashFlow>, i: nat, c: Curve, spread: real, disc: real -> real, p: nat)
    requires i < |s|
    ensures Moment(s[..i + 1], c, spread, disc, p) == Moment(s[..i], c, spread, disc, p) + Term(s[i], c, spread, disc, p)
  {
    assert s[..i + 1][..i] == s[..i];
  }

  /** The three weights the source uses: `1`, `t` and `t ** 2`. */
  lemma TermValues(f: CashFlow, c: Curve, spread: real, disc: real -> real, pv: real)
    requires pv == PV(f, AllInRate(c, spread, f.time), disc)
    ensures Term(f, c, spread, disc, 0) == pv
    ensures Term(f, c, spread, disc, 1) == f.time * pv
    ensures Term(f, c, spread, disc, 2) == (f.time * f.time) * pv
  {
    assert Weight(f.time, 0) == 1.0;
    SmallWeights(f.time);
  }

  /** Per-flow `(t, cf, pv)` with each flow's own rate. */
  function Detailed(s: seq<CashFlow>, c: Curve, spread: real, disc: real -> real): (rows: seq<FlowPV>)
    ensures |rows| == |s|
    ensures forall k :: 0 <= k < |s| ==>
      rows[k].time == s[k].time && rows[k].amount == s[k].amount
    ensures forall k :: 0 <= k < |s| ==> rows[k].pv == PV(s[k], AllInRate(c, spread, s[k].time), disc)
  {
    seq(|s|, k requires 0 <= k < |s| => FlowPV(s[k].time, s[k].amount, PV(s[k], AllInRate(c, spread, s[k].time), disc)))
  }

  /** Sum of the pv column of a breakdown. */
  function SumPV(rows: seq<FlowPV>): real
    decreases |rows|
  {
    if |rows| == 0 then 0.0 else SumPV(rows[..|rows| - 1]) + rows[|rows| - 1].pv
  }

  /** The breakdown with each flow's own rate adds up to the price. */
  lemma {:induction false} DetailedSumsToPrice(s: seq<CashFlow>, c: Curve, spread: real, disc: real -> real)
    ensures SumPV(Detailed(s, c, spread, disc)) == Price(s, c, spread, disc)
  {
    if |s| > 0 {
      var rows := Detailed(s, c, spread, disc);
      var init := s[..|s| - 1];
      DetailedSumsToPrice(init, c, spread, disc);
      assert rows[..|rows| - 1] == Detailed(init, c, spread, disc);
    }
  }

  /** The moments depend on the curve and spread only through the all-in
      rate at each flow's time. */
  lemma {:induction false} MomentRateCongruence(s: seq<CashFlow>, c1: Curve, spread1: real, c2: Curve, spread2: real,
                                                disc: real -> real, p: nat)
    requires forall k :: 0 <= k < |s| ==> AllInRate(c1, spread1, s[k].time) == AllInRate(c2, spread2, s[k].time)
    ensures Moment(s, c1, spread1, disc, p) == Moment(s, c2, spread2, disc, p)
  {
    if |s| > 0 {
      var init := s[..|s| - 1];
      assert forall k :: 0 <= k < |init| ==> init[k] == s[k];
      var f := s[|s| - 1];
      MomentRateCongruence(init, c1, spread1, c2, spread2, disc, p);
      assert AllInRate(c1, spread1, f.time) == AllInRate(c2, spread2, f.time);
      assert Term(f, c1, spread1, disc, p) == Term(f, c2, spread2, disc, p);
    }
  }

  /** With a single flow at time `t`, every moment is `t ** p` times the price. */
  lemma SingleFlowMoment(f: CashFlow, c: Curve, spread: real, disc: real -> real, p: nat)
    ensures Moment([f], c, spread, disc, p) == Weight(f.time, p) * Price([f], c, spread, disc)
  {
    assert [f][..0] == [];
    assert Moment([f], c, spread, disc, p) == Term(f, c, spread, disc, p);
    assert Moment([f], c, spread, disc, 0) == Term(f, c, spread, disc, 0);
    assert Weight(f.time, 0) == 1.0;
  }

  /** Discounting a non-negative amount at a higher rate gives no more, and
      a positive amount strictly less. */
  lemma PVDecreasesInRate(f: CashFlow, r1: real, r2: real, disc: real -> real)
    requires StrictlyDecreasing(disc)
    requires f.time > 0.0 && f.amount >= 0.0 && r1 < r2
    ensures PV(f, r2, disc) <= PV(f, r1, disc)
    ensures f.amount > 0.0 ==> PV(f, r2, disc) < PV(f, r1, disc)
  {
    assert r1 * f.time < r2 * f.time;
    var d1, d2 := disc(r1 * f.time), disc(r2 * f.time);
    assert d2 < d1;
    assert f.amount * d2 <= f.amount * d1;
  }

  /** Raising the spread lowers the price of a schedule whose amounts are
      non-negative and whose last amount is positive. */
  lemma {:induction false} PriceDecreasesInSpread(s: seq<CashFlow>, c: Curve, spread1: real, spread2: real,
                                                  disc: real -> real)
    requires StrictlyDecreasing(disc)
    requires spread1 < spread2
    requires TimesPositive(s)
    requires forall k :: 0 <= k < |s| ==> s[k].amount >= 0.0
    ensures Price(s, c, spread2, disc) <= Price(s, c, spread1, disc)
    ensures |s| > 0 && s[|s| - 1].amount > 0.0 ==> Price(s, c, spread2, disc) < Price(s, c, spread1, disc)
  {
    if |s| > 0 {
      var init := s[..|s| - 1];
      var f := s[|s| - 1];
      assert forall k :: 0 <= k < |init| ==> init[k] == s[k];
      PriceDecreasesInSpread(init, c, spread1, spread2, disc);
      PVDecreasesInRate(f, AllInRate(c, spread1, f.time), AllInRate(c, spread2, f.time), disc);
    }
  }

  /** With a positive discount function and non-negative amounts the
      price is non-negative, and positive once the last amount is. */
  lemma {:induction false} PriceSign(s: seq<CashFlow>, c: Curve, spread: real, disc: real -> real)
    requires Positive(disc)
    requires forall k :: 0 <= k < |s| ==> s[k].amount >= 0.0
    ensures Price(s, c, spread, disc) >= 0.0
    ensures |s| > 0 && s[|s| - 1].amount > 0.0 ==> Price(s, c, spread, disc) > 0.0
  {
    if |s| > 0 {
      var init := s[..|s| - 1];
      var f := s[|s| - 1];
      assert forall k :: 0 <= k < |init| ==> init[k] == s[k];
      PriceSign(init, c, spread, disc);
      var d := disc(AllInRate(c, spread, f.time) * f.time);
      assert d > 0.0;
      assert f.amount * d >= 0.0;
    }
  }
}
