/** `price_and_duration` of 01_Bonds_risk/src/bond_analytics.py: the
    valuation used by the batch job and the dashboard.

    Truncating payment count; an early all-zero result for a matured bond
    (checked before the curve is looked up); price, duration and convexity
    from one accumulation; a second all-zero result when the accumulated
    price is not positive; and a per-flow breakdown. As written, the
    breakdown's present values are all taken at the rate left over from
    the last loop iteration (`Summarize`, `PriceAndDuration`);
    `SummarizeCorrected` and `PriceAndDurationCorrected` discount each row
    at its own flow's rate. */
module BondAnalytics {
  import opened Common
  import opened Curve
  import opened Schedule
  import opened Valuation

  datatype RiskResult = RiskResult(
    price: real,
    macaulay: real,
    modified: real,
    convexity: real,
    cashFlows: seq<FlowPV>)

  /** The "nothing to show" result: all zeros and no breakdown. */
  const Degenerate: RiskResult := RiskResult(0.0, 0.0, 0.0, 0.0, [])

  /** The breakdown as written: every row discounted at `rate`, the
      all-in rate of the last flow. */
  function Breakdown(s: seq<CashFlow>, rate: real, disc: real -> real): seq<FlowPV> {
    seq(|s|, k requires 0 <= k < |s| => FlowPV(s[k].time, s[k].amount, PV(s[k], rate, disc)))
  }

  /** Lines 53-90: accumulate, guard the division, normalise. */
  function Summarize(s: seq<CashFlow>, c: Curve, spread: real, disc: real -> real): (r: RiskResult)
    ensures r.modified == r.macaulay
    ensures r == Degenerate <==> Price(s, c, spread, disc) <= 0.0
    ensures r != Degenerate ==> r.price == Price(s, c, spread, disc) > 0.0
    ensures r != Degenerate ==> IsMean(r.macaulay, r.price, Moment(s, c, spread, disc, 1))
    ensures r != Degenerate ==> IsMean(r.convexity, r.price, Moment(s, c, spread, disc, 2))
  {
    var price := Moment(s, c, spread, disc, 0);
    if price <= 0.0 then Degenerate
    else
      assert |s| > 0;
      var lastRate := AllInRate(c, spread, s[|s| - 1].time);
      Normalise(price, Moment(s, c, spread, disc, 1), Moment(s, c, spread, disc, 2), Breakdown(s, lastRate, disc))
  }

  /** Lines 79-90: divide the weighted sums by a positive price. Macaulay
      duration and convexity are the price-weighted means of `t` and
      `t ** 2`, so scaling them back by the price recovers the sums. */
  function Normalise(price: real, weightedSum: real, convexitySum: real, rows: seq<FlowPV>): (r: RiskResult)
    requires price > 0.0
    ensures r.price == price && r.modified == r.macaulay && r.cashFlows == rows
    ensures IsMean(r.macaulay, r.price, weightedSum)
    ensures IsMean(r.convexity, r.price, convexitySum)
  {
    var macaulay := weightedSum / price;
    RiskResult(price, macaulay, macaulay, convexitySum / price, rows)
  }

  /** The whole routine, with the bond row, the curve and the spread
      lookup lifted into parameters (`None` when not found). The breakdown
      is the one the code builds: every row at the last flow's rate. */
  function PriceAndDuration(bond: Option<Bond>, asOf: int, curve: Option<Curve>, spread: Option<real>,
                            disc: real -> real): (r: Result<RiskResult>)
    ensures r == Err(UnknownBond) <==> bond.None?
    ensures bond.Some? && bond.value.maturity <= asOf ==> r == Ok(Degenerate)
    ensures r == Err(CurveUnavailable) <==> bond.Some? && bond.value.maturity > asOf && curve.None?
    ensures r.Ok? ==> r.value.modified == r.value.macaulay
    ensures r.Ok? ==> r.value.price > 0.0 || r.value == Degenerate
    ensures r.Ok? && r.value != Degenerate ==>
      var s := TruncSchedule(bond.value, asOf);
      && |r.value.cashFlows| == |s| > 0
      && forall k :: 0 <= k < |s| ==>
           r.value.cashFlows[k] == FlowPV(s[k].time, s[k].amount,
                                          PV(s[k], AllInRate(curve.value, spread.GetOr(0.0), s[|s| - 1].time), disc))
  {
    if bond.None? then Err(UnknownBond)
    else
      var b := bond.value;
      if b.maturity <= asOf then Ok(Degenerate)
      else if curve.None? then Err(CurveUnavailable)
      else Ok(Summarize(TruncSchedule(b, asOf), curve.value, spread.GetOr(0.0), disc))
  }

  /** The evidently intended routine: the same guards and figures, with
      each breakdown row discounted at its own flow's rate, so the rows
      add up to the price. */
  function PriceAndDurationCorrected(bond: Option<Bond>, asOf: int, curve: Option<Curve>, spread: Option<real>,
                                     disc: real -> real): (r: Result<RiskResult>)
    ensures var w := PriceAndDuration(bond, asOf, curve, spread, disc);
      && r.Ok? == w.Ok?
      && (r.Err? ==> r == w)
      && (r.Ok? ==> r.value.price == w.value.price && r.value.macaulay == w.value.macaulay
                    && r.value.modified == w.value.modified && r.value.convexity == w.value.convexity)
    ensures r.Ok? ==> SumPV(r.value.cashFlows) == r.value.price
    ensures r.Ok? && r.value != Degenerate ==>
      && bond.Some? && curve.Some?
      && r.value.cashFlows == Detailed(TruncSchedule(bond.value, asOf), curve.value, spread.GetOr(0.0), disc)
  {
    if bond.None? then Err(UnknownBond)
    else
      var b := bond.value;
      if b.maturity <= asOf then Ok(Degenerate)
      else if curve.None? then Err(CurveUnavailable)
      else
        CorrectedBreakdownSumsToPrice(TruncSchedule(b, asOf), curve.value, spread.GetOr(0.0), disc);
        Ok(SummarizeCorrected(TruncSchedule(b, asOf), curve.value, spread.GetOr(0.0), disc))
  }

  /** Less than one whole period left: no flows, price 0, all-zero result;
      the face value is never discounted. */
  lemma NoWholePeriodIsDegenerate(b: Bond, asOf: int, c: Curve, spread: Option<real>, disc: real -> real)
    requires Periods(b, asOf) < 1.0
    ensures PriceAndDuration(Some(b), asOf, Some(c), spread, disc) == Ok(Degenerate)
  {
    ShortHorizonSchedules(b, asOf);
  }

  /** A single flow at time `t`: Macaulay duration `t`, convexity `t * t`. */
  lemma SingleFlowDuration(f: CashFlow, c: Curve, spread: real, disc: real -> real)
    requires Summarize([f], c, spread, disc) != Degenerate
    ensures Summarize([f], c, spread, disc).macaulay == f.time
    ensures Summarize([f], c, spread, disc).convexity == f.time * f.time
  {
    var r := Summarize([f], c, spread, disc);
    SingleFlowRatio(f, c, spread, disc, 1, r.macaulay, r.price);
    SingleFlowRatio(f, c, spread, disc, 2, r.convexity, r.price);
    SmallWeights(f.time);
  }

  /** Dividing a single flow's `p`-th moment by its price leaves `t ** p`. */
  lemma SingleFlowRatio(f: CashFlow, c: Curve, spread: real, disc: real -> real, p: nat, a: real, price: real)
    requires price == Price([f], c, spread, disc) > 0.0
    requires IsMean(a, price, Moment([f], c, spread, disc, p))
    ensures a == Weight(f.time, p)
  {
    SingleFlowMoment(f, c, spread, disc, p);
    assert (a - Weight(f.time, p)) * price == 0.0;
  }

  /** One breakdown row per flow, with the flow's time and amount; every
      pv is taken at the all-in rate of the LAST flow. */
  lemma BreakdownShape(s: seq<CashFlow>, c: Curve, spread: real, disc: real -> real)
    requires Summarize(s, c, spread, disc) != Degenerate
    ensures var rows := Summarize(s, c, spread, disc).cashFlows;
      && |rows| == |s| > 0
      && forall k :: 0 <= k < |s| ==>
           && rows[k].time == s[k].time
           && rows[k].amount == s[k].amount
           && rows[k].pv == PV(s[k], AllInRate(c, spread, s[|s| - 1].time), disc)
  {
  }

  /** As written, the breakdown does not add up to the price: on a two-flow
      schedule over a two-point curve, the first flow is discounted at the
      second tenor's yield. */
  lemma BreakdownMisprices(disc: real -> real)
    requires IsDiscount(disc)
    ensures var c := [CurvePoint(1, 0.03), CurvePoint(5, 0.05)];
      var s := [CashFlow(1.0, 50.0), CashFlow(2.0, 1050.0)];
      var r := Summarize(s, c, 0.0, disc);
      r != Degenerate && SumPV(r.cashFlows) < r.price
  {
    var c: Curve := [CurvePoint(1, 0.03), CurvePoint(5, 0.05)];
    var s := [CashFlow(1.0, 50.0), CashFlow(2.0, 1050.0)];
    RateAtFirstCovering(c, 1.0, 0);
    RateAtFirstCovering(c, 2.0, 1);
    PriceSign(s, c, 0.0, disc);
    var r := Summarize(s, c, 0.0, disc);
    var rows := r.cashFlows;
    BreakdownShape(s, c, 0.0, disc);
    DetailedSumsToPrice(s, c, 0.0, disc);
    var d := Detailed(s, c, 0.0, disc);
    assert rows[..1][..0] == [] && d[..1][..0] == [];
    assert rows[..|rows| - 1] == rows[..1];
    assert d[..|d| - 1] == d[..1];
    assert rows[1].pv == d[1].pv;
    assert 0.05 * 1.0 > 0.03 * 1.0;
    assert rows[0].pv < d[0].pv;
  }

  /** The same on a whole bond: face 1000, a 5% annual coupon, two years
      to maturity, priced against that curve with no spread. The routine
      returns a breakdown whose rows add up to less than its price. */
  lemma PriceAndDurationMisprices(disc: real -> real)
    requires IsDiscount(disc)
    ensures var b := Bond(0, 730, 0.05, 1, 1000.0, "AAA");
      var r := PriceAndDuration(Some(b), 0, Some([CurvePoint(1, 0.03), CurvePoint(5, 0.05)]), None, disc);
      r.Ok? && SumPV(r.value.cashFlows) < r.value.price
  {
    var b := Bond(0, 730, 0.05, 1, 1000.0, "AAA");
    assert Periods(b, 0) == 2.0;
    assert TruncCount(b, 0) == 2;
    assert CouponAmount(b) == 50.0;
    var flows := CouponFlows(2, 1, 50.0);
    assert flows == [CashFlow(1.0, 50.0), CashFlow(2.0, 50.0)];
    assert TruncSchedule(b, 0) == [CashFlow(1.0, 50.0), CashFlow(2.0, 1050.0)];
    BreakdownMisprices(disc);
  }

  /** The evidently intended result: the figures of `Summarize`, with each
      breakdown row discounted at its own flow's rate. */
  function SummarizeCorrected(s: seq<CashFlow>, c: Curve, spread: real, disc: real -> real): (r: RiskResult)
    ensures r == Degenerate <==> Summarize(s, c, spread, disc) == Degenerate
    ensures var w := Summarize(s, c, spread, disc);
      r.price == w.price && r.macaulay == w.macaulay && r.modified == w.modified && r.convexity == w.convexity
    ensures r != Degenerate ==> r.cashFlows == Detailed(s, c, spread, disc)
  {
    var r := Summarize(s, c, spread, disc);
    if r == Degenerate then r else r.(cashFlows := Detailed(s, c, spread, disc))
  }

  /** With each flow at its own rate the breakdown adds up to the price. */
  lemma CorrectedBreakdownSumsToPrice(s: seq<CashFlow>, c: Curve, spread: real, disc: real -> real)
    ensures var r := SummarizeCorrected(s, c, spread, disc);
      && SumPV(r.cashFlows) == r.price
      && (r != Degenerate ==> |r.cashFlows| == |s|)
  {
    DetailedSumsToPrice(s, c, spread, disc);
  }
}
