/** `price_and_duration` of 01_Bonds_risk/src/pricing_with_duration.py.

    Ceiling payment count (at least one flow, and no maturity guard, so a
    matured bond is still priced on one flow at `1 / freq`), price and
    Macaulay duration from one accumulation, a per-flow `(t, cf, pv)` list
    at each flow's own rate, and no convexity. The division by the price
    is unguarded: a zero price raises `ZeroDivisionError`. */
module PricingWithDuration {
  import opened Common
  import opened Curve
  import opened Schedule
  import opened Valuation

  /** The returned dict: no convexity key. */
  datatype DurationResult = DurationResult(
    price: real,
    macaulay: real,
    modified: real,
    cashFlows: seq<FlowPV>)

  /** Lines 53-75: accumulate, divide by the price without a guard. */
  function Summarize(s: seq<CashFlow>, c: Curve, spread: real, disc: real -> real): (r: Result<DurationResult>)
    ensures r.Err? <==> Price(s, c, spread, disc) == 0.0
    ensures r.Err? ==> r.error == ZeroDivision
    ensures r.Ok? ==> r.value.modified == r.value.macaulay
    ensures r.Ok? ==> r.value.price == Price(s, c, spread, disc)
    ensures r.Ok? ==> IsMean(r.value.macaulay, r.value.price, Moment(s, c, spread, disc, 1))
  {
    var price := Price(s, c, spread, disc);
    if price == 0.0 then Err(ZeroDivision)
    else Ok(Normalise(price, Moment(s, c, spread, disc, 1), Detailed(s, c, spread, disc)))
  }

  /** Lines 64-75: the Macaulay duration is the price-weighted mean time,
      so scaling it back by the price recovers the weighted sum. */
  function Normalise(price: real, weightedSum: real, rows: seq<FlowPV>): (r: DurationResult)
    requires price != 0.0
    ensures r.price == price && r.modified == r.macaulay && r.cashFlows == rows
    ensures IsMean(r.macaulay, r.price, weightedSum)
  {
    var macaulay := weightedSum / price;
    DurationResult(price, macaulay, macaulay, rows)
  }

  /** The whole routine, with the bond row, the curve and the spread
      lookup lifted into parameters (`None` when not found). */
  function PriceAndDuration(bond: Option<Bond>, asOf: int, curve: Option<Curve>, spread: Option<real>,
                            disc: real -> real): (r: Result<DurationResult>)
    ensures r == Err(UnknownBond) <==> bond.None?
    ensures r == Err(CurveUnavailable) <==> bond.Some? && curve.None?
    ensures r == Err(ZeroDivision) <==>
      bond.Some? && curve.Some? && Price(CeilSchedule(bond.value, asOf), curve.value, spread.GetOr(0.0), disc) == 0.0
  {
    if bond.None? then Err(UnknownBond)
    else if curve.None? then Err(CurveUnavailable)
    else Summarize(CeilSchedule(bond.value, asOf), curve.value, spread.GetOr(0.0), disc)
  }

  /** `detailed` has one `(t, cf, pv)` per scheduled flow, at least one, and
      its pv column adds up to the (unrounded) price. */
  lemma DetailedMatchesSchedule(b: Bond, asOf: int, c: Curve, spread: Option<real>, disc: real -> real)
    requires PriceAndDuration(Some(b), asOf, Some(c), spread, disc).Ok?
    ensures var r := PriceAndDuration(Some(b), asOf, Some(c), spread, disc).value;
      var s := CeilSchedule(b, asOf);
      && |r.cashFlows| == |s| >= 1
      && (forall k :: 0 <= k < |s| ==> r.cashFlows[k].time == s[k].time && r.cashFlows[k].amount == s[k].amount)
      && SumPV(r.cashFlows) == r.price
  {
    DetailedSumsToPrice(CeilSchedule(b, asOf), c, spread.GetOr(0.0), disc);
  }

  /** No maturity guard: a bond that has already matured is priced on a
      single flow at `1 / freq` repaying coupon and face, and with a
      positive discount function and positive face it is priced at all. */
  lemma MaturedBondStillPriced(b: Bond, asOf: int, c: Curve, spread: Option<real>, disc: real -> real)
    requires b.maturity <= asOf
    requires Positive(disc)
    requires b.face > 0.0 && b.couponRate >= 0.0
    ensures PriceAndDuration(Some(b), asOf, Some(c), spread, disc).Ok?
    ensures PriceAndDuration(Some(b), asOf, Some(c), spread, disc).value.cashFlows
         == [FlowPV(PaymentTime(1, b.freq), CouponAmount(b) + b.face,
                    PV(CashFlow(PaymentTime(1, b.freq), CouponAmount(b) + b.face),
                       AllInRate(c, spread.GetOr(0.0), PaymentTime(1, b.freq)), disc))]
  {
    ShortHorizonSchedules(b, asOf);
    var s := CeilSchedule(b, asOf);
    CouponNonNegative(b);
    PriceSign(s, c, spread.GetOr(0.0), disc);
  }

  /** With a positive discount function, a positive face value and a
      non-negative coupon the price is positive, so no `ZeroDivisionError`
      can occur once the bond and the curve are found. */
  lemma PositiveBondIsPriced(b: Bond, asOf: int, c: Curve, spread: Option<real>, disc: real -> real)
    requires Positive(disc)
    requires b.face > 0.0 && b.couponRate >= 0.0
    ensures PriceAndDuration(Some(b), asOf, Some(c), spread, disc).Ok?
    ensures PriceAndDuration(Some(b), asOf, Some(c), spread, disc).value.price > 0.0
  {
    var s := CeilSchedule(b, asOf);
    CeilScheduleShape(b, asOf);
    CouponNonNegative(b);
    PriceSign(s, c, spread.GetOr(0.0), disc);
  }
}
