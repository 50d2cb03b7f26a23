/** The curve-shock block of the dashboard (01_Bonds_risk/app.py): reprice
    one bond after a parallel shift of the whole risk-free curve.

    The block checks for a curve first, then for the bond row, then
    refuses a bond whose remaining life is not positive. Otherwise it
    builds the ceiling schedule, shifts every yield by `shock_bps / 10000`,
    and sums `cf * exp(-(shocked(t) + spread) * t)`. */
module Scenario {
  import opened Common
  import opened Curve
  import opened Schedule
  import opened Valuation
  import PricingWithDuration

  /** What the block ends up showing. */
  datatype Outcome =
    | NoCurve           // "No yield curve available."
    | NoBond            // the bond row was not found: nothing is shown
    | Matured           // "Bond matured; cannot scenario price."
    | Priced(price: real)

  function ShockPrice(bond: Option<Bond>, asOf: int, shockBps: int, curve: Option<Curve>, spread: Option<real>,
                      disc: real -> real): (r: Outcome)
    ensures r == NoCurve <==> curve.None?
    ensures r == NoBond <==> curve.Some? && bond.None?
    ensures r == Matured <==> curve.Some? && bond.Some? && bond.value.maturity <= asOf
  {
    if curve.None? then NoCurve
    else if bond.None? then NoBond
    else
      var b := bond.value;
      if YearsToMaturity(asOf, b.maturity) <= 0.0 then Matured
      else Priced(Price(CeilSchedule(b, asOf), Shocked(curve.value, shockBps), spread.GetOr(0.0), disc))
  }

  /** Shifting the curve by `bps` prices like adding `bps / 10000` to the
      credit spread: the same ceiling schedule, each flow at its base
      all-in rate plus the shift. */
  lemma ShockActsAsSpread(b: Bond, asOf: int, shockBps: int, c: Curve, spread: Option<real>, disc: real -> real)
    requires b.maturity > asOf
    ensures ShockPrice(Some(b), asOf, shockBps, Some(c), spread, disc)
         == Priced(Price(CeilSchedule(b, asOf), c, spread.GetOr(0.0) + BpsToDecimal(shockBps), disc))
  {
    ShiftedCurveAsSpread(CeilSchedule(b, asOf), c, shockBps, spread.GetOr(0.0), disc);
  }

  /** The same for any schedule: pricing on the shifted curve equals
      pricing on the base curve with the shift added to the spread. */
  lemma ShiftedCurveAsSpread(s: seq<CashFlow>, c: Curve, shockBps: int, sp: real, disc: real -> real)
    ensures Price(s, Shocked(c, shockBps), sp, disc) == Price(s, c, sp + BpsToDecimal(shockBps), disc)
  {
    ShiftedRates(s, c, shockBps, sp);
    MomentRateCongruence(s, Shocked(c, shockBps), sp, c, sp + BpsToDecimal(shockBps), disc, 0);
  }

  /** Flow by flow, the all-in rate on the shifted curve is the base
      all-in rate plus the shift. */
  lemma ShiftedRates(s: seq<CashFlow>, c: Curve, shockBps: int, sp: real)
    ensures forall k :: 0 <= k < |s| ==>
      AllInRate(Shocked(c, shockBps), sp, s[k].time) == AllInRate(c, sp + BpsToDecimal(shockBps), s[k].time)
  {
    forall k | 0 <= k < |s|
      ensures AllInRate(Shocked(c, shockBps), sp, s[k].time) == AllInRate(c, sp + BpsToDecimal(shockBps), s[k].time)
    {
      RateAtShocked(c, shockBps, s[k].time);
    }
  }

  /** A zero shock reproduces pricing_with_duration.py for any bond that
      has not matured: the same figure when that routine returns one, and
      a zero price exactly where that routine divides by zero. */
  lemma ZeroShockMatchesPricingWithDuration(b: Bond, asOf: int, c: Curve, spread: Option<real>, disc: real -> real)
    requires b.maturity > asOf
    ensures var r := ShockPrice(Some(b), asOf, 0, Some(c), spread, disc);
      var q := PricingWithDuration.PriceAndDuration(Some(b), asOf, Some(c), spread, disc);
      && r.Priced?
      && (q.Ok? ==> q.value.price == r.price)
      && (q.Err? <==> r.price == 0.0)
  {
    ShockedByZero(c);
  }

  /** A larger upward shift gives a strictly lower scenario price for a
      bond with positive face and non-negative coupon. */
  lemma PriceFallsAsShockRises(b: Bond, asOf: int, c: Curve, spread: Option<real>, bps1: int, bps2: int,
                               disc: real -> real)
    requires StrictlyDecreasing(disc)
    requires b.maturity > asOf
    requires b.face > 0.0 && b.couponRate >= 0.0
    requires bps1 < bps2
    ensures ShockPrice(Some(b), asOf, bps2, Some(c), spread, disc).price
          < ShockPrice(Some(b), asOf, bps1, Some(c), spread, disc).price
  {
    var s := CeilSchedule(b, asOf);
    var sp := spread.GetOr(0.0);
    var lo := Price(s, c, sp + BpsToDecimal(bps2), disc);
    var hi := Price(s, c, sp + BpsToDecimal(bps1), disc);
    assert lo < hi by {
      assert BpsToDecimal(bps1) < BpsToDecimal(bps2);
      CeilScheduleAmounts(b, asOf);
      PriceDecreasesInSpread(s, c, sp + BpsToDecimal(bps1), sp + BpsToDecimal(bps2), disc);
    }
    OrderedShockPrices(b, asOf, c, spread, bps1, bps2, disc);
  }

  /** Scenario prices compare as the base-curve prices at the shifted
      spreads do. */
  lemma OrderedShockPrices(b: Bond, asOf: int, c: Curve, spread: Option<real>, bps1: int, bps2: int,
                           disc: real -> real)
    requires b.maturity > asOf
    requires var s, sp := CeilSchedule(b, asOf), spread.GetOr(0.0);
      Price(s, c, sp + BpsToDecimal(bps2), disc) < Price(s, c, sp + BpsToDecimal(bps1), disc)
    ensures ShockPrice(Some(b), asOf, bps2, Some(c), spread, disc).price
          < ShockPrice(Some(b), asOf, bps1, Some(c), spread, disc).price
  {
    ShockActsAsSpread(b, asOf, bps1, c, spread, disc);
    ShockActsAsSpread(b, asOf, bps2, c, spread, disc);
  }
}
