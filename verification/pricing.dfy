/** `price_bond` of 01_Bonds_risk/src/pricing.py: price only.

    Truncating payment count, and the face value is added through an
    unguarded `cash_flows[-1]`: whenever the count is not positive (less
    than one period left, or a matured bond, for which there is no guard)
    the routine raises `IndexError` and returns no price. */
module Pricing {
  import opened Common
  import opened Curve
  import opened Schedule
  import opened Valuation
  import BondAnalytics

  function PriceBond(bond: Option<Bond>, asOf: int, curve: Option<Curve>, spread: Option<real>,
                     disc: real -> real): (r: Result<real>)
    ensures r == Err(UnknownBond) <==> bond.None?
    ensures r == Err(CurveUnavailable) <==> bond.Some? && curve.None?
    ensures r == Err(IndexError) <==> bond.Some? && curve.Some? && TruncCount(bond.value, asOf) <= 0
  {
    if bond.None? then Err(UnknownBond)
    else if curve.None? then Err(CurveUnavailable)
    else
      var b := bond.value;
      var coupons := CouponFlows(TruncCount(b, asOf), b.freq, CouponAmount(b));
      if |coupons| == 0 then Err(IndexError)
      else Ok(Price(AddFaceToLast(coupons, b.face), curve.value, spread.GetOr(0.0), disc))
  }

  /** A bond at or past maturity never gets a price. */
  lemma MaturedBondRaises(b: Bond, asOf: int, c: Curve, spread: Option<real>, disc: real -> real)
    requires b.maturity <= asOf
    ensures PriceBond(Some(b), asOf, Some(c), spread, disc) == Err(IndexError)
  {
  }

  /** The returned price is the sum of `cf * exp(-r * t)` over the flows
      of the truncated schedule, each at its own all-in rate; only the last
      of those flows carries the face value. */
  lemma PriceIsSumOfDiscountedFlows(b: Bond, asOf: int, c: Curve, spread: Option<real>, disc: real -> real)
    requires PriceBond(Some(b), asOf, Some(c), spread, disc).Ok?
    ensures var s := TruncSchedule(b, asOf);
      && |s| == TruncCount(b, asOf) >= 1
      && (forall k :: 0 <= k < |s| - 1 ==> s[k].amount == CouponAmount(b))
      && s[|s| - 1].amount == CouponAmount(b) + b.face
      && PriceBond(Some(b), asOf, Some(c), spread, disc).value == SumPV(Detailed(s, c, spread.GetOr(0.0), disc))
  {
    TruncScheduleShape(b, asOf);
    DetailedSumsToPrice(TruncSchedule(b, asOf), c, spread.GetOr(0.0), disc);
  }

  /** Where both routines produce a figure they agree: a positive price
      here is the price bond_analytics.py reports, and bond_analytics.py
      falls back to the all-zero result exactly when this routine fails or
      prices at most 0 (for a bond that has not matured). */
  lemma AgreesWithAnalytics(b: Bond, asOf: int, c: Curve, spread: Option<real>, disc: real -> real)
    requires b.maturity > asOf
    ensures var p := PriceBond(Some(b), asOf, Some(c), spread, disc);
      var a := BondAnalytics.PriceAndDuration(Some(b), asOf, Some(c), spread, disc);
      && a.Ok?
      && (p.Ok? && p.value > 0.0 ==> a.value.price == p.value)
      && (a.value == BondAnalytics.Degenerate <==> p.Err? || p.value <= 0.0)
  {
    var s := TruncSchedule(b, asOf);
    if TruncCount(b, asOf) <= 0 {
      assert s == [];
    }
  }
}
