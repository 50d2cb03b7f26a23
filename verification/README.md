# Risk lab valuation core, modelled in Dafny

This project models the valuation engine of the synthetic bond risk lab,
plus two smaller routines that share its code base: the per-bank base
ratios and the synthetic bond generator.

- **Valuation engine.** Each bond's remaining coupon flows are built and
  discounted with continuous compounding. The risk-free rate comes from a
  step-function yield curve (the first tenor at or beyond the flow's time,
  otherwise the last tenor), and a credit spread is added to it. The
  engine reports the price, the Macaulay and modified durations and the
  convexity. Three routines do this, with different schedule policies and
  error handling:
  - `price_and_duration` in `src/bond_analytics.py`;
  - `price_and_duration` in `src/pricing_with_duration.py`;
  - `price_bond` in `src/pricing.py`.

  The dashboard's curve-shock block (`app.py`) reprices one bond after a
  parallel shift of the curve.
- **Bank ratios** (`analytics/metrics.py`): the loan-to-deposit ratio, the
  NPL share and the capital-adequacy ratio, guarded against NULL and zero
  divisors. One upsert is issued per bank.
- **Bond generator** (`src/utils/bond_generator.py`): ISIN shape, the
  year-adding maturity rule with its day fallback, and `generate_bonds`.

The modules follow the source's structure:

| module | file | what it holds |
|---|---|---|
| `Common` | common.dfy | `Option`, `Result`, the error kinds, Python's `int()` and `math.ceil` |
| `Curve` | curve.dfy | curve points, the yield lookup (both spellings), the parallel shift |
| `Schedule` | schedule.dfy | bond terms, the truncating and the ceiling schedule builders |
| `Valuation` | valuation.dfy | discounting, the price / duration / convexity accumulator, the per-flow breakdown |
| `BondAnalytics` | bond_analytics.dfy | `price_and_duration` of bond_analytics.py |
| `PricingWithDuration` | pricing_with_duration.dfy | `price_and_duration` of pricing_with_duration.py |
| `Pricing` | pricing.dfy | `price_bond` |
| `Scenario` | scenario.dfy | the curve-shock block of the dashboard |
| `BankMetrics` | bank_metrics.dfy | `compute_base_metrics` |
| `BondGenerator` | bond_generator.dfy | `random_isin`, `random_maturity`, `generate_random_bond`, `generate_bonds` |

Modelling conventions:

- **Arithmetic.** Floating point is replaced by Dafny's exact `real`.
- **Dates in the pricers** are day numbers. `(maturity - as_of).days / 365.0`
  becomes `(maturity - asOf) / 365.0`.
- **The exponential.** `math.exp` is replaced by a discount function
  `disc`, a parameter that stands for `x => exp(-x)`. The only facts used
  about it are the ones `exp(-x)` has: it is positive and it is strictly
  decreasing (`Valuation.IsDiscount`).
- **The database.** The bond row, the latest curve and the credit spread
  are inputs. Each is `None` when the query finds nothing.
  - A found curve is a non-empty sequence of points: the curve date is
    taken from the same table, so a date exists only when it has points.
  - Coupon frequency is a positive integer.
- **Exceptions** are `Err` values of a `Result`:
  - `ValueError` for a missing bond or curve;
  - `IndexError` for `cash_flows[-1]` on an empty list;
  - `ZeroDivisionError`;
  - `TypeError` for `None / x`;
  - `ValueError` for an invalid `datetime.date`.

How the files differ from each other, as the code is written:

- `bond_analytics.py` and `pricing.py` truncate the payment count
  (`int(years * freq)`); `pricing_with_duration.py` and the scenario block
  of `app.py` use `max(1, ceil(years * freq))`. Both policies are
  modelled, and their differences are proved
  (`Schedule.PoliciesAgreeOnWholePeriods`, `Schedule.CeilingAddsPeriodOffGrid`,
  `Schedule.ShortHorizonSchedules`).
- `pricing_with_duration.py` has no maturity guard and prices a matured
  bond on one flow (`PricingWithDuration.MaturedBondStillPriced`), while
  `pricing.py` raises on it and `bond_analytics.py` returns all zeros.
- In `bond_analytics.py` the matured-bond check runs before the curve
  lookup. A matured bond with no curve therefore gets the all-zero result,
  not an error.
- The bank ratios of `metrics.py` share nothing with the bond engine; they
  are a separate module.

`BondAnalytics.PriceAndDuration` returns the breakdown as the code builds
it, every row at the last flow's rate. `BondAnalytics.PriceAndDurationCorrected`
is the same routine with the breakdown described under Findings corrected.

## Model

| member | source | states |
|---|---|---|
| Common.Trunc | 01_Bonds_risk/src/bond_analytics.py:47 | `int(x)` rounds toward zero: the result lies within one of `x` on the side of zero |
| Common.Ceil | 01_Bonds_risk/src/pricing_with_duration.py:43 | `math.ceil(x)` is the least integer not below `x` |
| Curve.FirstCovering | 01_Bonds_risk/src/pricing_with_duration.py:35-38 | the index found is the first point whose tenor is at least `t`, or the length when none is |
| Curve.RateAt | 01_Bonds_risk/src/pricing_with_duration.py:35-39 | the yield used for time `t` is that of the first point covering `t`, or the last point's yield when every tenor lies below `t` |
| Curve.RateAtFirstCovering | 01_Bonds_risk/src/pricing_with_duration.py:36-38 | whenever some point covers `t`, the first covering point decides the yield |
| Curve.FlatExtrapolation | 01_Bonds_risk/src/pricing_with_duration.py:39 | beyond the longest tenor of a sorted curve the last yield applies |
| Curve.LookupWithDefault | 01_Bonds_risk/src/bond_analytics.py:58-62 | the default-then-break loop returns exactly the yield of the early-return helper |
| Curve.Shocked | 01_Bonds_risk/app.py:286 | the shocked curve has the same tenors and every yield moved by `shock_bps / 10000` |
| Curve.RateAtShocked | 01_Bonds_risk/app.py:320-325 | a lookup on the shocked curve gives the base lookup plus the shift |
| Curve.ShockedByZero | 01_Bonds_risk/app.py:286 | a zero shock leaves the curve unchanged |
| Schedule.YearsToMaturity | 01_Bonds_risk/src/bond_analytics.py:45 | the time to maturity is positive exactly when maturity is after the valuation date |
| Schedule.CouponNonNegative | 01_Bonds_risk/src/bond_analytics.py:46 | a non-negative rate on a non-negative face gives a non-negative coupon |
| Schedule.CeilCount | 01_Bonds_risk/src/pricing_with_duration.py:43 | the ceiling policy always schedules at least one payment |
| Schedule.CouponFlows | 01_Bonds_risk/src/pricing.py:47-50 | `n` coupon flows (none for `n <= 0`), flow `k` at `(k + 1) / freq` |
| Schedule.AddFaceToLast | 01_Bonds_risk/src/bond_analytics.py:50-51 | only the last flow changes, by the face value; an empty list stays empty |
| Schedule.FlowsUpTo | 01_Bonds_risk/src/pricing_with_duration.py:45-51 | the in-loop builder: flow `k` at `(k + 1) / freq`, the face added exactly at `i == n_payments` |
| Schedule.PaymentTimesIncrease | 01_Bonds_risk/src/bond_analytics.py:48 | later payment indices fall at strictly later times |
| Schedule.ScheduleTimes | 01_Bonds_risk/src/bond_analytics.py:48 | every schedule pays at strictly increasing, positive times |
| Schedule.LoopAndPatchAgree | 01_Bonds_risk/src/pricing_with_duration.py:46-51 | adding the face inside the loop equals appending coupons and patching the last flow |
| Schedule.TruncScheduleShape | 01_Bonds_risk/src/bond_analytics.py:45-51 | the truncating schedule has `int(years * freq)` flows of the stated shape |
| Schedule.CeilScheduleShape | 01_Bonds_risk/src/pricing_with_duration.py:42-51 | the ceiling schedule has `max(1, ceil(years * freq))` flows of the stated shape, and equals the patched form |
| Schedule.CeilScheduleAmounts | 01_Bonds_risk/src/pricing_with_duration.py:42-51 | positive face and non-negative coupon give non-negative amounts, positive times and a positive final amount |
| Schedule.CeilScheduleFaceOnLastOnly | 01_Bonds_risk/src/pricing_with_duration.py:49-50 | the last flow and only the last flow carries the face value |
| Schedule.PoliciesAgreeOnWholePeriods | 01_Bonds_risk/src/pricing_with_duration.py:43 | on a whole, positive number of periods the two policies build the same schedule |
| Schedule.CeilingAddsPeriodOffGrid | 01_Bonds_risk/src/pricing_with_duration.py:43 | off the period grid the ceiling policy pays one more coupon than truncation |
| Schedule.ShortHorizonSchedules | 01_Bonds_risk/src/bond_analytics.py:47-51 | with under one period left, truncation gives no flows and the ceiling policy one flow repaying coupon and face |
| Valuation.Accumulate | 01_Bonds_risk/src/bond_analytics.py:53-67 | the loop's three sums are the price and the first and second time moments of the discounted flows |
| Valuation.DiscountFlow | 01_Bonds_risk/src/bond_analytics.py:58-64 | one flow is discounted at its own curve yield plus spread |
| Valuation.MomentStep | 01_Bonds_risk/src/bond_analytics.py:65-67 | each iteration adds exactly the next flow's contribution |
| Valuation.TermValues | 01_Bonds_risk/src/bond_analytics.py:65-67 | a flow contributes `pv`, `t * pv` and `t ** 2 * pv` |
| Valuation.Detailed | 01_Bonds_risk/src/pricing_with_duration.py:56-62 | one breakdown row per flow, with the flow's time and amount and its pv at that flow's own all-in rate |
| Valuation.DetailedSumsToPrice | 01_Bonds_risk/src/pricing_with_duration.py:54-62 | the breakdown's pv column adds up to the price |
| Valuation.MomentRateCongruence | 01_Bonds_risk/src/bond_analytics.py:57-67 | price and moments depend on curve and spread only through each flow's all-in rate |
| Valuation.SingleFlowMoment | 01_Bonds_risk/src/bond_analytics.py:65-67 | for one flow at time `t` the `p`-th moment is `t ** p` times the price |
| Valuation.PVDecreasesInRate | 01_Bonds_risk/src/bond_analytics.py:63-64 | a higher rate discounts a non-negative flow to no more, a positive one to strictly less |
| Valuation.PriceDecreasesInSpread | 01_Bonds_risk/src/bond_analytics.py:57-65 | a higher spread gives a lower price when amounts are non-negative, strictly lower when the last is positive |
| Valuation.PriceSign | 01_Bonds_risk/src/bond_analytics.py:64-65 | non-negative amounts give a non-negative price, positive when the last amount is positive |
| BondAnalytics.Summarize | 01_Bonds_risk/src/bond_analytics.py:53-90 | as written: all-zero result exactly when the price is not positive; otherwise the price, duration and convexity as the price-weighted means of `t` and `t ** 2`, and modified equal to Macaulay |
| BondAnalytics.Normalise | 01_Bonds_risk/src/bond_analytics.py:79-81 | dividing by a positive price yields means that scale back to the weighted sums |
| BondAnalytics.PriceAndDuration | 01_Bonds_risk/src/bond_analytics.py:21-90 | unknown bond raises; a matured bond yields the all-zero result before any curve check; no curve raises; otherwise a positive price or the all-zero result; a non-zero result lists one breakdown row per truncated-schedule flow, each discounted at the all-in rate of the last flow |
| BondAnalytics.PriceAndDurationCorrected | 01_Bonds_risk/src/bond_analytics.py:21-90 | the corrected routine fails and succeeds exactly as the as-written one, with the same price, durations and convexity, and its breakdown discounts each flow at its own rate and adds up to the price |
| BondAnalytics.NoWholePeriodIsDegenerate | 01_Bonds_risk/src/bond_analytics.py:47-76 | under one whole period left, no flow is scheduled and the result is all zeros |
| BondAnalytics.SingleFlowDuration | 01_Bonds_risk/src/bond_analytics.py:79-81 | a single flow at `t` has duration `t` and convexity `t * t` |
| BondAnalytics.SingleFlowRatio | 01_Bonds_risk/src/bond_analytics.py:79-81 | a price-weighted mean over a single flow is that flow's weight `t ** p` |
| BondAnalytics.BreakdownShape | 01_Bonds_risk/src/bond_analytics.py:88-89 | one row per flow, every pv at the all-in rate of the last flow |
| BondAnalytics.BreakdownMisprices | 01_Bonds_risk/src/bond_analytics.py:88-89 | on a two-flow, two-tenor example the breakdown sums to less than the reported price |
| BondAnalytics.PriceAndDurationMisprices | 01_Bonds_risk/src/bond_analytics.py:21-90 | for a 2-year, 5% annual bond of face 1000 on that curve, the routine's breakdown sums to less than its price |
| BondAnalytics.SummarizeCorrected | 01_Bonds_risk/src/bond_analytics.py:83-90 | the corrected result is all-zero exactly when the as-written one is, and reports the same price, durations and convexity, with each row at its own flow's rate |
| BondAnalytics.CorrectedBreakdownSumsToPrice | 01_Bonds_risk/src/bond_analytics.py:83-90 | with each flow at its own rate the breakdown adds up to the price, one row per flow |
| PricingWithDuration.Summarize | 01_Bonds_risk/src/pricing_with_duration.py:53-75 | division by zero exactly when the price is zero; otherwise the price, and a duration that is the price-weighted mean time |
| PricingWithDuration.Normalise | 01_Bonds_risk/src/pricing_with_duration.py:64-75 | dividing by a non-zero price yields a mean that scales back to the weighted sum |
| PricingWithDuration.PriceAndDuration | 01_Bonds_risk/src/pricing_with_duration.py:20-75 | unknown bond, missing curve and zero price each raise, exactly under their conditions |
| PricingWithDuration.DetailedMatchesSchedule | 01_Bonds_risk/src/pricing_with_duration.py:42-62 | `detailed` lists every scheduled flow, at least one, and sums to the price |
| PricingWithDuration.MaturedBondStillPriced | 01_Bonds_risk/src/pricing_with_duration.py:42-51 | a matured bond is priced on one flow at `1 / freq` repaying coupon and face |
| PricingWithDuration.PositiveBondIsPriced | 01_Bonds_risk/src/pricing_with_duration.py:54-64 | positive face and non-negative coupon give a positive price, so no division by zero |
| Pricing.PriceBond | 01_Bonds_risk/src/pricing.py:23-65 | unknown bond, missing curve, and an empty truncated schedule (`cash_flows[-1]`) each raise, exactly under their conditions |
| Pricing.MaturedBondRaises | 01_Bonds_risk/src/pricing.py:44-52 | a bond at or past maturity raises `IndexError` |
| Pricing.PriceIsSumOfDiscountedFlows | 01_Bonds_risk/src/pricing.py:42-63 | the price is the sum of the discounted flows of the truncated schedule, the face on the last flow only |
| Pricing.AgreesWithAnalytics | 01_Bonds_risk/src/pricing.py:44-63 | a positive price here is bond_analytics.py's price; that routine's all-zero result occurs exactly when this one fails or prices at most 0 |
| Scenario.ShockPrice | 01_Bonds_risk/app.py:280-332 | no curve, no bond row and a non-positive remaining life each stop the block, exactly under their conditions |
| Scenario.ShockActsAsSpread | 01_Bonds_risk/app.py:306-332 | the scenario price equals the base-curve price with the shift added to the spread |
| Scenario.ShiftedCurveAsSpread | 01_Bonds_risk/app.py:320-332 | for any schedule, pricing on the shifted curve equals pricing with the shift in the spread |
| Scenario.ShiftedRates | 01_Bonds_risk/app.py:320-330 | each flow's shocked all-in rate is its base all-in rate plus the shift |
| Scenario.OrderedShockPrices | 01_Bonds_risk/app.py:328-332 | scenario prices are ordered as the base-curve prices at the shifted spreads |
| Scenario.ZeroShockMatchesPricingWithDuration | 01_Bonds_risk/app.py:306-332 | a zero shock reproduces pricing_with_duration.py's price, and prices 0 exactly where that routine divides by zero |
| Scenario.PriceFallsAsShockRises | 01_Bonds_risk/app.py:277-332 | a larger upward shift gives a strictly lower scenario price |
| BankMetrics.BankRatios | 02_bank_stress_lab/analytics/metrics.py:35-43 | each ratio is present exactly when its guards pass and then times its divisor gives its numerator; NPL share 0 without defaults; a NULL capital over non-zero risk-weighted loans raises `TypeError` |
| BankMetrics.ComputeBaseMetrics | 02_bank_stress_lab/analytics/metrics.py:30-46 | one upsert per row, in order, carrying that row's ratios; the batch fails exactly when some row raises |
| BankMetrics.StoreHoldsEachUpsert | 02_bank_stress_lab/analytics/metrics.py:19-28 | after upserts with distinct keys each key holds its own row |
| BankMetrics.StoreKeepsOtherKeys | 02_bank_stress_lab/analytics/metrics.py:19-28 | keys the batch does not mention keep their old row |
| BankMetrics.StoreKeys | 02_bank_stress_lab/analytics/metrics.py:19-28 | the stored keys are the old keys plus the batch's keys |
| BankMetrics.BatchStoresOneRowPerBank | 02_bank_stress_lab/analytics/metrics.py:35-45 | for banks with distinct ids the table ends with each bank's ratios under `(as_of, bank_id)` |
| BondGenerator.DaysInMonth | 01_Bonds_risk/src/utils/bond_generator.py:30-35 | months have 28 to 31 days, February 29 exactly in leap years |
| BondGenerator.MaturityDate | 01_Bonds_risk/src/utils/bond_generator.py:20-37 | same month, target year, the issue day clamped to the largest valid day; `ValueError` exactly when the year leaves 1..9999 |
| BondGenerator.RandomMaturity | 01_Bonds_risk/src/utils/bond_generator.py:26-37 | the step-down loop returns exactly the clamped date |
| BondGenerator.LeapDayClamping | 01_Bonds_risk/src/utils/bond_generator.py:22-25 | 29 February moves to the 28th in common years and stays in leap years |
| BondGenerator.DigitString | 01_Bonds_risk/src/utils/bond_generator.py:8 | joining digits gives one decimal character per digit, in order |
| BondGenerator.RandomIsin | 01_Bonds_risk/src/utils/bond_generator.py:5-9 | an ISIN is "IN" followed by ten decimal digits |
| BondGenerator.IsinRoundTrip | 01_Bonds_risk/src/utils/bond_generator.py:5-9 | the ten drawn digits can be read back from the ISIN |
| BondGenerator.GenerateRandomBond | 01_Bonds_risk/src/utils/bond_generator.py:39-48 | maturity is a valid date 5 to 20 years after issue; frequency 1 or 2; face 1000, 5000 or 10000; coupon 3.0 to 8.0 |
| BondGenerator.GenerateBonds | 01_Bonds_risk/src/utils/bond_generator.py:50-54 | `n` bonds, the `i`-th generated from the `i`-th draws |
| BondGenerator.GeneratedCouponOverpays | 01_Bonds_risk/src/utils/bond_generator.py:44 | read as the pricers read it, a generated coupon pays at least 1.5 times face per period |
| BondGenerator.GeneratedCouponInRange | 01_Bonds_risk/src/utils/bond_generator.py:44 | read as a percentage, the annual coupon is 3% to 8% of face |

## Left out

- Rounding: `round(price, 2)`, `round(duration, 4)` and the rounded breakdown rows are not modelled; all values are exact.
- `math.exp`: replaced by the `disc` parameter, positive and strictly decreasing; no other property of the exponential is used.
- Floating point: reals are exact, so a `ZeroDivisionError` in pricing_with_duration.py happens only at an exact zero price.
- Database access (`get_conn`, `get_yield_curve`, `get_latest_curve`, `get_credit_spread`, the `bonds` query, `insert_bond`, `bulk_insert`): their results are inputs; the spread lookup's `or 0.0` is modelled by `GetOr(0.0)`.
- Calendar subtraction in the pricers: dates are day numbers supplied by the caller, so `(maturity - as_of).days` is an integer difference.
- A coupon frequency of zero or below: frequency is a positive integer, as the bond table promises; Python's `ZeroDivisionError` there is not modelled.
- An empty yield curve: a found curve always has points, because its date comes from the same table.
- The dashboard widgets, plots and messages in app.py, apart from the curve-shock computation; the slider's range (-300 to 300 in steps of 25) is not imposed on `shockBps`.
- compute_all_metrics.py, config.py, data_generator.py and simulate_daily_deposits.py: batch driver, settings and simulations, outside the modelled core.
- `random_date`, `random.uniform`, `random.randint` and `random.choice`: every draw is a parameter (`BondGenerator.Draw`), constrained to the ranges the calls can return; `round(coupon, 2)` on the drawn coupon is not modelled.
- The transaction around the bank upserts: an exception leaves the connection uncommitted, modelled as an `Err` with no upserts.
- Curve.FlatExtrapolation: stated for sorted curves only, the order the store returns; the lookup itself needs no order.

## Findings

| source | as written | input that shows it | evidently intended | confidence | as-written member | corrected member |
|---|---|---|---|---|---|---|
| 01_Bonds_risk/src/bond_analytics.py:88-89 | the breakdown discounts every flow at `y_rf + spread` left over from the last loop iteration | face 1000, 5% annual coupon, maturity 730 days out, curve `[(1, 0.03), (5, 0.05)]`, no spread, so flows `(1, 50)` and `(2, 1050)`: the first row is discounted at 5% and the rows sum to less than the price | each row discounted at its own flow's rate, so the breakdown adds up to the price | high; not executed | BondAnalytics.PriceAndDurationMisprices | BondAnalytics.PriceAndDurationCorrected |
| 01_Bonds_risk/src/utils/bond_generator.py:44 | the coupon is stored as a percentage (3.0 to 8.0), while the pricers use `face_value * (coupon_rate / freq)` as a decimal rate | any generated bond: a 3.0 coupon at frequency 2 pays 1.5 times face each period | divide the stored percentage by 100 before pricing | medium; not executed | BondGenerator.GeneratedCouponOverpays | BondGenerator.GeneratedCouponInRange |
