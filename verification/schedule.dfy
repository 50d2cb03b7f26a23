/** Bond terms and the cash-flow schedules built from them.

    The remaining number of coupon periods is
    `(maturity - as_of).days / 365 * freq`, turned into a whole count in
    one of two ways: truncation (`int(...)`, bond_analytics.py and
    pricing.py) or `max(1, ceil(...))` (pricing_with_duration.py and the
    scenario block of app.py). Flow `i` falls at `i / freq` years and pays
    `face * rate / freq`; the last flow also repays the face value. The
    truncating files append coupon-only flows and then patch the last one;
    the ceiling files add the face value inside the loop when
    `i == n_payments`. Both spellings are modelled and proved equal. */
module Schedule {
  import opened Common

  /** A row of the `bonds` table, as far as valuation reads it. Dates are
      day numbers. */
  datatype Bond = Bond(
    issue: int,
    maturity: int,
    couponRate: real,
    freq: Frequency,
    face: real,
    rating: string)

  /** A payment: time in years from the valuation date, undiscounted amount. */
  datatype CashFlow = CashFlow(time: real, amount: real)

  /** Fixed 365-day year, no day-count convention. */
  function YearsToMaturity(asOf: int, maturity: int): (y: real)
    ensures y > 0.0 <==> maturity > asOf
  {
    (maturity - asOf) as real / 365.0
  }

  /** Remaining coupon periods as a real number. */
  function Periods(b: Bond, asOf: int): real {
    YearsToMaturity(asOf, b.maturity) * b.freq as real
  }

  function CouponAmount(b: Bond): real {
    b.face * (b.couponRate / b.freq as real)
  }

  lemma CouponNonNegative(b: Bond)
    requires b.face >= 0.0 && b.couponRate >= 0.0
    ensures CouponAmount(b) >= 0.0
  {
    assert b.couponRate / b.freq as real >= 0.0;
  }

  function PaymentTime(i: int, freq: Frequency): real {
    i as real / freq as real
  }

  /** `int(years * freq)`. */
  function TruncCount(b: Bond, asOf: int): int {
    Trunc(Periods(b, asOf))
  }

  /** `max(1, math.ceil(years * freq))`. */
  function CeilCount(b: Bond, asOf: int): (n: int)
    ensures n >= 1
  {
    Max(1, Ceil(Periods(b, asOf)))
  }

  /** Coupon-only flows for `i in range(1, n + 1)`, appended in order. */
  function CouponFlows(n: int, freq: Frequency, coupon: real): (s: seq<CashFlow>)
    ensures |s| == Max(n, 0)
    ensures forall k :: 0 <= k < |s| ==> s[k] == CashFlow(PaymentTime(k + 1, freq), coupon)
  {
    if n <= 0 then []
    else CouponFlows(n - 1, freq, coupon) + [CashFlow(PaymentTime(n, freq), coupon)]
  }

  /** `cash_flows[-1] = (t, cf + face_value)` guarded by `if cash_flows`. */
  function AddFaceToLast(s: seq<CashFlow>, face: real): (r: seq<CashFlow>)
    ensures |r| == |s|
    ensures forall k :: 0 <= k < |s| - 1 ==> r[k] == s[k]
    ensures |s| > 0 ==> r[|s| - 1] == CashFlow(s[|s| - 1].time, s[|s| - 1].amount + face)
  {
    if |s| == 0 then s
    else s[..|s| - 1] + [CashFlow(s[|s| - 1].time, s[|s| - 1].amount + face)]
  }

  /** The first `i` flows of the loop that adds `face` when `i == n`. */
  function FlowsUpTo(i: int, n: int, freq: Frequency, coupon: real, face: real): (s: seq<CashFlow>)
    ensures |s| == Max(i, 0)
    ensures forall k :: 0 <= k < |s| ==>
      s[k] == CashFlow(PaymentTime(k + 1, freq), if k + 1 == n then coupon + face else coupon)
  {
    if i <= 0 then []
    else
      var amount := if i == n then coupon + face else coupon;
      FlowsUpTo(i - 1, n, freq, coupon, face) + [CashFlow(PaymentTime(i, freq), amount)]
  }

  /** Schedule of bond_analytics.py and pricing.py: truncated count,
      face patched onto the last flow when there is one. */
  function TruncSchedule(b: Bond, asOf: int): seq<CashFlow> {
    AddFaceToLast(CouponFlows(TruncCount(b, asOf), b.freq, CouponAmount(b)), b.face)
  }

  /** Schedule of pricing_with_duration.py and app.py: ceiling count, face
      added inside the loop. */
  function CeilSchedule(b: Bond, asOf: int): seq<CashFlow> {
    var n := CeilCount(b, asOf);
    FlowsUpTo(n, n, b.freq, CouponAmount(b), b.face)
  }

  /** The shape every schedule has: `n` flows (none when `n <= 0`), flow
      `k` at `(k + 1) / freq` carrying the coupon, the last one also the
      face value. */
  ghost predicate IsSchedule(s: seq<CashFlow>, n: int, freq: Frequency, coupon: real, face: real) {
    && |s| == Max(n, 0)
    && (forall k :: 0 <= k < |s| ==> s[k].time == PaymentTime(k + 1, freq))
    && (forall k :: 0 <= k < |s| - 1 ==> s[k].amount == coupon)
    && (|s| > 0 ==> s[|s| - 1].amount == coupon + face)
  }

  ghost predicate TimesIncreasing(s: seq<CashFlow>) {
    forall j, k :: 0 <= j < k < |s| ==> s[j].time < s[k].time
  }

  ghost predicate TimesPositive(s: seq<CashFlow>) {
    forall k :: 0 <= k < |s| ==> s[k].time > 0.0
  }

  lemma PaymentTimesIncrease(i: int, j: int, freq: Frequency)
    requires i < j
    ensures PaymentTime(i, freq) < PaymentTime(j, freq)
  {
    var f := freq as real;
    assert PaymentTime(j, freq) - PaymentTime(i, freq) == (j - i) as real / f;
  }

  /** Every schedule of the right shape pays at strictly increasing,
      positive times. */
  lemma ScheduleTimes(s: seq<CashFlow>, n: int, freq: Frequency, coupon: real, face: real)
    requires IsSchedule(s, n, freq, coupon, face)
    ensures TimesIncreasing(s)
    ensures TimesPositive(s)
  {
    forall j, k | 0 <= j < k < |s|
      ensures s[j].time < s[k].time
    {
      PaymentTimesIncrease(j + 1, k + 1, freq);
    }
    forall k | 0 <= k < |s|
      ensures s[k].time > 0.0
    {
      PaymentTimesIncrease(0, k + 1, freq);
    }
  }

  /** The two spellings of the builder agree: adding the face value inside
      the loop at `i == n` gives the same flows as appending coupons and
      patching the last one. */
  lemma LoopAndPatchAgree(n: int, freq: Frequency, coupon: real, face: real)
    ensures FlowsUpTo(n, n, freq, coupon, face) == AddFaceToLast(CouponFlows(n, freq, coupon), face)
  {
    var a := FlowsUpTo(n, n, freq, coupon, face);
    var b := AddFaceToLast(CouponFlows(n, freq, coupon), face);
    assert |a| == |b|;
    forall k | 0 <= k < |a|
      ensures a[k] == b[k]
    {
    }
  }

  lemma TruncScheduleShape(b: Bond, asOf: int)
    ensures IsSchedule(TruncSchedule(b, asOf), TruncCount(b, asOf), b.freq, CouponAmount(b), b.face)
    ensures TimesIncreasing(TruncSchedule(b, asOf)) && TimesPositive(TruncSchedule(b, asOf))
  {
    ScheduleTimes(TruncSchedule(b, asOf), TruncCount(b, asOf), b.freq, CouponAmount(b), b.face);
  }

  lemma CeilScheduleShape(b: Bond, asOf: int)
    ensures IsSchedule(CeilSchedule(b, asOf), CeilCount(b, asOf), b.freq, CouponAmount(b), b.face)
    ensures TimesIncreasing(CeilSchedule(b, asOf)) && TimesPositive(CeilSchedule(b, asOf))
    ensures CeilSchedule(b, asOf) == AddFaceToLast(CouponFlows(CeilCount(b, asOf), b.freq, CouponAmount(b)), b.face)
  {
    var n := CeilCount(b, asOf);
    LoopAndPatchAgree(n, b.freq, CouponAmount(b), b.face);
    ScheduleTimes(CeilSchedule(b, asOf), n, b.freq, CouponAmount(b), b.face);
  }

  /** A bond with positive face and non-negative coupon pays non-negative
      amounts at positive times, and a positive final amount. */
  lemma CeilScheduleAmounts(b: Bond, asOf: int)
    requires b.face > 0.0 && b.couponRate >= 0.0
    ensures var s := CeilSchedule(b, asOf);
      && TimesPositive(s)
      && (forall k :: 0 <= k < |s| ==> s[k].amount >= 0.0)
      && |s| > 0 && s[|s| - 1].amount > 0.0
  {
    CeilScheduleShape(b, asOf);
    CouponNonNegative(b);
  }

  /** Exactly one flow, the last, includes the face value: every other
      flow carries the bare coupon. */
  lemma CeilScheduleFaceOnLastOnly(b: Bond, asOf: int)
    ensures |CeilSchedule(b, asOf)| >= 1
    ensures CeilSchedule(b, asOf)[|CeilSchedule(b, asOf)| - 1].amount == CouponAmount(b) + b.face
    ensures forall k :: 0 <= k < |CeilSchedule(b, asOf)| - 1 ==> CeilSchedule(b, asOf)[k].amount == CouponAmount(b)
  {
    CeilScheduleShape(b, asOf);
  }

  // How the two count policies relate, in terms of `x = years * freq`.

  /** A whole, positive number of periods: both policies give it. */
  lemma PoliciesAgreeOnWholePeriods(b: Bond, asOf: int)
    requires Periods(b, asOf) >= 1.0
    requires Periods(b, asOf) == Periods(b, asOf).Floor as real
    ensures CeilCount(b, asOf) == TruncCount(b, asOf)
    ensures CeilSchedule(b, asOf) == TruncSchedule(b, asOf)
  {
    CeilScheduleShape(b, asOf);
  }

  /** A fractional number of periods of at least one: the ceiling policy
      pays one more coupon. */
  lemma CeilingAddsPeriodOffGrid(b: Bond, asOf: int)
    requires Periods(b, asOf) >= 1.0
    requires Periods(b, asOf) != Periods(b, asOf).Floor as real
    ensures CeilCount(b, asOf) == TruncCount(b, asOf) + 1
    ensures |CeilSchedule(b, asOf)| == |TruncSchedule(b, asOf)| + 1
  {
  }

  /** Less than one period left (matured bonds included): truncation gives
      no flows at all, the ceiling policy a single flow at `1 / freq` that
      repays coupon and face. */
  lemma ShortHorizonSchedules(b: Bond, asOf: int)
    requires Periods(b, asOf) < 1.0
    ensures TruncSchedule(b, asOf) == []
    ensures CeilSchedule(b, asOf) == [CashFlow(PaymentTime(1, b.freq), CouponAmount(b) + b.face)]
  {
    var s := CeilSchedule(b, asOf);
    assert |s| == 1;
  }
}
