/** The synthetic bond generator of 01_Bonds_risk/src/utils/bond_generator.py,
    with every random draw lifted into a parameter.

    `random_isin` joins "IN" and ten decimal digits; `random_maturity` adds
    a whole number of years to the issue date, keeps the month, and steps
    the day down from the issue day while it is above 28 and not a valid
    date in the target year; `generate_bonds(n)` makes `n` bond tuples with
    an annual or semi-annual coupon. */
module BondGenerator {
  import opened Common
  import Schedule

  /** A calendar date as Python's `datetime.date` holds it. */
  datatype Date = Date(year: int, month: int, day: int)

  const MinYear: int := 1
  const MaxYear: int := 9999

  /** Gregorian rule: every fourth year, except centuries not divisible
      by 400. */
  predicate IsLeapYear(y: int) {
    y % 4 == 0 && (y % 100 != 0 || y % 400 == 0)
  }

  function DaysInMonth(y: int, m: int): (n: int)
    requires 1 <= m <= 12
    ensures 28 <= n <= 31
    ensures m == 2 ==> (n == 29 <==> IsLeapYear(y))
  {
    if m == 2 then (if IsLeapYear(y) then 29 else 28)
    else if m == 4 || m == 6 || m == 9 || m == 11 then 30
    else 31
  }

  /** The dates `datetime.date` accepts; any other triple raises ValueError. */
  predicate ValidDate(d: Date) {
    && MinYear <= d.year <= MaxYear
    && 1 <= d.month <= 12
    && 1 <= d.day <= DaysInMonth(d.year, d.month)
  }

  /** `datetime.date(y, m, d)`. */
  function MakeDate(y: int, m: int, d: int): Result<Date> {
    if ValidDate(Date(y, m, d)) then Ok(Date(y, m, d)) else Err(ValueError)
  }

  /** Chronological order of dates. */
  predicate Before(a: Date, b: Date) {
    a.year < b.year
    || (a.year == b.year && a.month < b.month)
    || (a.year == b.year && a.month == b.month && a.day < b.day)
  }

  function Min(a: int, b: int): int {
    if a < b then a else b
  }

  /** What `random_maturity` returns, in closed form: the same month of the
      year `yearsToAdd` later, the issue day clamped to that month's length;
      ValueError when the target year is outside 1..9999. */
  function MaturityDate(issue: Date, yearsToAdd: int): (r: Result<Date>)
    requires ValidDate(issue)
    ensures r.Ok? <==> MinYear <= issue.year + yearsToAdd <= MaxYear
    ensures r.Err? ==> r.error == ValueError
    ensures r.Ok? ==> ValidDate(r.value)
    ensures r.Ok? ==> r.value.year == issue.year + yearsToAdd && r.value.month == issue.month
    ensures r.Ok? && issue.day <= 28 ==> r.value.day == issue.day
    ensures r.Ok? ==> 28 <= r.value.day <= issue.day || r.value.day == issue.day
    ensures r.Ok? ==> forall d :: r.value.day < d <= issue.day ==> !ValidDate(Date(r.value.year, r.value.month, d))
  {
    var y := issue.year + yearsToAdd;
    if MinYear <= y <= MaxYear then Ok(Date(y, issue.month, Min(issue.day, DaysInMonth(y, issue.month))))
    else Err(ValueError)
  }

  /** The loop of `random_maturity`: try the issue day, and while the day
      is above 28 and `datetime.date` refuses it, try one day earlier;
      finally build the date unguarded. */
  method RandomMaturity(issue: Date, yearsToAdd: int) returns (r: Result<Date>)
    requires ValidDate(issue)
    ensures r == MaturityDate(issue, yearsToAdd)
  {
    var targetYear := issue.year + yearsToAdd;
    var month := issue.month;
    var day := issue.day;
    while day > 28
      invariant 28 <= day <= issue.day || day == issue.day
      invariant forall d :: day < d <= issue.day ==> !ValidDate(Date(targetYear, month, d))
      decreases day
    {
      var attempt := MakeDate(targetYear, month, day);
      if attempt.Ok? {
        return attempt;
      }
      day := day - 1;
    }
    r := MakeDate(targetYear, month, day);
  }

  /** A leap day moves to 28 February in a common year and stays put in a
      leap year. */
  lemma LeapDayClamping()
    ensures MaturityDate(Date(2020, 2, 29), 5) == Ok(Date(2025, 2, 28))
    ensures MaturityDate(Date(2020, 2, 29), 4) == Ok(Date(2024, 2, 29))
    ensures MaturityDate(Date(2000, 2, 29), 100) == Ok(Date(2100, 2, 28))
  {
  }

  function DigitChar(d: int): char
    requires 0 <= d <= 9
  {
    (48 + d) as char
  }

  ghost predicate AreDigits(ds: seq<int>) {
    forall i :: 0 <= i < |ds| ==> 0 <= ds[i] <= 9
  }

  /** `''.join(str(d) for d in ds)`. */
  function DigitString(ds: seq<int>): (s: string)
    requires AreDigits(ds)
    ensures |s| == |ds|
    ensures forall i :: 0 <= i < |s| ==> '0' <= s[i] <= '9' && s[i] as int - 48 == ds[i]
  {
    if |ds| == 0 then ""
    else DigitString(ds[..|ds| - 1]) + [DigitChar(ds[|ds| - 1])]
  }

  /** `random_isin` given its ten `randint(0, 9)` draws. */
  function RandomIsin(ds: seq<int>): (s: string)
    requires |ds| == 10 && AreDigits(ds)
    ensures |s| == 12
    ensures s[..2] == "IN"
    ensures forall i :: 2 <= i < 12 ==> '0' <= s[i] <= '9'
  {
    "IN" + DigitString(ds)
  }

  /** Reading the digits back out of an ISIN. */
  function IsinDigits(s: string): seq<int>
    requires |s| >= 2
  {
    seq(|s| - 2, i requires 0 <= i < |s| - 2 => s[i + 2] as int - 48)
  }

  lemma IsinRoundTrip(ds: seq<int>)
    requires |ds| == 10 && AreDigits(ds)
    ensures IsinDigits(RandomIsin(ds)) == ds
  {
    var s := RandomIsin(ds);
    assert forall i :: 0 <= i < 10 ==> s[i + 2] == DigitString(ds)[i];
  }

  const Issuers: seq<string> := ["Alpha Capital", "BlueStone Corp", "Zenith Bank", "Aurora Finance"]
  const Frequencies: seq<int> := [1, 2]
  const FaceValues: seq<int> := [1000, 5000, 10000]
  const Ratings: seq<string> := ["AAA", "AA", "A", "BBB"]

  /** The random choices behind one generated bond. */
  datatype Draw = Draw(
    isinDigits: seq<int>,
    issuerIx: int,
    issue: Date,
    yearsToAdd: int,
    couponRate: real,
    freqIx: int,
    faceIx: int,
    ratingIx: int)

  /** What the random calls can return: digits 0-9, an issue date between
      1 January 2015 and 31 December 2024, 5 to 20 years to maturity, a
      coupon between 3.0 and 8.0, and an index into each choice list. */
  ghost predicate DrawInRange(d: Draw) {
    && |d.isinDigits| == 10 && AreDigits(d.isinDigits)
    && 0 <= d.issuerIx < |Issuers|
    && ValidDate(d.issue) && 2015 <= d.issue.year <= 2024
    && 5 <= d.yearsToAdd <= 20
    && 3.0 <= d.couponRate <= 8.0
    && 0 <= d.freqIx < |Frequencies|
    && 0 <= d.faceIx < |FaceValues|
    && 0 <= d.ratingIx < |Ratings|
  }

  /** The tuple `generate_random_bond` returns. */
  datatype GeneratedBond = GeneratedBond(
    isin: string,
    issuer: string,
    issueDate: Date,
    maturityDate: Date,
    couponRate: real,
    couponFrequency: int,
    faceValue: int,
    creditRating: string)

  function GenerateRandomBond(d: Draw): (b: GeneratedBond)
    requires DrawInRange(d)
    ensures |b.isin| == 12 && b.isin[..2] == "IN"
    ensures ValidDate(b.maturityDate) && Before(b.issueDate, b.maturityDate)
    ensures 5 <= b.maturityDate.year - b.issueDate.year <= 20
    ensures b.couponFrequency == 1 || b.couponFrequency == 2
    ensures b.faceValue == 1000 || b.faceValue == 5000 || b.faceValue == 10000
    ensures 3.0 <= b.couponRate <= 8.0
  {
    var maturity := MaturityDate(d.issue, d.yearsToAdd);
    GeneratedBond(RandomIsin(d.isinDigits), Issuers[d.issuerIx], d.issue, maturity.value, d.couponRate,
                  Frequencies[d.freqIx], FaceValues[d.faceIx], Ratings[d.ratingIx])
  }

  /** `generate_bonds(n)` given the draws for each of the `n` bonds. */
  method GenerateBonds(n: nat, draws: seq<Draw>) returns (bonds: seq<GeneratedBond>)
    requires |draws| == n
    requires forall i :: 0 <= i < n ==> DrawInRange(draws[i])
    ensures |bonds| == n
    ensures forall i :: 0 <= i < n ==> bonds[i] == GenerateRandomBond(draws[i])
    ensures forall i :: 0 <= i < n ==> bonds[i].couponFrequency == 1 || bonds[i].couponFrequency == 2
  {
    bonds := [];
    for i := 0 to n
      invariant |bonds| == i
      invariant forall j :: 0 <= j < i ==> bonds[j] == GenerateRandomBond(draws[j])
    {
      bonds := bonds + [GenerateRandomBond(draws[i])];
    }
  }

  /** How the valuation code reads a generated row back: the coupon rate
      goes through unchanged. Dates become day numbers, which the caller
      supplies. */
  function AsTermsAsWritten(g: GeneratedBond, issueDay: int, maturityDay: int): Schedule.Bond
    requires g.couponFrequency > 0
  {
    Schedule.Bond(issueDay, maturityDay, g.couponRate, g.couponFrequency, g.faceValue as real, g.creditRating)
  }

  /** The generator writes the coupon as a percentage (3.0 means 3%) but
      the valuation code multiplies the face value by it as a decimal, so
      every generated bond pays at least one and a half times its face
      value each period. */
  lemma GeneratedCouponOverpays(d: Draw, issueDay: int, maturityDay: int)
    requires DrawInRange(d)
    ensures var g := GenerateRandomBond(d);
      var b := AsTermsAsWritten(g, issueDay, maturityDay);
      Schedule.CouponAmount(b) >= 1.5 * b.face
  {
    var g := GenerateRandomBond(d);
    var b := AsTermsAsWritten(g, issueDay, maturityDay);
    var f := b.freq as real;
    assert f <= 2.0;
    assert b.couponRate / f >= 1.5;
    assert b.face > 0.0;
  }

  /** The evidently intended reading: percent to decimal. */
  function AsTerms(g: GeneratedBond, issueDay: int, maturityDay: int): Schedule.Bond
    requires g.couponFrequency > 0
  {
    Schedule.Bond(issueDay, maturityDay, g.couponRate / 100.0, g.couponFrequency, g.faceValue as real, g.creditRating)
  }

  /** Read that way, a generated bond pays between 3% and 8% of face a
      year, spread over its coupon dates. */
  lemma GeneratedCouponInRange(d: Draw, issueDay: int, maturityDay: int)
    requires DrawInRange(d)
    ensures var g := GenerateRandomBond(d);
      var b := AsTerms(g, issueDay, maturityDay);
      && 0.03 * b.face <= Schedule.CouponAmount(b) * b.freq as real <= 0.08 * b.face
  {
    var g := GenerateRandomBond(d);
    var b := AsTerms(g, issueDay, maturityDay);
    var f := b.freq as real;
    assert Schedule.CouponAmount(b) * f == b.face * b.couponRate;
  }
}
