/** Shared vocabulary of the risk lab model: optional values, the error
    conditions the Python code raises, and the two ways it turns a real
    number of coupon periods into a whole count. */
module Common {

  /** A value that may be missing: SQL NULL, a row that was not found,
      or Python's `None`. */
  datatype Option<+T> = None | Some(value: T) {
    function GetOr(default: T): T {
      match this
      case Some(v) => v
      case None => default
    }
  }

  /** The conditions under which the modelled code stops with an exception. */
  datatype Error =
    | UnknownBond       // ValueError: no row in `bonds` for the id
    | CurveUnavailable  // ValueError: no yield curve on or before the date
    | IndexError        // `cash_flows[-1]` on an empty list
    | ZeroDivision      // `weighted_sum / price` with price == 0
    | TypeError         // arithmetic on a NULL column (`None / x`)
    | ValueError        // `datetime.date` with an out-of-range field

  datatype Result<+T> = Ok(value: T) | Err(error: Error)

  /** Coupon payments per year. The bond table promises a positive count. */
  type Frequency = f: int | f > 0 witness 1

  /** Python's `int(x)` on a float: rounds toward zero. */
  function Trunc(x: real): (n: int)
    ensures 0.0 <= x ==> 0 <= n && n as real <= x < n as real + 1.0
    ensures x < 0.0 ==> n <= 0 && n as real - 1.0 < x <= n as real
  {
    if x >= 0.0 then x.Floor else -((-x).Floor)
  }

  /** Python's `math.ceil(x)`: the least integer not below `x`. */
  function Ceil(x: real): (n: int)
    ensures n as real - 1.0 < x <= n as real
  {
    -((-x).Floor)
  }

  function Max(a: int, b: int): int {
    if a < b then b else a
  }

  /** Python truthiness of a nullable number: neither NULL nor zero. */
  predicate Truthy(x: Option<real>) {
    x.Some? && x.value != 0.0
  }
}
