/** Shared vocabulary of the comfort-chart model: optional and fallible
    results, the two unit systems, and small real-valued helpers. */
module Common {

  /** A value that may be absent (Python's `None`, or a foreign call that raised). */
  datatype Option<+T> = None | Some(value: T)

  /** Why an operation of the model raised instead of returning. */
  datatype Error =
    | MaxIterationsExceeded   // a capped loop ran past its budget
    | EmptyInput              // `min`/`max`/`polyfit` on an empty sequence
    | UnsupportedModel        // a comfort model the function does not handle
    | MissingArgument         // a call that omits a required argument (`TypeError`)
    | MissingKey              // a lookup of an absent key or column (`KeyError`)

  /** A successful value or the error the source raises. */
  datatype Result<+T> = Success(value: T) | Failure(error: Error)

  /** The two unit systems of the application. */
  datatype Units = SI | IP

  /** The string the application stores for a unit system. */
  function UnitsName(u: Units): string {
    match u
    case SI => "SI"
    case IP => "IP"
  }

  function Abs(x: real): (r: real)
    ensures r >= 0.0
    ensures r == x || r == -x
  {
    if x < 0.0 then -x else x
  }

  function Max(a: real, b: real): (r: real)
    ensures r >= a && r >= b
    ensures r == a || r == b
  {
    if a > b then a else b
  }

  /** `x` raised to the fourth power (exact over the reals). */
  function Pow4(x: real): (r: real)
    ensures r >= 0.0
  {
    (x * x) * (x * x)
  }

  /** `x` raised to the third power. */
  function Cube(x: real): real {
    x * x * x
  }
}
