/**
 * The few pieces of Go's runtime that the weather pipeline relies on:
 * the dynamic values that flow through an `interface{}`, the 32-bit
 * integers of the dashboard records, the float64-to-int conversion of
 * the timestamp, and the outcome of a reflective field lookup.
 */
module GoValue {

  /** Go's `int32`. */
  newtype Int32 = x: int | -0x8000_0000 <= x < 0x8000_0000

  datatype Option<+T> = None | Some(value: T)

  /**
   * The outcome of extracting sensor values: either the value, or the
   * sensor name for which reflection found no field (Go panics there).
   */
  datatype Result<+T> = Ok(value: T) | NoSuchField(name: string)

  /**
   * A value stored in an `interface{}`, distinguished the way the
   * program's type switch distinguishes it: a float (`float32` or
   * `float64`, carried as its exact value), an integer (`int`, `int32`,
   * `int64`), a string, or anything else.
   */
  datatype Value = F(f: real) | I(i: int) | S(s: string) | Other

  /**
   * Go's conversion `int(x)` of a float64: truncation toward zero
   * (conversions of values outside the range of `int` are not modelled).
   */
  function TruncToInt(x: real): (n: int)
    ensures 0.0 <= x ==> n as real <= x < n as real + 1.0
    ensures x < 0.0 ==> n as real - 1.0 < x <= n as real
  {
    if 0.0 <= x then x.Floor else -((-x).Floor)
  }
}
