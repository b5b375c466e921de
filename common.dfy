/** Vocabulary shared by every module: the exceptions the modelled code raises,
    a Result type for them, and Python's float-to-int conversion. */
module Common {

  /** The exception classes raised by the modelled code.
      NonFinite stands for a float division by zero (or a square root of a
      negative number): numpy then yields inf or NaN samples, and `int()` of
      such a value raises; the model reports the computation as failed. */
  datatype Error =
    | TypeError
    | ValueError
    | IndexError
    | KeyError
    | StopIteration
    | ZeroDivisionError
    | NonFinite

  datatype Result<+T> = Ok(value: T) | Err(error: Error)

  datatype Option<+T> = None | Some(value: T)

  function Abs(x: real): (r: real)
    ensures r >= 0.0 && (r == x || r == -x)
  {
    if x < 0.0 then -x else x
  }

  /** Python's `int(x)` on a finite float: truncation toward zero
      (not the floor: `int(-2.5) == -2`). */
  function Trunc(x: real): (r: int)
    ensures x >= 0.0 ==> r >= 0
    ensures x <= 0.0 ==> r <= 0
    ensures Abs(r as real) <= Abs(x) < Abs(r as real) + 1.0
  {
    if x >= 0.0 then x.Floor else -((-x).Floor)
  }

  // Small facts of real arithmetic the solver needs spelled out.

  lemma NonNegProduct(a: real, b: real)
    requires a >= 0.0 && b >= 0.0
    ensures a * b >= 0.0
  {
  }

  lemma PositiveProduct(a: real, b: real)
    requires a > 0.0 && b > 0.0
    ensures a * b > 0.0
  {
  }

  lemma AbsProduct(a: real, b: real)
    ensures Abs(a * b) == Abs(a) * Abs(b)
  {
  }

  lemma AbsQuotient(a: real, b: real)
    requires b != 0.0
    ensures Abs(a / b) == Abs(a) / Abs(b)
  {
  }

  /** Multiplying both sides by a non-negative number keeps an inequality. */
  lemma MonotoneProduct(x: real, y: real, c: real)
    requires x <= y && c >= 0.0
    ensures x * c <= y * c
  {
    NonNegProduct(y - x, c);
  }

  lemma StrictMonotoneProduct(x: real, y: real, c: real)
    requires x < y && c > 0.0
    ensures x * c < y * c
  {
    PositiveProduct(y - x, c);
  }

  /** A positive factor common to both sides can be cancelled. */
  lemma CancelPositive(x: real, y: real, c: real)
    requires x * c < y * c && c > 0.0
    ensures x < y
  {
    if x >= y {
      MonotoneProduct(y, x, c);
    }
  }
}
