/** Optional values, results and the Java exceptions that escape the servlet. */
module Outcomes {

  /** A Java reference that may be null. */
  datatype Option<+T> = None | Some(value: T)

  /** A computation that either returns a value or throws. */
  datatype Result<+R, +E> = Success(value: R) | Failure(error: E) {
    predicate IsFailure() { Failure? }

    function PropagateFailure<U>(): Result<U, E>
      requires Failure?
    {
      Failure(error)
    }

    function Extract(): R
      requires Success?
    {
      value
    }
  }

  /** A computation run for its effect that either completes or throws. */
  datatype Outcome<+E> = Pass | Fail(error: E)

  /** The unchecked exceptions the request handling can raise; none of them is caught. */
  datatype Fatal =
    | NumberFormatError     // java.lang.NumberFormatException from new BigDecimal or Integer.parseInt
    | DateTimeParseError    // java.time.format.DateTimeParseException from LocalDate.parse
    | DateTimeError         // java.time.DateTimeException from withDayOfMonth
    | NullPointerError      // java.lang.NullPointerException from a missing start or end date
}
