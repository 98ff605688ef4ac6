/** Optional values and the outcome of a call that may raise a Python exception. */
module Outcomes {

  /** A value that may be absent (Python's `None`). */
  datatype Option<T> = None | Some(value: T)

  /** The exceptions the modelled code can raise. */
  datatype PyError =
    | TypeError          // `len()` applied to a number
    | StatisticsError    // `statistics.mean` of an empty list
    | ZeroDivisionError  // float division by zero
    | AttributeError     // reading an attribute that was never assigned

  /**
   * How a call ended. A `Raised` call has still made every update that
   * precedes the raising statement; the methods say which.
   */
  datatype Outcome = Completed | Raised(error: PyError)
}
