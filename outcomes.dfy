/** The failures of the planner. The Java class throws a plain `Exception` with one of two
    messages; each message becomes one constructor of `Error`. */
module Outcomes {

  datatype Error =
    | NotFeasible      // "not a feasible solution": the free group's value leaves its range
    | UtilOutOfRange   // "Error value for util": a group total above n * utilMax

  /** A value, or the error that aborted its computation. */
  datatype Result<T> = Ok(value: T) | Err(error: Error)

  /** The outcome of a step that returns nothing but may throw. */
  datatype Outcome = Pass | Fail(error: Error)
}
