/** Option and Result, and the ways the program's evaluation can stop with an exception. */
module Wrappers {

  datatype Option<+T> = None | Some(value: T)

  /** Why an evaluation raised instead of producing a value. */
  datatype Failure =
    /** A capped lane count outside {1, 2} reached a table's catch-all case (a TypeError). */
    | UnsupportedLanes
    /** `max` was applied to an empty list of selected hours (a ValueError). */
    | NoHourSelected
    /** The rank filter's test returned a Series for a rank shared by several hours (a TypeError). */
    | SharedRankGroup

  datatype Result<+T> = Ok(value: T) | Err(error: Failure) {
    predicate IsFailure() { Err? }

    function PropagateFailure<U>(): Result<U>
      requires Err?
    {
      Err(error)
    }

    function Extract(): T
      requires Ok?
    {
      value
    }
  }
}
