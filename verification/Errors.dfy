/** The four failure kinds the board raises, and the result values that carry
    them back to the caller in place of exceptions. */
module Errors {

  datatype Error =
    | BoardNotInitialised   // a board-dependent operation before InitBoard
    | GameNotStarted        // an attack or loss check before StartGame
    | GameAlreadyStarted    // InitBoard or StartGame after StartGame
    | InvalidCoordinates    // off the board, or a malformed ship

  /** Result of an operation that returns nothing on success. */
  datatype Outcome = Pass | Fail(error: Error)

  /** Result of an operation that returns a value on success. */
  datatype Result<T> = Ok(value: T) | Err(error: Error)
}
