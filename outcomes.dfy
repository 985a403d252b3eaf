/** The hotel service reports failures by throwing; here each throw becomes a value. */
module Outcomes {

  /** A value that may be absent, for a Java reference that may be null. */
  datatype Option<+T> = None | Some(value: T)

  /** One constructor per exception the service throws, with its message. */
  datatype Error =
    | NullArgument(message: string)        // NullPointerException raised by Objects.requireNonNull
    | InvalidInput(message: string)
    | NotFound(message: string)
    | RoomUnavailable(message: string)
    | InsufficientBalance(message: string)

  /** How a void method ends: normally, or by throwing. */
  datatype Outcome = Pass | Fail(error: Error)

  /** How a method with a result ends: it returns a value, or it throws. */
  datatype Result<+T> = Ok(value: T) | Err(error: Error)
}
