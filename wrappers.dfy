/** Values standing for Java's null, return values and thrown exceptions. */
module Wrappers {

  /** An optional value; `None` stands for Java's `null` or an empty `Optional`. */
  datatype Option<+T> = None | Some(value: T)

  /** The exceptions the modelled code throws, each with the message it carries. */
  datatype Failure =
    | IllegalState(message: string)
    | IllegalArgument(message: string)
    | NoSuchElement(message: string)
    | NullPointer(message: string)
    | IndexOutOfBounds(index: int, length: int)
    | ClassCast(message: string)

  /** A method that returns a value or throws. */
  datatype Result<+T> = Ok(value: T) | Err(error: Failure)

  /** A `void` method that returns normally or throws. */
  datatype Outcome = Pass | Fail(error: Failure)
}
