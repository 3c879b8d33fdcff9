/** Option and Result datatypes standing for Java's null and for the exceptions
    the modelled operations throw. */
module Wrappers {

  /** A nullable reference: `None` is Java's `null`. */
  datatype Option<T> = None | Some(value: T)

  /** The exceptions the modelled operations can raise. */
  datatype Failure =
    | IndexOutOfBounds   // a range argument outside the text
    | IllegalArgument    // an argument value the operation does not support
    | NullPointer        // a null reference the operation dereferences

  /** The outcome of an operation that either returns a value or throws. */
  datatype Result<T> = Ok(value: T) | Err(failure: Failure)
}
