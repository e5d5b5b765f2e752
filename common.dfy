/** Outcome types shared by the whole model: Java's Optional and the
    exceptions the core throws, written as values. */
module Common {

  /** java.util.Optional (and a nullable reference). */
  datatype Option<+T> = None | Some(value: T)

  /** A computation that either returns a value or throws. */
  datatype Result<+T> = Ok(value: T) | Err(error: Exception)

  /** The exceptions the modelled code can throw. */
  datatype Exception =
    | IllegalArgument(message: string)
    | NullPointer(message: string)
    | NoSuchElement
    | Validation(message: string, lineNumber: int)
}
