/** Option and the exceptions the modelled scripts can raise. */
module Wrappers {

  /** A value that may be absent: stands for a C# reference that may be null. */
  datatype Option<+T> = None | Some(value: T)

  /** The run-time exceptions the modelled code can throw. */
  datatype Exception =
    | NullReference       // a member accessed through a null reference
    | MissingReference    // a member accessed on a destroyed engine object
    | MissingComponent    // a component accessed on an object that does not have one
    | ArgumentOutOfRange  // a list indexed outside its bounds

  /** The result of an operation that either completes or throws. */
  datatype Result<+T> = Ok(value: T) | Threw(error: Exception)
}
