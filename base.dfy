/** Option and Result values, and the Python exceptions that the modelled
    code can raise, as plain values. */
module Base {

  datatype Option<+T> = None | Some(value: T)

  datatype Result<+T, +E> = Success(value: T) | Failure(error: E)

  /** The exceptions the modelled code raises or catches.  ShapeNotModelled
      stands for a stored JSON value whose shape the program does not write
      itself (a list where an object is expected, and so on). */
  datatype Fault =
    | KeyError
    | ValueError
    | TypeError
    | AttributeError
    | ZeroDivisionError
    | JsonDecodeError
    | ShapeNotModelled
}
