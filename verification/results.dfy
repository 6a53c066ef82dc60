/** Failure-carrying values shared by the whole model. The library's C++ code
    signals failure by throwing; each exception it can raise is one `Error`. */
module Results {

  /** The exceptions the modelled code can raise:
      - InvalidArgument: `std::stoi` found no digits;
      - OutOfRange: `std::stoi` or jsoncpp's `asInt` met a value outside `int`;
      - NotConvertible: jsoncpp's `asString` was asked for an array or object. */
  datatype Error = InvalidArgument | OutOfRange | NotConvertible

  /** A value that may be absent: stands in for a null or "not found" pointer. */
  datatype Option<T> = None | Some(value: T)

  /** Either a value or the exception that prevented it. */
  datatype Result<T> = Ok(value: T) | Err(error: Error) {

    predicate IsFailure() {
      Err?
    }

    function PropagateFailure<U>(): Result<U>
      requires Err?
    {
      Err(error)
    }

    function Extract(): T
      requires Ok?
    {
      value
    }
  }
}
