/** Values shared by every module: a result or the exception the original code raises. */
module Common {

  /** The exceptions the modelled code can raise, named as Python names them. */
  datatype Error =
    | KeyError            // a dict lookup of a missing key
    | IndexError          // a list index out of range
    | TypeError           // indexing None, a list by a string, and the like
    | ValueError          // int() or float() of text that is not a number
    | AttributeError      // a method the value does not have (append on a dict, strip on an int)
    | ZeroDivisionError
    | IntegrityError      // an INSERT that repeats a table's primary key
    | HttpError(code: int)
    | NoResponse          // the remote service gave no further answer

  datatype Result<+T> = Ok(value: T) | Err(error: Error)

  datatype Option<+T> = None | Some(value: T)

  /** The outcome of an operation that only changes state. */
  datatype Outcome = Pass | Fail(error: Error)
}
