/** Small failure-carrying datatypes shared by the whole model. */
module Wrappers {

  /** A value that may be missing; the model's stand-in for a nil reference or a
      map lookup that returns "found = false". */
  datatype Option<T> = None | Some(value: T)

  /** The result of a handler: `Pass` for a nil error, `Fail` with the message
      the handler builds otherwise. */
  datatype Outcome = Pass | Fail(error: string)
}
