/** Option and Result, the two failure-carrying shapes the handlers return. */
module Wrappers {

  /** A value that may be absent: a missing request field, a JavaScript `null`. */
  datatype Option<+T> = None | Some(value: T)

  /** A handler's answer: a value, or the refusal the route sends back. */
  datatype Result<+T, +E> = Ok(value: T) | Err(error: E)
}
