/** Option and Result, the failure-carrying values the extension works with.
    Errors are human-readable strings, as in the host API. */
module Wrappers {

  datatype Option<+T> = None | Some(value: T)

  /** Outcome of a fallible host or extension operation. */
  datatype Result<+T> = Ok(value: T) | Err(error: string)
}
