/** Option and Result values used by the validators and the views for the
    source's null values, raised exceptions and error returns. */
module Wrappers {

  /** A value that may be missing (Python's None, a JavaScript Invalid Date). */
  datatype Option<+T> = None | Some(value: T)

  /** The outcome of a Django `clean_*` hook: the cleaned value, or the
      ValidationError it raised. */
  datatype Result<+T, +E> = Ok(value: T) | Err(error: E)
}
