/** Option, and how a modelled Python call ends. */
module Wrappers {

  datatype Option<+T> = None | Some(value: T)

  /** The Python exceptions that can escape a modelled call. */
  datatype PyError =
    | IndexError      // `GITLAB_URL.split('://')[1]` on a URL without "://"
    | ValueError      // an export-status body that is not JSON
    | AttributeError  // an export-status body that is JSON but not an object

  /** How a call ends on the finite input it was given: it returns a value,
      an exception escapes it, or it is still inside a `while True` loop
      waiting for an answer that the given input does not hold. */
  datatype Run<+T> = Return(value: T) | Raise(error: PyError) | Pending
}
