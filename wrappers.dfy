/** Optional values and pass/fail outcomes, used where the JavaScript code
    returns `undefined` or throws. */
module Wrappers {

  datatype Option<+T> = None | Some(value: T)

  /** The outcome of a check that either passes or fails with an error. */
  datatype Outcome<+E> = Pass | Fail(error: E)
}
