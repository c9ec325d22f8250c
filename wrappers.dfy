/** Optional values and pass/fail outcomes used across the model. */
module Wrappers {

  /** A value that may be absent (`null`/`undefined` in the application). */
  datatype Option<+T> = None | Some(value: T)

  /** The result of a handler that either goes ahead or stops with a reason
      (the application shows the reason as a toast or throws it). */
  datatype Outcome<+E> = Pass | Fail(error: E)
}
