/** The optional-value type used for JavaScript's `null`/`undefined` and for a value that may be absent. */
module Wrappers {

  datatype Option<+T> = None | Some(value: T)
}
