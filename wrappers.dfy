/** The optional value used for JavaScript's `null`/`undefined` where the source allows it. */
module Wrappers {

  datatype Option<+T> = None | Some(value: T)
}
