/** The optional value used throughout the model: JavaScript's `null`/`undefined` or a value. */
module Wrappers {
  datatype Option<+T> = None | Some(value: T)
}
