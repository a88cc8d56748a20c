/** The optional value used for the optional `Layout` and `Fallback` slots. */
module Wrappers {
  datatype Option<+T> = None | Some(value: T)
}
