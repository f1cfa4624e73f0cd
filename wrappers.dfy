/** The optional-value datatype used for JSON keys that may be absent and for
    nullable columns. */
module Wrappers {
  datatype Option<T> = None | Some(value: T)
}
