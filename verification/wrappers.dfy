/** The optional value used throughout the model for the source's `null`, `Option` and thrown lookups. */
module Wrappers {
  datatype Option<+T> = None | Some(value: T)
}
