/** Python's `None`-or-value, used for every optional field of the model. */
module Wrappers {
  datatype Option<+T> = None | Some(value: T)
}
