/** The value-or-nothing wrapper used wherever the Python code returns `None`. */
module Wrappers {
  datatype Option<T> = None | Some(value: T)
}
