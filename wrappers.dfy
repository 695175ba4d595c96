/** Python's `None`-or-value, shared by the models of all three programs. */
module Wrappers {

  datatype Option<T> = None | Some(value: T)
}
