/** Python's `None`-or-a-value, as a datatype. */
module Wrappers {

  datatype Option<T> = None | Some(value: T)
}
