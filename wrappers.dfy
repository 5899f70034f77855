/** A value that may be absent: a storage key that was never written, an unchecked form field. */
module Wrappers {
  datatype Option<T> = None | Some(value: T)
}
