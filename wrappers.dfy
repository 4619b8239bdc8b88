/** Optional value, used for the payload a call may or may not post. */
module Wrappers {
  datatype Option<+T> = None | Some(value: T)
}
