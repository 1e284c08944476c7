/** Optional values, used for the outcome of calls into the wireless stack. */
module Wrappers {
  datatype Option<+T> = None | Some(value: T)
}
