/** Optional values, used for nullable references and values that may be absent. */
module Wrappers {
  datatype Option<+T> = None | Some(value: T)
}
