/** Optional values, for configuration entries that may be absent (PHP's null). */
module Wrappers {

  datatype Option<+T> = None | Some(value: T)
}
