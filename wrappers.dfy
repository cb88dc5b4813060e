/** Optional values, as answered by the backing engine for a missing list element. */
module Wrappers {

  datatype Option<+T> = None | Some(value: T)
}
