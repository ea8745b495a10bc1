/** Optional values, used where the source returns None or falls back to a default. */
module Wrappers {

  datatype Option<+T> = None | Some(value: T)
}
