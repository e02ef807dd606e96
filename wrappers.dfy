/** Optional values, standing in for the Java `null` checks of the source. */
module Wrappers {
  datatype Option<+T> = None | Some(value: T)
}
