/** Optional values, for the nil pointers of the Go source. */
module Wrappers {

  datatype Option<+T> = None | Some(value: T)
}
