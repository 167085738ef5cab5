/** Wrappers for optional values, as returned by attribute lookups. */
module Wrappers {

  datatype Option<+T> = None | Some(value: T)
}
