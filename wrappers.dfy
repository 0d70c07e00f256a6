/** Optional values: the "not found" answer of a search, in place of the list's sentinel node. */
module Wrappers {
  datatype Option<T> = None | Some(value: T)
}
