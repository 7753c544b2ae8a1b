/** Optional values: a JSON key that may be absent from a reply. */
module Wrappers {
  datatype Option<+T> = None | Some(value: T)
}
