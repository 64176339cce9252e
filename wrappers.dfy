/** Optional values: a missing server reply, a manifest entry that does not parse. */
module Wrappers {
  datatype Option<+T> = None | Some(value: T)
}
