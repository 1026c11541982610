/** Optional values, used for empty task slots, "no byte received" and panicking lookups. */
module Wrappers {
  datatype Option<+T> = None | Some(value: T)
}
