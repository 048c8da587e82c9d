/** Optional values: JavaScript's `string | null` and `x?: T`. */
module Wrappers {
  datatype Option<+T> = None | Some(value: T)
}
