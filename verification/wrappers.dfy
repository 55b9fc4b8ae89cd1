/** Optional values: the model's stand-in for JavaScript's `undefined` and for a failed lookup. */
module Wrappers {
  datatype Option<+T> = None | Some(value: T)
}
