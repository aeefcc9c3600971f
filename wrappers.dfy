/** Optional values: the model's stand-in for JavaScript's `null` and absent fields. */
module Wrappers {

  datatype Option<+T> = None | Some(value: T)
}
