/** Optional values: the model's stand-in for Ruby's `nil` results. */
module Wrappers {
  datatype Option<+T> = None | Some(value: T)
}
