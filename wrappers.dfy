/** Optional values, used wherever the source returns a nil pointer or an error beside a value. */
module Wrappers {

  datatype Option<+T> = None | Some(value: T)
}
