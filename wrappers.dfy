/** Optional values: the model's stand-in for C# `null` and JavaScript `null`/`undefined`. */
module Wrappers {
  datatype Option<+T> = None | Some(value: T)
}
