/** Optional values, used where the engine holds a pointer that may be null. */
module Wrappers {
  datatype Option<T> = None | Some(value: T)
}
