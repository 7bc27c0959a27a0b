/** Optional values: `None` stands for Java's `null` and for a call that threw. */
module Wrappers {
  datatype Option<+T> = None | Some(value: T)
}
