/** Optional values, standing in for JavaScript's `null`. */
module Wrappers {

  /** `None` plays the part of `null`; `Some(v)` a present value. */
  datatype Option<+T> = None | Some(value: T)
}
