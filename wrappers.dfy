/** Optional results: JavaScript's `undefined` / `null` return, or a present value. */
module Wrappers {

  datatype Option<+T> = None | Some(value: T)
}
