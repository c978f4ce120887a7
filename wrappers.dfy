/** Optional values, standing for JavaScript's `null`/`undefined` and for
    the outcome of a request that may fail. */
module Wrappers {

  datatype Option<+T> = None | Some(value: T)
}
