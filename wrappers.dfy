/** Optional values, standing in for JavaScript's `undefined` results
    (`Array.prototype.find` with no match, a socket that never opened). */
module Wrappers {

  datatype Option<+T> = None | Some(value: T)
}
