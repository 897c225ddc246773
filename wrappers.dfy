/** Optional values: JavaScript's `undefined` and `Array.prototype.find`'s "no match". */
module Wrappers {

  datatype Option<+T> = None | Some(value: T)
}
