/** Optional values: a JavaScript `undefined` (or a MongoDB `null` result) is `None`. */
module Wrappers {

  datatype Option<+T> = None | Some(value: T)
}
