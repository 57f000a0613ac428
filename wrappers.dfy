/** Optional values: a JavaScript `null` result or an absent element is `None`. */
module Wrappers {
  datatype Option<+T> = None | Some(value: T)
}
