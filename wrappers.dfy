/** A value that may be absent: a JavaScript `null` argument or a promise that rejects. */
module Wrappers {
  datatype Option<+T> = None | Some(value: T)
}
