/** The optional value that JavaScript writes as `null` or `undefined`. */
module Wrappers {

  datatype Option<+T> = None | Some(value: T)
}
