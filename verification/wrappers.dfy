/** Option: a value that may be absent (the source signals absence with a `false` return). */
module Wrappers {
  datatype Option<+T> = None | Some(value: T)
}
