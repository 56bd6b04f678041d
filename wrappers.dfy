/** The optional value that JavaScript expresses with `null`. */
module Wrappers {

  datatype Option<+T> = None | Some(value: T)
}
