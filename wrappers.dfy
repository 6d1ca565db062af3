/** The Option type used for partial results (a failed parse is `None`). */
module Wrappers {

  datatype Option<+T> = None | Some(value: T)
}
