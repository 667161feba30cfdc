/** Option, used where the source panics (an index past the end of an axis). */
module Wrappers {

  datatype Option<+T> = None | Some(value: T)

}
