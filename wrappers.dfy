/** The optional value used for "an exception was thrown, with this cause, or not". */
module Wrappers {
  datatype Option<+T> = None | Some(value: T)
}
