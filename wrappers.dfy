/** The "no result" outcome that the three Python functions signal by returning None. */
module Wrappers {
  datatype Option<+T> = None | Some(value: T)
}
