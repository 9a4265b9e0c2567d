/** The optional-value datatype used for "no transcript". */
module Wrappers {
  datatype Option<+T> = None | Some(value: T)
}
