/** The usual optional-value datatype, used for JavaScript `null`/`undefined`. */
module Wrappers {
  datatype Option<+T> = None | Some(value: T)
}
