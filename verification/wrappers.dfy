/** The usual optional-value wrapper, standing in for `T | undefined` and `T | null`. */
module Wrappers {

  datatype Option<+T> = None | Some(value: T)
}
