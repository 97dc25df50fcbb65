/** Python's `None`-or-value, as used by the scripts for absent results. */
module Wrappers {

  datatype Option<+T> = None | Some(value: T)

}
