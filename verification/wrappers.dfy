/** Swift's `Optional`, as a plain Some/None datatype. */
module Wrappers {

  datatype Option<+T> = None | Some(value: T)
}
