/** The conventional Some/None datatype: Python's `None` or a value. */
module Wrappers {

  datatype Option<+T> = None | Some(value: T)

}
