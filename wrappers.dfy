/** An optional value: JavaScript's `null`/`undefined` and Python's missing keys. */
module Wrappers {

  datatype Option<+T> = None | Some(value: T)

}
