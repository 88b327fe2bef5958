/** An optional value, used for `null`/`undefined` results and absent fields. */
module Wrappers {
  datatype Option<+T> = None | Some(value: T)
}
