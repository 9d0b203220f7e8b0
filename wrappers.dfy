/** An optional value: `None` stands for Go's nil map or nil pointer. */
module Wrappers {

  datatype Option<+T> = None | Some(value: T)
}
