/** Go's possibly-nil `error` is an `Option<Err>`: `None` stands for nil. */
module Wrappers {

  datatype Option<+T> = None | Some(value: T)
}
