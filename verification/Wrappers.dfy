/** An optional value, as every component uses it. */
module Wrappers {

  datatype Option<T> = None | Some(value: T)
}
