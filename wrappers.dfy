/** The optional value used for absent filter bounds and absent CSV columns. */
module Wrappers {
  datatype Option<T> = None | Some(value: T)
}
