/** The option type every component shares. */
module Wrappers {
  datatype Option<T> = None | Some(value: T)
}
