/** The optional value returned by the readers of links and dates. */
module Wrappers {

  datatype Option<T> = None | Some(value: T)
}
