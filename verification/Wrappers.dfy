/** What a lookup returns. */
module Wrappers {

  datatype Option<T> = None | Some(value: T)
}
