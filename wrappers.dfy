/** The optional value shared by the script's handlers and the PHP layer. */
module Wrappers {

  datatype Option<T> = None | Some(value: T)
}
