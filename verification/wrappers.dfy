/** Option type for operations that can fail or run out of search fuel. */
module Wrappers {

  datatype Option<+T> = None | Some(value: T)

}
