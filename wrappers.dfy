/** Option: the outcome of an operation that the Java code may abort with an exception. */
module Wrappers {

  datatype Option<+T> = None | Some(value: T)
}
