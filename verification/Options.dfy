/** A value that may be missing, as the code's null pointers and failed results are. */
module Options {
  datatype Option<T> = None | Some(value: T)
}
