/** A value that may be absent: the null pointers, empty optionals and "not found" results of the source. */
module Options {
  datatype Option<+T> = None | Some(value: T)
}
