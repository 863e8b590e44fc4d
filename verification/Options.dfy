/** A value that may be missing, as `None` is in the program. */
module Options {
  datatype Option<+T> = None | Some(value: T)
}
