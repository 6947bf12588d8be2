/** A value that may be absent: a null pointer, a missing file, a refused parse. */
module Options {
  datatype Option<+T> = None | Some(value: T)
}
