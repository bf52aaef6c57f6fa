/** A value that may be absent: the source's pointers, which may be NULL. */
module Options {
  datatype Option<+T> = None | Some(value: T)
}
