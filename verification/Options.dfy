/** A value or nothing: the source's null pointers. */
module Options {
  datatype Option<T> = None | Some(value: T)
}
