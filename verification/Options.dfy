/** A value or none: the null pointers and early returns of the sources. */
module Options {
  datatype Option<T> = None | Some(value: T)
}
