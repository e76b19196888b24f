/** A value that may be absent: the null pointers and unset values of the sources. */
module Options {
  datatype Option<T> = None | Some(value: T)
}
