/** A value that may be missing: a nullable column, a lookup that finds nothing. */
module Options {
  datatype Option<T> = None | Some(value: T)
}
