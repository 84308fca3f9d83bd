/** A value that may be missing: the `null` or `undefined` of the source. */
module Options {
  datatype Option<T> = None | Some(value: T)
}
