/** A value that may be missing. */
module Options {
  datatype Maybe<T> = None | Some(value: T)
}
