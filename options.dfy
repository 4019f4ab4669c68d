/** A value that may be absent: `null` in the source's state variables. */
module Options {
  datatype Option<T> = None | Some(value: T)
}
