/** An optional value: a C pointer that may be nil. */
module Options {
  datatype Option<+T> = None | Some(value: T)
}
