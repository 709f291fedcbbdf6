/** A value that may be absent: what the source writes as a nil pointer or a second result. */
module Options {
  datatype Option<+T> = None | Some(value: T)
}
