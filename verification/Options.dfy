// A value that may be missing: a null pointer or a failed call of the source.
module Options {
  datatype Option<+T> = None | Some(value: T)
}
