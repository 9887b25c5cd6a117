/** The usual optional value, for Go's `(value, ok)` results. */
module Options {
  datatype Option<+T> = None | Some(value: T)
}
