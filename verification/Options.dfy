/** A value that may be missing: Go's nil, or the second result of a lookup. */
module Options {

  datatype Option<+T> = None | Some(value: T)
}
