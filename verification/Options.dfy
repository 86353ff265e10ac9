/** A value that may be missing: the original's (value, ok) pairs, nil pointers and None. */
module Options {
  datatype Option<+T> = None | Some(value: T)
}
