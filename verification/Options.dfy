/** A value that may be missing: a nil, or the error of a result whose errors are all alike. */
module Options {

  datatype Option<T> = None | Some(value: T)
}
