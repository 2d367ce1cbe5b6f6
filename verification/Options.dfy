/** A value or nothing, where the program has a nil pointer, a zero value or a second result. */
module Options {

  datatype Option<+T> = None | Some(value: T)
}
