/** The optional value, for every field that the integration may leave at None. */
module Options {
  datatype Option<+T> = None | Some(value: T)
}
