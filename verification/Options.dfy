/** The one helper datatype several components share. */
module Options {
  datatype Option<+T> = None | Some(value: T)
}
