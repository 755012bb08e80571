/** A value that may be absent: std::optional, an end iterator, a null view. */
module Options {
  datatype Option<+T> = None | Some(value: T)
}
