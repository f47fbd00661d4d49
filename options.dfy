/** The optional value used for the selection, the hover target and the drag state. */
module Options {
  datatype Option<T> = None | Some(value: T)
}
