/** The optional value used wherever the source works with a pointer that may be NULL
    or a QVariant that may be null. */
module Options {
  datatype Option<+T> = None | Some(value: T)
}
