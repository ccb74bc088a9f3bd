/** The optional value used wherever the source returns `null` or may have nothing to give. */
module Options {

  datatype Option<+T> = None | Some(value: T)
}
