/** Python's `None`-or-value convention, as a datatype. */
module Options {

  datatype Option<+T> = None | Some(value: T)

}
