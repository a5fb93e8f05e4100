/** The optional value used for nullable pointers of the two headers. */
module Options {

  datatype Option<+T> = None | Some(value: T)
}
