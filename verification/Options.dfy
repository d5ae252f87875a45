/** The optional values the components pass around. */
module Options {
  datatype Option<+T> = None | Some(value: T)
}
