/** The optional value used for storage slots that may hold nothing. */
module Options {
  datatype Option<+T> = None | Some(value: T)
}
