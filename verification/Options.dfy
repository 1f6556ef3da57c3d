/** A value or none, for the lookups and conversions that can fail. */
module Options {
  datatype Option<+T> = None | Some(value: T)
}
