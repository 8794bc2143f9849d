/** A value that may be absent, for nullable columns and lookups that find nothing. */
module Options {

  datatype Option<+T> = None | Some(value: T)
}
