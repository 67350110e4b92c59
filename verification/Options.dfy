/** A value that may be absent: null, undefined, or a missing row in the source. */
module Options {
  datatype Option<+T> = None | Some(value: T)
}
