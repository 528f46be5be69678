/** The optional value used for records that may be missing from the store
    and for conversation slots that have not been filled yet. */
module Options {
  datatype Option<+T> = None | Some(value: T)
}
