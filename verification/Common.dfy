/** What every module may use. */
module Common {
  datatype Option<+T> = None | Some(value: T)
}
