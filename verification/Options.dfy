/** Optional values, used where the program returns None. */
module Options {
  datatype Option<+T> = None | Some(value: T)
}
