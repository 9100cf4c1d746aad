/** Optional values, shared by the models of every component. */
module Options {
  datatype Option<+T> = None | Some(value: T)
}
