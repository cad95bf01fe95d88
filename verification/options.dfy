/** Optional values: the model's stand-in for JavaScript's `null`. */
module Options {

  datatype Option<+T> = None | Some(value: T)
}
