/** Optional values, used wherever the Go code returns a value together with an error. */
module Base {

  datatype Option<+T> = None | Some(value: T)
}
