/** Optional values: a missing dictionary entry, an absent field, no result. */
module Options {

  datatype Option<T> = None | Some(value: T)
}
