/** Optional values and results: C's NULL pointers and Ruby's raised errors. */
module Options {

  datatype Option<T> = None | Some(value: T)

  datatype Result<T, E> = Ok(value: T) | Err(error: E)
}
