/** Optional values and results, used wherever the program returns an `Option` or a `Result`. */
module Results {
  datatype Option<+T> = None | Some(value: T)

  datatype Result<+T, +E> = Ok(value: T) | Err(error: E)
}
