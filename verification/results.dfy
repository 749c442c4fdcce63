/** Optional values and success/failure values, used for the outcome of a
    lookup, of a parse and of an item read from a file. */
module Results {

  datatype Option<+T> = None | Some(value: T)

  datatype Result<+T, +E> = Ok(value: T) | Err(error: E)

  /** The first of `a` and `b` that holds a value. */
  function OrElse<T>(a: Option<T>, b: Option<T>): Option<T>
  {
    if a.Some? then a else b
  }
}
