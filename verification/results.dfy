/** Optional values and success-or-error results, used for JavaScript's
    `null`/`undefined` and for thrown exceptions. */
module Results {

  datatype Option<+T> = None | Some(value: T)

  datatype Result<+T, +E> = Ok(value: T) | Err(error: E)
}
