/** Optional values and success-or-error results, the two shapes the labeler's handlers return. */
module Results {

  datatype Option<+T> = None | Some(value: T)

  /** A handler either succeeds with a value or raises an error the form shows to the annotator. */
  datatype Result<+T, +E> = Ok(value: T) | Err(error: E)
}
