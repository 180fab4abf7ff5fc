/** Optional values and the typed outcome that replaces the resolver's
    "print a diagnostic and exit(1)" pattern. */
module Results {

  datatype Option<+T> = None | Some(value: T)

  /** Either a resolved value or the error of the first field that failed.
      Failure-compatible, so `:-` stops at the first `Err`, as `exit(1)` does. */
  datatype Result<+T, +E> = Ok(value: T) | Err(error: E) {

    predicate IsFailure() {
      Err?
    }

    function PropagateFailure<U>(): Result<U, E>
      requires Err?
    {
      Err(error)
    }

    function Extract(): T
      requires Ok?
    {
      value
    }
  }
}
