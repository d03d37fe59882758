/** Optional values, results with an error usable with `:-`, and the ways an operation can fail. */
module Results {

  /** What stops an operation other than an ordinary "false" return. */
  datatype Fault =
    | Undefined   // undefined behaviour in the source (an uninitialised read, an index or cast out of range)
    | OutOfRange  // std::out_of_range thrown by `std::string::substr`

  datatype Option<T> = None | Some(value: T)

  datatype Result<T, E> = Ok(value: T) | Err(error: E) {
    predicate IsFailure() {
      Err?
    }

    function PropagateFailure<U>(): Result<U, E>
      requires Err?
    {
      Err(error)
    }

    function Extract(): T
      requires Ok?
    {
      value
    }
  }
}
