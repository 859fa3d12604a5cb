/** The two failure-carrying shapes the tool's Rust code relies on:
    `Option<T>` (absent value, failed parse) and `Result<T, E>` (an
    operation that returns early with an error). */
module Results {

  datatype Option<+T> = None | Some(value: T)

  datatype Result<+T, +E> = Success(value: T) | Failure(error: E)
}
