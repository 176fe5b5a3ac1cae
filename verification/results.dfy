/** Failure-carrying values shared by the configuration front-end.

    The generator's constructor reports every problem by raising `ValueError`;
    the model distinguishes the two situations that raise it. */
module Results {

  /** A value that may be absent, e.g. the outcome of parsing an integer literal. */
  datatype Option<+T> = None | Some(value: T)

  /** The two configuration errors of the generator's constructor. */
  datatype ConfigError =
    | InvalidIterationCount   // the iteration count is zero or negative
    | FormatError             // the "W.F" descriptor is malformed or out of range

  /** Either a successfully built value or the configuration error that stopped it. */
  datatype Result<+T> = Ok(value: T) | Err(error: ConfigError) {

    predicate IsFailure() {
      Err?
    }

    function PropagateFailure<U>(): Result<U>
      requires Err?
    {
      Err(error)
    }

    function Extract(): T
      requires Ok?
    {
      value
    }
  }
}
