/** Failure-compatible results. An `Error` names the Python exception the source raises. */
module Results {

  datatype Error =
    | NamePartTooLong   // NamePartTooLongException
    | ValueError
    | IndexError
    | StructError       // struct.error
    | DecodeError       // IncomingDecodeError
    | KeyError
    | LookupError       // a context variable without a value
    | AssertionError
    | TeardownError     // whatever a teardown function raised

  datatype Option<+T> = None | Some(value: T)

  datatype Result<+T> = Success(value: T) | Failure(error: Error) {
    predicate IsFailure() {
      Failure?
    }

    function PropagateFailure<U>(): Result<U>
      requires Failure?
    {
      Failure(error)
    }

    function Extract(): T
      requires Success?
    {
      value
    }
  }

  datatype Outcome = Pass | Fail(error: Error) {
    predicate IsFailure() {
      Fail?
    }

    function PropagateFailure(): Outcome
      requires Fail?
    {
      this
    }
  }
}
