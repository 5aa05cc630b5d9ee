/** The crate's two error producers (src/error.rs) and the `io::Result` they build.
    An `io::Error` is kept as its kind plus which message it carries: the
    dispatcher only ever looks at the kind, and the message tells the signal
    backend's "another child died" error apart from the generic failure. */
module Errors {

  /** The two `io::ErrorKind`s this crate produces or tests for. */
  datatype ErrorKind = Other | TimedOut

  /** The message of an `io::Error`, as far as it distinguishes errors. */
  datatype Message = Unspecified | OperationTimedOut | AnotherChildDied

  datatype IoError = IoError(kind: ErrorKind, message: Message)

  /** `io::Result<T>`. */
  datatype Result<+T> = Ok(value: T) | Err(error: IoError)

  /** `_generate_default_error`: a failure of kind `Other`, never a success. */
  function GenerateDefaultError(): (r: Result<()>)
    ensures r.Err? && r.error.kind == Other && r.error.message == Unspecified
  {
    Err(IoError(Other, Unspecified))
  }

  /** `_generate_timeout_error`: a failure of kind `TimedOut`, never a success. */
  function GenerateTimeoutError(): (r: Result<()>)
    ensures r.Err? && r.error.kind == TimedOut && r.error.message == OperationTimedOut
  {
    Err(IoError(TimedOut, OperationTimedOut))
  }

  /** The dispatcher's test `e.kind() == io::ErrorKind::TimedOut`. */
  predicate IsTimedOut(e: IoError) {
    e.kind == TimedOut
  }

  /** The dispatcher's `TimedOut` test separates the two producers exactly, so a
      generic failure always aborts the chunk loop and a timeout never does. */
  lemma ProducersSeparated()
    ensures IsTimedOut(GenerateTimeoutError().error)
    ensures !IsTimedOut(GenerateDefaultError().error)
    ensures GenerateTimeoutError() != GenerateDefaultError()
  {
  }
}
