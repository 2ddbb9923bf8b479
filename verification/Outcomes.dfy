/** Errors, panic values, and how a function call can end. */
module Outcomes {

  datatype Option<+T> = None | Some(value: T)

  /** The package-level error values, which the code compares by identity, and any others. */
  datatype Error =
    | CircuitOpenError
    | SemaphoreRejected
    | DeadlineExceeded
    | FallbackNotImplemented
    | UnknownPanic
    | Text(message: string)

  /** What `recover` can deliver, as far as the code tells values apart. */
  datatype PanicValue = PanicError(error: Error) | PanicString(message: string) | PanicOther

  /** The end of a `func() error`. */
  datatype Outcome = Returned(err: Option<Error>) | Panicked(value: PanicValue)
}
