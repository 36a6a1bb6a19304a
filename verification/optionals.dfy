/** Values shared by the future and both pools: task outcomes, the errors
    they carry, index-tagged outcomes, and calls that may panic. */
module Optionals {

  /** Absence or presence of a value (Go's nil-able error). */
  datatype Option<+T> = None | Some(value: T)

  /** The errors the library produces or passes through. */
  datatype Error =
    | Canceled                    // context.Canceled: the pool's token is cancelled
    | PoolClosed                  // ErrPoolClosed: StreamPool.Submit after Close
    | TaskFailed(message: string) // any error a task itself returns

  /** Optional[T]: one task outcome, a success exactly when `error` is None. */
  datatype Optional<T> = Optional(result: T, error: Option<Error>) {
    predicate Failed() {
      error.Some?
    }
  }

  /** indexedResult[T]: an outcome tagged with the index of the task that produced it. */
  datatype Indexed<T> = Indexed(index: nat, opt: Optional<T>)

  /** A call that either returns or panics (a Go panic is a fatal misuse). */
  datatype Call<+T> = Returned(value: T) | Panicked(message: string)

  /** The runtime's panic when a channel is made with a negative capacity. */
  const MakeChanNegative := "makechan: size out of range"

  /** The outcome of a task that was not run because the token was cancelled:
      Go's zero value paired with ctx.Err(). */
  function CancelledOutcome<T>(zero: T): (o: Optional<T>)
    ensures o.Failed() && o.error.value == Canceled
  {
    Optional(zero, Some(Canceled))
  }

  /** The zero value of Optional[T]: a zero result with a nil error. */
  function ZeroOutcome<T>(zero: T): (o: Optional<T>)
    ensures !o.Failed()
  {
    Optional(zero, None)
  }
}
