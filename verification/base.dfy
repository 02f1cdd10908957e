/** Shared vocabulary for the model: Kotlin's nullable values, its `Result`
    type, and the difference between a function that returns and one that
    throws. */
module Base {

  /** A Kotlin nullable value: `None` stands for `null`. */
  datatype Option<+T> = None | Some(value: T) {

    /** Kotlin's `?:` with a default on the right. */
    function OrElse(default: T): T {
      match this
      case Some(v) => v
      case None => default
    }
  }

  /** A thrown exception, reduced to its class name and message. */
  datatype Throwable = Throwable(kind: string, message: string)

  /** Kotlin's `Result<T>`: a value, or the exception that was caught. */
  datatype Result<+T> = Success(value: T) | Failure(cause: Throwable)

  /** What a call does: return a value, or throw out of the function.
      Kept apart from `Result`, which is a value the caller receives. */
  datatype Outcome<+T> = Returns(value: T) | Throws(cause: Throwable)

  /** What looking up a chain by an id no chain has throws; the message
      is assumed, as the chain registries are outside this model. */
  function UnknownChain(id: string): Throwable {
    Throwable("NoSuchElementException", "Chain with id " + id + " not found")
  }

  /** `orZero()` on a nullable number. */
  function OrZero(x: Option<int>): int {
    x.OrElse(0)
  }

  function OrZeroReal(x: Option<real>): real {
    x.OrElse(0.0)
  }
}
