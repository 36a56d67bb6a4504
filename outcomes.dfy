/** Outcomes of Python calls as seen by the tool wrappers: an optional value, and a
    call that either returns a value or raises an exception with a message. */
module Outcomes {

  /** Python `Optional[T]`: `None` or a value. */
  datatype Option<+T> = None | Some(value: T)

  /** The outcome of one Python call: it returns a value, or it raises an exception
      whose `str(e)` is `message`. Failure-compatible, so `:-` propagates a raise the
      way Python does when no handler is in between. */
  datatype Call<+T> = Returned(value: T) | Raised(message: string) {

    predicate IsFailure() {
      Raised?
    }

    function PropagateFailure<U>(): Call<U>
      requires Raised?
    {
      Raised(message)
    }

    function Extract(): T
      requires Returned?
    {
      value
    }
  }
}
