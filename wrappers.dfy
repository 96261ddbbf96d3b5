/** Failure-compatible datatypes shared by every module of the model.
 *
 *  Python functions of Flickypedia either return a value or raise an
 *  exception; the model returns a `Result` whose failure case names the
 *  exception class that would have been raised. */
module Wrappers {

  datatype Option<+T> = None | Some(value: T) {
    predicate IsFailure() {
      None?
    }

    function PropagateFailure<U>(): Option<U>
      requires None?
    {
      None
    }

    function Extract(): T
      requires Some?
    {
      value
    }

    /** `d.get(key, default)` for a value that may be missing. */
    function UnwrapOr(default: T): T {
      match this
      case Some(v) => v
      case None => default
    }
  }

  /** The exception classes raised (and sometimes caught) by the modelled code. */
  datatype Exception =
    | AmbiguousStructuredData
    | ValueError
    | KeyError
    | IndexError
    | AssertionError
    | AttributeError
    | RuntimeError
    | TypeError
    | UnknownWikimediaApiException
    | FlickrApiException
    | InsufficientPermissionsToComment
    | ResourceNotFound
    | ValidationError

  datatype Result<+T> = Ok(value: T) | Err(error: Exception) {
    predicate IsFailure() {
      Err?
    }

    function PropagateFailure<U>(): Result<U>
      requires Err?
    {
      Err(error)
    }

    function Extract(): T
      requires Ok?
    {
      value
    }
  }
}
