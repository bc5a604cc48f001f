/** Failure-compatible datatypes shared by the whole model.

    Python code in the modelled system signals failure by raising; each raise
    site becomes an `Err` carrying the exception class and, where the source
    builds one, its message. */
module Wrappers {

  datatype Option<+T> = None | Some(value: T) {
    predicate IsFailure() { None? }

    function PropagateFailure<U>(): Option<U>
      requires None?
    {
      None
    }

    function Extract(): T
      requires Some?
    {
      value
    }

    function GetOr(default: T): T {
      match this
      case Some(v) => v
      case None => default
    }
  }

  /** The exception classes the modelled functions raise. `Raised` stands for
      an exception thrown by a collaborator (HTTP client, GitHub API, git). */
  datatype Error =
    | ValueError(message: string)
    | KeyError(key: string)
    | IndexError
    | Raised(message: string)

  datatype Result<+T> = Ok(value: T) | Err(error: Error) {
    predicate IsFailure() { Err? }

    function PropagateFailure<U>(): Result<U>
      requires Err?
    {
      Err(error)
    }

    function Extract(): T
      requires Ok?
    {
      value
    }
  }

  /** Python truthiness of an `Optional[str]`: `None` and `""` are falsy. */
  predicate Truthy(s: Option<string>) {
    s.Some? && |s.value| > 0
  }
}
