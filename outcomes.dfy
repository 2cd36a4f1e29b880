/**
 * Python's exceptions, as values, and the two wrappers that carry them.
 * Every operation of the model that can raise in the original returns a
 * `Result`, so the error paths are part of each contract.
 */
module Outcomes {

  datatype Option<+T> = None | Some(value: T)

  /** The exception classes the modelled code raises or lets through. */
  datatype Exc =
    | KeyError(key: string)
    | TypeError
    | AttributeError
    | ValueError(detail: string)
    | RuntimeError(detail: string)
    | IndexError
    | NotImplementedError(detail: string)
    | ZeroDivisionError
    | FileNotFoundError(path: string)
    | FileExistsError(path: string)
    | JsonDecodeError

  /** `str(e)`: the text Python shows for the exception. Only the detail the
      modelled code supplies is kept; the library's own wording is summarised. */
  function Message(e: Exc): string {
    match e
    case KeyError(k) => "'" + k + "'"
    case TypeError => "TypeError"
    case AttributeError => "AttributeError"
    case ValueError(d) => d
    case RuntimeError(d) => d
    case IndexError => "IndexError"
    case NotImplementedError(d) => d
    case ZeroDivisionError => "float division by zero"
    case FileNotFoundError(p) => "[Errno 2] No such file or directory: '" + p + "'"
    case FileExistsError(p) => p
    case JsonDecodeError => "JSONDecodeError"
  }

  /** A computed value, or the exception that ended the computation. */
  datatype Result<+T> = Ok(value: T) | Err(error: Exc) {
    predicate IsFailure() { Err? }

    function PropagateFailure<U>(): Result<U>
      requires Err?
    {
      Err(error)
    }

    function Extract(): T
      requires Ok?
    {
      value
    }
  }
}
