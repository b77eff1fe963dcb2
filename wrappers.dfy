/** Option, Result and the failure taxonomy shared by every module of the model. */
module Wrappers {

  datatype Option<+T> = None | Some(value: T) {
    function GetOr(default: T): T {
      match this
      case Some(v) => v
      case None => default
    }
  }

  datatype Result<+T, +E> = Ok(value: T) | Err(error: E) {
    predicate IsFailure() {
      Err?
    }
    function PropagateFailure<U>(): Result<U, E>
      requires Err?
    {
      Err(error)
    }
    function Extract(): T
      requires Ok?
    {
      value
    }
  }

  /** The Python exception classes the core raises or catches. A `UnicodeDecodeError`, a
      `JSONDecodeError` and a `binascii.Error` are all `ValueError`s and are reported as such. */
  datatype ExceptionKind = ValueError | KeyError | TypeError | AttributeError | InvalidTag

  /** How an operation ends when it does not return normally. `Exit` is `sys.exit(code)`:
      it raises `SystemExit`, which is not an `Exception`, so an `except Exception:` clause
      lets it through; `Raised` is an ordinary exception. */
  datatype Failure = Exit(code: int) | Raised(kind: ExceptionKind)

  /** What an `except Exception:` clause catches. */
  predicate IsException(f: Failure) {
    f.Raised?
  }

  /** What an `except (ValueError, KeyError):` clause catches. */
  predicate IsValueOrKeyError(f: Failure) {
    f.Raised? && (f.kind == ValueError || f.kind == KeyError)
  }
}
