/** Failure-carrying values shared by every module of the model.

    The original program signals failure by raising Python exceptions or by
    calling `sys.exit`; each of those becomes an `Err` carrying a `PyError`
    that names the kind of failure, so that an error path is a value the
    contracts can talk about rather than a precondition. */
module Wrappers {

  datatype Option<T> = None | Some(value: T)

  /** The ways a Python operation of the original can end abnormally. */
  datatype PyError =
    | ValueError(reason: string)
    | IndexError
    | KeyError(key: string)
    | TypeError
    | ZeroDivisionError
    /** `next()` on an exhausted iterator, such as a file with too few
        lines. */
    | StopIteration
    /** A name used but never defined. */
    | NameError(name: string)
    /** A method called on a value whose type lacks it. */
    | AttributeError(name: string)
    /** `sys.exit(message)`: the whole process stops. */
    | Exit(message: string)

  datatype Result<T> = Ok(value: T) | Err(error: PyError) {
    predicate IsFailure() { Err? }

    function PropagateFailure<U>(): Result<U>
      requires Err?
    {
      Err(error)
    }

    function Extract(): T
      requires Ok?
    {
      value
    }
  }
}
