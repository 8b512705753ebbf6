/** Failure-compatible wrappers shared by the whole model.

    Every Python exception a check can raise on its input becomes an `Err`
    carrying the exception's class; a normal return becomes `Ok`. Both types
    work with Dafny's `:-` operator, so the models read like the straight-line
    Python they mirror: the first failing step ends the computation.
 */
module Wrappers {

  datatype Option<+T> = None | Some(value: T)

  /** The Python exception classes the modelled code can raise. */
  datatype Exception =
    | KeyError        // `d[k]` on a dict without `k`
    | TypeError       // subscripting a non-dict with a string, iterating a non-iterable,
                      // ordering None or a string against a number, hashing a list or dict
    | AttributeError  // `.get` / `.replace` on a value that has no such method
    | ValueError      // a timestamp that does not parse, a Rego file without a package line
    | NameError       // reading a local variable that was never bound
    | Raised(message: string)  // a bare `raise Exception(message)`

  datatype Result<+T> = Ok(value: T) | Err(error: Exception) {
    predicate IsFailure() {
      Err?
    }

    function PropagateFailure<U>(): Result<U>
      requires Err?
    {
      Err(error)
    }

    function Extract(): T
      requires Ok?
    {
      value
    }
  }
}
