/**
 * Failure-compatible wrappers shared by the whole model.
 *
 * The interpreter of msl/ast.py reports failures through `RTResult`: a node either
 * succeeds with a value or fails with an error, and every caller returns the first
 * error it sees without looking further. `Result` plays that role here, and `:-`
 * plays the role of `result.register(...)` followed by `if result.error: return result`.
 */
module Results {

  datatype Option<+T> = None | Some(value: T) {
    function GetOr(default: T): T {
      match this
      case Some(v) => v
      case None => default
    }
  }

  /** Everything that can stop a compilation. */
  datatype Error =
    | NameError(message: string)      // errors.NameError built by the interpreter
    | ValueError(message: string)     // errors.ValueError built by the interpreter
    | MaxRecursion                    // the string "Max recursion error!" of McCmdNode
    | TypeFault(operation: string)    // a Python TypeError escaping an operator
    | AttributeFault(attribute: string) // a Python AttributeError escaping a call
    | Unsupported(what: string)       // a computation whose result is a float
    | OutOfFuel                       // a compile-time loop ran longer than the fuel allows

  datatype Result<+T> = Ok(value: T) | Err(error: Error) {
    predicate IsFailure() {
      Err?
    }

    function PropagateFailure<U>(): Result<U>
      requires Err?
    {
      Err(error)
    }

    function Extract(): T
      requires Ok?
    {
      value
    }
  }
}
