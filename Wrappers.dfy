/** Outcomes of Python calls that may raise, and optional values. */
module Wrappers {

  datatype Option<+T> = None | Some(value: T)

  /** The Python exception classes the modelled code can raise. */
  datatype Raised =
    | AttributeError    // a method looked up on a value of the wrong type (`None.get`, `5.replace`)
    | TypeError         // `len(None)`, `'/' in 5`, an unhashable key in a set
    | ValueError        // `range(0, n, 0)`, an unsupported snapshot layout, no AI field found
    | FileNotFound      // the snapshot path does not exist
    | JsonDecodeError   // the snapshot file is not JSON
    | DatabaseError     // the store refused a statement outside the per-row fallback

  /** A value, or the exception that was raised instead. */
  datatype Result<+T> = Ok(value: T) | Err(error: Raised) {
    predicate IsFailure() { Err? }
    function PropagateFailure<U>(): Result<U>
      requires Err?
    {
      Err(error)
    }
    function Extract(): T
      requires Ok?
    {
      value
    }
  }
}
