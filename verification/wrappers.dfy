/** Failure-carrying wrappers shared by the whole model. */
module Wrappers {

  datatype Option<+T> = None | Some(value: T)

  /** The Python exceptions the completion core can raise on its own. */
  datatype PyError =
    | IndexError           // `importpath[0]` on an empty import path
    | KeyError(key: string) // a leftover import segment missing from the parsed module
    | TypeError            // subscripting an entry tuple or None with a string
    | AttributeError       // `.get` / `.items` called on an entry tuple or None

  /** The outcome of a computation that may raise. Usable with `:-`. */
  datatype Result<+T> = Ok(value: T) | Err(error: PyError) {

    predicate IsFailure() {
      Err?
    }

    function PropagateFailure<U>(): Result<U>
      requires Err?
    {
      Err(error)
    }

    function Extract(): T
      requires Ok?
    {
      value
    }
  }
}
