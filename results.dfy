/** Option, Result and the exceptions the modelled Python code raises or catches. */
module Results {

  datatype Option<+T> = None | Some(value: T)

  /** The Python exception classes that the modelled code lets escape or catches.
      ServiceError stands for any failure of a foreign service (HTTP, KMS, OpenAI);
      WriteError and DuplicateKeyError are pymongo's refusals of an insert. */
  datatype PyError =
    | KeyError
    | TypeError
    | AttributeError
    | ValueError
    | JSONDecodeError
    | AssertionError
    | UnicodeEncodeError
    | InvalidId
    | WriteError
    | DuplicateKeyError
    | ServiceError

  /** A computation that either returns a value or raises. */
  datatype Result<+T> = Ok(value: T) | Err(error: PyError) {
    predicate IsFailure() {
      Err?
    }

    function PropagateFailure<U>(): Result<U>
      requires Err?
    {
      Err(error)
    }

    function Extract(): T
      requires Ok?
    {
      value
    }
  }
}
