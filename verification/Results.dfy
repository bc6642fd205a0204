// Outcomes shared by every module: the source's `SoapResult` and `Option`.

module Results {

  /** The categories of `SoapError` this layer raises or maps driver failures to. */
  datatype ErrorKind = Validation | Unsupported | NotFound | Conflict | Infrastructure

  datatype Option<+T> = None | Some(value: T)

  datatype Result<+T> = Ok(value: T) | Err(kind: ErrorKind) {
    predicate IsFailure() {
      Err?
    }

    function PropagateFailure<U>(): Result<U>
      requires Err?
    {
      Err(kind)
    }

    function Extract(): T
      requires Ok?
    {
      value
    }
  }
}
