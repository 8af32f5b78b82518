/** The failures a read or a write can end with: the serialization errors of
    ThriftExceptions.cs, and the I/O failures of the protocol and the
    exceptions of user code, which are propagated unchanged. */
module ThriftErrors {
  import opened Wire

  /** Why the protocol could not perform a read. */
  datatype IoFailure =
    | EndOfInput
    | UnexpectedToken(found: Token)

  datatype Error =
    | TypeIdMismatch(expected: TypeId, actual: TypeId)
    | MissingRequiredField(fieldName: string)
    | RequiredFieldIsNull(fieldName: string)
    | NullParameter(parameterName: string)
    | Io(failure: IoFailure)
      /** An exception thrown by user code the codec calls (a field's value
          converter), propagated unchanged. */
    | Thrown(exception: string)

  datatype Option<+T> = None | Some(value: T)

  /** A value or the error that aborted its computation. */
  datatype Result<+T> = Ok(value: T) | Err(error: Error) {
    predicate IsFailure() {
      Err?
    }

    function PropagateFailure<U>(): Result<U>
      requires Err?
    {
      Err(error)
    }

    function Extract(): T
      requires Ok?
    {
      value
    }
  }
}
