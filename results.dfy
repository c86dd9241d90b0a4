/** Outcomes of engine operations: the Java exceptions the engine can raise become
    the failure case of a Result. */
module Results {

  datatype Option<+T> = None | Some(value: T)

  /** Why an IOException was raised. */
  datatype IoCause =
    | BackendFailure                               // the storage backend could not read, write or delete
    | UnexpectedName(expected: string, found: string)  // the explicit member-name check of the map protocol

  /** The exceptions that leave the engine. */
  datatype Failure =
    | IoError(cause: IoCause)  // java.io.IOException, the only checked exception
    | SyntaxError              // Gson's JsonSyntaxException: the JSON does not represent the requested type
    | StateError               // JsonReader's IllegalStateException: the next token is not the expected one
  {
    /** Checked exceptions are the ones a Java caller must catch or declare. */
    predicate IsChecked() { IoError? }

    /** The message text the engine builds for a protocol violation. */
    function Message(): string
      requires IoError? && cause.UnexpectedName?
    {
      "expected name " + cause.expected + " but found: " + cause.found
    }
  }

  datatype Result<+T> = Ok(value: T) | Err(error: Failure)
}
