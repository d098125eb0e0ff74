/** Optional values, results and the exceptions the handlers and sessions raise. */
module Results {

  /** A Python value that may be `None`. */
  datatype Option<T> = None | Some(value: T)

  /** The exceptions that cross the handler and session boundaries. */
  datatype Error =
      /** NotFound raised by a record session for an identifier with no record. */
    | RecordNotFound
      /** NotFound(type_name, name) raised by handler code. */
    | NotFound(typeName: string, name: string)
      /** AlreadyExists raised by set_resource_created. */
    | AlreadyExists
      /** HandlerInternalFailure(message) raised by handler code. */
    | InternalFailure(message: string)
      /** The HandlerInternalFailure a record session raises in place of an unexpected exception;
          `cause` is the exception it replaced (logged, not shown to the orchestrator). */
    | SessionInternalFailure(cause: Error)
      /** A Python `assert` in handler code that did not hold. */
    | AssertionFailed
    | NotImplemented(message: string)
    | EnvironmentFailure(message: string)
      /** A plain `Exception(message)`. */
    | GenericException(message: string)
      /** validate_identifier refusing a missing identifier. */
    | InvalidIdentifier
      /** The credentials check of the Graph API client refusing the request's credentials. */
    | CredentialsRejected

  datatype Result<T> = Ok(value: T) | Err(error: Error)

  /** The result of a step that produces no value. */
  datatype Outcome = Pass | Fail(error: Error)
}
