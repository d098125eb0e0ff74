/** The pieces of the handler base class the concrete handlers rely on. */
module HandlerBase {
  import opened Results
  import opened Identifiers

  /** The handler request: the desired model and the stack position of the resource. */
  datatype Request<M> = Request(desired: Option<M>, stackId: Option<string>, logicalId: Option<string>)

  /** The event a handler returns to the orchestrator. */
  datatype ProgressEvent<M> =
      /** return_in_progress_event(message, call_back_delay_seconds). */
    | InProgress(message: string, delaySeconds: nat)
      /** The in-progress event the stabilization runner returns when its predicate is not yet true. */
    | StabilizationInProgress(inProgressModel: Option<M>)
      /** return_success_event(resource_model). */
    | Success(model: M)
      /** return_success_delete_event(). */
    | DeleteSuccess

  /** What one handler invocation returns and the record table it leaves behind. */
  datatype Run<M> = Run(event: Result<ProgressEvent<M>>, records: map<Identifier, M>)

  /** validate_identifier: a missing identifier is refused, a present one is used as is. */
  function ValidateIdentifier(id: Option<Identifier>): (r: Result<Identifier>)
    ensures r.Ok? <==> id.Some?
    ensures r.Ok? ==> r.value == id.value
    ensures r.Err? ==> r.error == InvalidIdentifier
  {
    match id
    case None => Err(InvalidIdentifier)
    case Some(i) => Ok(i)
  }
}
