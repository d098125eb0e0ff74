/** The update handler of the assignment resource. An update may only rotate the Graph
    credentials: the create-only fields are pinned to the stored record whatever the request says,
    the new credentials are checked before the merged model is persisted, and the read handler
    then reports the result. */
module AssignmentUpdate {
  import opened Results
  import opened Identifiers
  import opened HandlerBase
  import opened RecordStore
  import opened AssignmentModels
  import opened AssignmentRead

  /** The desired model with its create-only fields taken from the stored model `s`. */
  function Pin(d: AssignmentModel, s: AssignmentModel): (m: AssignmentModel)
    ensures m.credentialTenantId == s.credentialTenantId && m.appRoleName == s.appRoleName
    ensures m.appName == s.appName && m.groupId == s.groupId
    // every other field, the credential client id and API token among them, comes from the request
    ensures m.(credentialTenantId := d.credentialTenantId, appRoleName := d.appRoleName,
               appName := d.appName, groupId := d.groupId) == d
  {
    d.(credentialTenantId := s.credentialTenantId, appRoleName := s.appRoleName,
       appName := s.appName, groupId := s.groupId)
  }

  /** The update passes its checks: the request's model names a stored record and the Graph API
      accepts the pinned credentials. */
  predicate Accepted(records: map<Identifier, AssignmentModel>, request: Request<AssignmentModel>,
                     credentialsAccepted: AssignmentModel -> bool)
  {
    request.desired.Some? && request.desired.value.generatedId.Some? &&
    var id := request.desired.value.generatedId.value;
    id in records && credentialsAccepted(Pin(request.desired.value, records[id]))
  }

  /** The update handler over the table `records`: `credentialsAccepted` is the Graph API's
      credential check and `isAssigned` the read handler's assignment query. */
  function UpdateOutcome(records: map<Identifier, AssignmentModel>, request: Request<AssignmentModel>,
                         credentialsAccepted: AssignmentModel -> bool,
                         isAssigned: (string, string) -> bool): (r: Run<AssignmentModel>)
    // a refused update writes nothing
    ensures !Accepted(records, request, credentialsAccepted) ==> r.event.Err? && r.records == records
    ensures request.desired.None? ==> r.event == Err(AssertionFailed)
    ensures request.desired.Some? && request.desired.value.generatedId.None? ==> r.event == Err(InvalidIdentifier)
    ensures request.desired.Some? && request.desired.value.generatedId.Some? ==>
      var id := request.desired.value.generatedId.value;
      (id !in records ==> r.event == Err(RecordNotFound)) &&
      (id in records && !credentialsAccepted(Pin(request.desired.value, records[id])) ==>
        r.event == Err(SessionInternalFailure(CredentialsRejected)))
    // an accepted update persists the pinned model, then reads it back through the read handler
    ensures Accepted(records, request, credentialsAccepted) ==>
      var id := request.desired.value.generatedId.value;
      var d := Pin(request.desired.value, records[id]);
      r == ReadOutcome(records[id := d], request.(desired := Some(d)), isAssigned)
  {
    if request.desired.None? then Run(Err(AssertionFailed), records)
    else
      match ValidateIdentifier(request.desired.value.generatedId)
      case Err(e) => Run(Err(e), records)
      case Ok(id) =>
        if id !in records then Run(Err(RecordNotFound), records)
        else
          var d := Pin(request.desired.value, records[id]);
          if !credentialsAccepted(d) then Run(Err(SurfacedError(UpdateSession, CredentialsRejected)), records)
          else ReadOutcome(records[id := d], request.(desired := Some(d)), isAssigned)
  }

  /** After an accepted update the record holds the request's new client id and API token and the
      stored tenant, role, application and group; the returned model shows none of the credentials. */
  lemma UpdateRotatesCredentialsOnly(records: map<Identifier, AssignmentModel>,
                                     request: Request<AssignmentModel>,
                                     credentialsAccepted: AssignmentModel -> bool,
                                     isAssigned: (string, string) -> bool)
    requires Accepted(records, request, credentialsAccepted)
    ensures var id := request.desired.value.generatedId.value;
      var d := request.desired.value;
      var r := UpdateOutcome(records, request, credentialsAccepted, isAssigned);
      r.records.Keys == records.Keys &&
      r.records[id].credentialAppClientId == d.credentialAppClientId &&
      r.records[id].credentialAppAPIToken == d.credentialAppAPIToken &&
      r.records[id].credentialTenantId == records[id].credentialTenantId &&
      r.records[id].appRoleName == records[id].appRoleName &&
      r.records[id].appName == records[id].appName &&
      r.records[id].groupId == records[id].groupId &&
      (records[id].appName.Some? && records[id].groupId.Some? ==> r.event == Ok(Success(Output(r.records[id])))) &&
      (records[id].appName.None? || records[id].groupId.None? ==> r.event == Err(AssertionFailed) && r.records == records[id := Pin(d, records[id])])
  {
  }

  /** The assignment update handler; it overwrites the request's desired model in place. */
  class UpdateHandler {
    var request: Request<AssignmentModel>
    const store: Store<Identifier, AssignmentModel>
    const typeName: string

    constructor (request: Request<AssignmentModel>, store: Store<Identifier, AssignmentModel>, typeName: string)
      ensures this.request == request && this.store == store && this.typeName == typeName
    {
      this.request := request;
      this.store := store;
      this.typeName := typeName;
    }

    /** Pins the create-only fields to the stored record, checks the new credentials, persists the
        pinned model in an update session and returns what the read handler reports. */
    method Execute(credentialsAccepted: AssignmentModel -> bool, isAssigned: (string, string) -> bool)
      returns (r: Result<ProgressEvent<AssignmentModel>>)
      modifies this, store
      ensures r == UpdateOutcome(old(store.records), old(request), credentialsAccepted, isAssigned).event
      ensures store.records == UpdateOutcome(old(store.records), old(request), credentialsAccepted, isAssigned).records
      // the desired model is pinned in place once the stored record has been read
      ensures request == if old(request).desired.Some? && old(request).desired.value.generatedId.Some? &&
          old(request).desired.value.generatedId.value in old(store.records)
        then old(request).(desired := Some(Pin(old(request).desired.value, old(store.records)[old(request).desired.value.generatedId.value])))
        else old(request)
    {
      if request.desired.None? {
        return Err(AssertionFailed);
      }
      var desired := request.desired.value;
      var primary := ValidateIdentifier(desired.generatedId);
      if primary.Err? {
        return Err(primary.error);
      }
      var entered := store.Open(UpdateSession, Some(primary.value));
      if entered.Fail? {
        return Err(entered.error);
      }
      var s := store.records[primary.value];
      desired := Pin(desired, s);
      request := request.(desired := Some(desired));
      if !credentialsAccepted(desired) {
        return Err(SurfacedError(UpdateSession, CredentialsRejected));
      }
      store.UpdateModel(primary.value, desired);
      var reader := new ReadHandler(request, store, typeName);
      r := reader.Execute(isAssigned);
    }
  }
}
