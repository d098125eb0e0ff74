/** The update handler of the Azure AD group resource. An update may only rotate the Graph
    credentials: the create-only fields are pinned to the stored record whatever the request says,
    the new credentials are checked, the group must still carry its name, and the merged model is
    persisted before the read handler reports the result. */
module GroupUpdate {
  import opened Results
  import opened Identifiers
  import opened HandlerBase
  import opened RecordStore
  import opened GroupModels
  import opened GroupRead

  /** The desired model with its create-only fields taken from the stored model `s`. */
  function Pin(d: GroupModel, s: GroupModel): (m: GroupModel)
    ensures m.credentialTenantId == s.credentialTenantId && m.groupName == s.groupName
    ensures m.groupType == s.groupType && m.groupOwnerAppName == s.groupOwnerAppName
    // every other field, the credential client id and API token among them, comes from the request
    ensures m.(credentialTenantId := d.credentialTenantId, groupName := d.groupName,
               groupType := d.groupType, groupOwnerAppName := d.groupOwnerAppName) == d
  {
    d.(credentialTenantId := s.credentialTenantId, groupName := s.groupName,
       groupType := s.groupType, groupOwnerAppName := s.groupOwnerAppName)
  }

  /** Whatever the request says about the pinned fields, the pinned model is the same. */
  lemma PinIgnoresRequestedCreateOnlyFields(d1: GroupModel, d2: GroupModel, s: GroupModel)
    requires d1.groupDescription == d2.groupDescription && d1.groupId == d2.groupId && d1.owners == d2.owners
    requires d1.credentialAppClientId == d2.credentialAppClientId
    requires d1.credentialAppAPIToken == d2.credentialAppAPIToken
    requires d1.generatedId == d2.generatedId
    ensures Pin(d1, s) == Pin(d2, s)
  {
  }

  /** Pinning twice pins nothing more. */
  lemma PinIdempotent(d: GroupModel, s: GroupModel)
    ensures Pin(Pin(d, s), s) == Pin(d, s)
  {
  }

  /** The message of the error raised when the group no longer carries the pinned name. */
  function DisplayNameMismatch(groupId: string): string
  {
    "Group found by Group ID: " + groupId + " has an incorrect display name"
  }

  /** The update passes its checks: the request's model names a stored record, the Graph API
      accepts the pinned credentials and the group's display name is the pinned group name. */
  predicate Accepted(records: map<Identifier, GroupModel>, request: Request<GroupModel>,
                     credentialsAccepted: GroupModel -> bool, getGroup: string -> GroupInfo)
  {
    request.desired.Some? && request.desired.value.generatedId.Some? &&
    var id := request.desired.value.generatedId.value;
    id in records &&
    var d := Pin(request.desired.value, records[id]);
    credentialsAccepted(d) && Some(getGroup(NakedIdentifier(id)).displayName) == d.groupName
  }

  /** The update handler over the table `records`: `credentialsAccepted` is the Graph API's
      credential check and `getGroup` its get_by_object_id. */
  function UpdateOutcome(records: map<Identifier, GroupModel>, request: Request<GroupModel>,
                         credentialsAccepted: GroupModel -> bool, getGroup: string -> GroupInfo): (r: Run<GroupModel>)
    ensures r.event.Ok? <==> Accepted(records, request, credentialsAccepted, getGroup)
    // every check comes before update_model: a refused update writes nothing
    ensures r.event.Err? ==> r.records == records
    ensures request.desired.None? ==> r.event == Err(AssertionFailed)
    ensures request.desired.Some? && request.desired.value.generatedId.None? ==> r.event == Err(InvalidIdentifier)
    ensures request.desired.Some? && request.desired.value.generatedId.Some? ==>
      var id := request.desired.value.generatedId.value;
      (id !in records ==> r.event == Err(RecordNotFound)) &&
      (id in records && !credentialsAccepted(Pin(request.desired.value, records[id])) ==>
        r.event == Err(SessionInternalFailure(CredentialsRejected))) &&
      (id in records && credentialsAccepted(Pin(request.desired.value, records[id])) &&
       Some(getGroup(NakedIdentifier(id)).displayName) != records[id].groupName ==>
        r.event == Err(SessionInternalFailure(EnvironmentFailure(DisplayNameMismatch(NakedIdentifier(id))))))
    // an accepted update persists the pinned model, then reads it back through the read handler
    ensures Accepted(records, request, credentialsAccepted, getGroup) ==>
      var id := request.desired.value.generatedId.value;
      var written := records[id := Pin(request.desired.value, records[id])];
      r == ReadOutcome(written, request.(desired := Some(Pin(request.desired.value, records[id]))), getGroup)
  {
    if request.desired.None? then Run(Err(AssertionFailed), records)
    else
      match ValidateIdentifier(request.desired.value.generatedId)
      case Err(e) => Run(Err(e), records)
      case Ok(id) =>
        if id !in records then Run(Err(RecordNotFound), records)
        else
          var d := Pin(request.desired.value, records[id]);
          if !credentialsAccepted(d) then
            Run(Err(SurfacedError(UpdateSession, CredentialsRejected)), records)
          else if Some(getGroup(NakedIdentifier(id)).displayName) != d.groupName then
            Run(Err(SurfacedError(UpdateSession, EnvironmentFailure(DisplayNameMismatch(NakedIdentifier(id))))), records)
          else
            ReadOutcome(records[id := d], request.(desired := Some(d)), getGroup)
  }

  /** After an accepted update the record holds the request's new client id and API token, the
      stored tenant, name and owner application, and the group type and id Graph reports; the
      returned model shows none of the credentials. */
  lemma UpdateRotatesCredentialsOnly(records: map<Identifier, GroupModel>, request: Request<GroupModel>,
                                     credentialsAccepted: GroupModel -> bool, getGroup: string -> GroupInfo)
    requires Accepted(records, request, credentialsAccepted, getGroup)
    ensures var id := request.desired.value.generatedId.value;
      var d := request.desired.value;
      var info := getGroup(NakedIdentifier(id));
      var r := UpdateOutcome(records, request, credentialsAccepted, getGroup);
      r.records.Keys == records.Keys &&
      r.records[id].credentialAppClientId == d.credentialAppClientId &&
      r.records[id].credentialAppAPIToken == d.credentialAppAPIToken &&
      r.records[id].credentialTenantId == records[id].credentialTenantId &&
      r.records[id].groupName == records[id].groupName &&
      r.records[id].groupOwnerAppName == records[id].groupOwnerAppName &&
      r.records[id].groupType == Some(GroupTypeOf(info.groupTypes)) &&
      r.records[id].groupId == Some(info.id) &&
      r.event == Ok(Success(Output(r.records[id])))
  {
  }

  /** The group update handler; it overwrites the request's desired model in place. */
  class UpdateHandler {
    var request: Request<GroupModel>
    const store: Store<Identifier, GroupModel>
    const typeName: string

    constructor (request: Request<GroupModel>, store: Store<Identifier, GroupModel>, typeName: string)
      ensures this.request == request && this.store == store && this.typeName == typeName
    {
      this.request := request;
      this.store := store;
      this.typeName := typeName;
    }

    /** Pins the create-only fields to the stored record, checks the new credentials and the group's
        display name, persists the pinned model in an update session and returns what the read
        handler reports. */
    method Execute(credentialsAccepted: GroupModel -> bool, getGroup: string -> GroupInfo)
      returns (r: Result<ProgressEvent<GroupModel>>)
      modifies this, store
      ensures r == UpdateOutcome(old(store.records), old(request), credentialsAccepted, getGroup).event
      ensures store.records == UpdateOutcome(old(store.records), old(request), credentialsAccepted, getGroup).records
      // the desired model is pinned in place once the stored record has been read
      ensures request == if old(request).desired.Some? && old(request).desired.value.generatedId.Some? &&
          old(request).desired.value.generatedId.value in old(store.records)
        then old(request).(desired := Some(Pin(old(request).desired.value, old(store.records)[old(request).desired.value.generatedId.value])))
        else old(request)
    {
      if request.desired.None? {
        return Err(AssertionFailed);
      }
      var desired := request.desired.value;
      var primary := ValidateIdentifier(desired.generatedId);
      if primary.Err? {
        return Err(primary.error);
      }
      var entered := store.Open(UpdateSession, Some(primary.value));
      if entered.Fail? {
        return Err(entered.error);
      }
      var groupIdentifier := NakedIdentifier(primary.value);
      var s := store.records[primary.value];
      desired := Pin(desired, s);
      request := request.(desired := Some(desired));
      if !credentialsAccepted(desired) {
        return Err(SurfacedError(UpdateSession, CredentialsRejected));
      }
      var resp := getGroup(groupIdentifier);
      if Some(resp.displayName) != desired.groupName {
        return Err(SurfacedError(UpdateSession, EnvironmentFailure(DisplayNameMismatch(groupIdentifier))));
      }
      store.UpdateModel(primary.value, desired);
      var reader := new ReadHandler(request, store, typeName);
      r := reader.Execute(getGroup);
    }
  }
}
