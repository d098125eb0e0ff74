/** The read handler of the Azure AD group resource: it reads the stored record, refreshes the
    group's name, type and id from Graph, persists them and returns the model without the
    write-only credentials. */
module GroupRead {
  import opened Results
  import opened Identifiers
  import opened HandlerBase
  import opened RecordStore
  import opened GroupModels

  /** The group type reported for a Graph group: the security type when its groupTypes list is
      empty, its first group type otherwise. */
  function GroupTypeOf(groupTypes: seq<string>): string
  {
    if |groupTypes| == 0 then SecurityGroupType else groupTypes[0]
  }

  /** The stored model with the fields Graph reports overwritten; the credentials and every
      other field are kept, since they are needed later by the delete handler. */
  function Refreshed(s: GroupModel, info: GroupInfo): (m: GroupModel)
    ensures m.groupName == Some(info.displayName)
    ensures m.groupType == Some(GroupTypeOf(info.groupTypes))
    ensures m.groupId == Some(info.id)
    ensures m.(groupName := s.groupName, groupType := s.groupType, groupId := s.groupId) == s
  {
    s.(groupName := Some(info.displayName), groupType := Some(GroupTypeOf(info.groupTypes)), groupId := Some(info.id))
  }

  /** The model the read handler returns for the refreshed stored model `s`: the write-only
      credentials are left empty and the generated identifier is the stored one. */
  function Output(s: GroupModel): (m: GroupModel)
    ensures m.credentialAppClientId.None? && m.credentialAppAPIToken.None? && m.credentialTenantId.None?
    ensures m.generatedId == s.generatedId && m.groupOwnerAppName == s.groupOwnerAppName
    ensures m.groupName == s.groupName && m.groupType == s.groupType && m.groupId == s.groupId
    ensures m.groupDescription.None? && m.owners.None?
  {
    GroupModel(s.groupName, s.groupType, None, s.groupId, None, None, None, None, s.generatedId, s.groupOwnerAppName)
  }

  /** A read of `request` reaches Graph: the request has a model naming a stored record whose own
      generated identifier is present. */
  predicate Reaches(records: map<Identifier, GroupModel>, request: Request<GroupModel>)
  {
    request.desired.Some? && request.desired.value.generatedId.Some? &&
    request.desired.value.generatedId.value in records &&
    records[request.desired.value.generatedId.value].generatedId.Some?
  }

  /** The read handler over the table `records`; `getGroup` is Graph's get_by_object_id. */
  function ReadOutcome(records: map<Identifier, GroupModel>, request: Request<GroupModel>,
                       getGroup: string -> GroupInfo): (r: Run<GroupModel>)
    // every failure leaves the table as it was
    ensures r.event.Err? <==> !Reaches(records, request)
    ensures r.event.Err? ==> r.records == records
    ensures request.desired.None? ==> r.event == Err(AssertionFailed)
    ensures request.desired.Some? && request.desired.value.generatedId.None? ==> r.event == Err(InvalidIdentifier)
    ensures request.desired.Some? && request.desired.value.generatedId.Some? ==>
      (request.desired.value.generatedId.value !in records ==> r.event == Err(RecordNotFound))
    // on success Graph is asked about the object named by the STORED generated identifier, the
    // record is refreshed in place and the shaped model is returned
    ensures Reaches(records, request) ==>
      var id := request.desired.value.generatedId.value;
      var info := getGroup(NakedIdentifier(records[id].generatedId.value));
      r.records == records[id := Refreshed(records[id], info)] &&
      r.event == Ok(Success(Output(Refreshed(records[id], info))))
  {
    if request.desired.None? then Run(Err(AssertionFailed), records)
    else
      match ValidateIdentifier(request.desired.value.generatedId)
      case Err(e) => Run(Err(e), records)
      case Ok(id) =>
        if id !in records then Run(Err(RecordNotFound), records)
        else
          match ValidateIdentifier(records[id].generatedId)
          case Err(e) => Run(Err(SurfacedError(ReadSession, e)), records)
          case Ok(primary) =>
            var s := Refreshed(records[id], getGroup(NakedIdentifier(primary)));
            Run(Ok(Success(Output(s))), records[id := s])
  }

  /** Only the identifier in the request matters to a read: everything else comes from the table. */
  lemma ReadIgnoresRequestedFields(records: map<Identifier, GroupModel>, a: Request<GroupModel>, b: Request<GroupModel>,
                                   getGroup: string -> GroupInfo)
    requires a.desired.Some? && b.desired.Some? && a.desired.value.generatedId == b.desired.value.generatedId
    ensures ReadOutcome(records, a, getGroup) == ReadOutcome(records, b, getGroup)
  {
  }

  /** A successful read keeps the stored credentials while never returning them. */
  lemma ReadKeepsStoredCredentials(records: map<Identifier, GroupModel>, request: Request<GroupModel>,
                                   getGroup: string -> GroupInfo)
    requires Reaches(records, request)
    ensures var id := request.desired.value.generatedId.value;
      var r := ReadOutcome(records, request, getGroup);
      r.records[id].credentialAppClientId == records[id].credentialAppClientId &&
      r.records[id].credentialAppAPIToken == records[id].credentialAppAPIToken &&
      r.records[id].credentialTenantId == records[id].credentialTenantId &&
      r.event.value.model.credentialAppClientId.None? &&
      r.event.value.model.credentialAppAPIToken.None? &&
      r.event.value.model.credentialTenantId.None?
  {
  }

  /** A second read with the same Graph answers changes nothing more and reports the same model. */
  lemma ReadIdempotent(records: map<Identifier, GroupModel>, request: Request<GroupModel>,
                          getGroup: string -> GroupInfo)
    ensures var r := ReadOutcome(records, request, getGroup);
      ReadOutcome(r.records, request, getGroup) == r
  {
  }

  /** The group read handler. */
  class ReadHandler {
    const request: Request<GroupModel>
    const store: Store<Identifier, GroupModel>
    const typeName: string

    constructor (request: Request<GroupModel>, store: Store<Identifier, GroupModel>, typeName: string)
      ensures this.request == request && this.store == store && this.typeName == typeName
    {
      this.request := request;
      this.store := store;
      this.typeName := typeName;
    }

    /** Reads the stored record in a read session, refreshes it from Graph, persists it and returns
        it without credentials; `getGroup` is Graph's get_by_object_id. */
    method Execute(getGroup: string -> GroupInfo) returns (r: Result<ProgressEvent<GroupModel>>)
      modifies store
      ensures r == ReadOutcome(old(store.records), request, getGroup).event
      ensures store.records == ReadOutcome(old(store.records), request, getGroup).records
    {
      if request.desired.None? {
        return Err(AssertionFailed);
      }
      var identifier := ValidateIdentifier(request.desired.value.generatedId);
      if identifier.Err? {
        return Err(identifier.error);
      }
      var db := new ResourceRead(store, Some(identifier.value), typeName);
      var entered := db.Enter();
      if entered.Err? {
        return Err(entered.error);
      }
      var read := db.ReadModel();
      var s := read.value;
      var primary := ValidateIdentifier(s.generatedId);
      if primary.Err? {
        var _ := db.Exit(Some(primary.error));
        return Err(SurfacedError(ReadSession, primary.error));
      }
      var info := getGroup(NakedIdentifier(primary.value));
      s := Refreshed(s, info);
      store.UpdateModel(identifier.value, s);
      var model := Output(s);
      var _ := db.Exit(None);
      return Ok(Success(model));
    }
  }
}
