/** The read handler of the assignment resource: it reads the stored record, asks Graph whether
    the group is still assigned to the application, forgets the assignment id when it is not,
    persists the record and returns it without the write-only credentials. */
module AssignmentRead {
  import opened Results
  import opened Identifiers
  import opened HandlerBase
  import opened RecordStore
  import opened AssignmentModels

  /** The stored model `s` once Graph has answered whether the group is still assigned. */
  function Checked(s: AssignmentModel, stillAssigned: bool): (m: AssignmentModel)
    // the assignment id is cleared exactly when the group is no longer assigned
    ensures !stillAssigned ==> m.assignmentId.None?
    ensures stillAssigned ==> m.assignmentId == s.assignmentId
    ensures m.(assignmentId := s.assignmentId) == s
  {
    if stillAssigned then s else s.(assignmentId := None)
  }

  /** The model the read handler returns for the checked stored model `s`. */
  function Output(s: AssignmentModel): (m: AssignmentModel)
    ensures m.credentialAppClientId.None? && m.credentialAppAPIToken.None? && m.credentialTenantId.None?
    ensures m.(credentialAppClientId := s.credentialAppClientId, credentialAppAPIToken := s.credentialAppAPIToken,
               credentialTenantId := s.credentialTenantId) == s
  {
    AssignmentModel(s.groupId, s.appName, s.appRoleName, s.assignmentId, s.generatedId, None, None, None)
  }

  /** A read of `request` reaches Graph: the request has a model naming a stored record that
      carries its application name and group id. */
  predicate Reaches(records: map<Identifier, AssignmentModel>, request: Request<AssignmentModel>)
  {
    request.desired.Some? && request.desired.value.generatedId.Some? &&
    request.desired.value.generatedId.value in records &&
    records[request.desired.value.generatedId.value].appName.Some? &&
    records[request.desired.value.generatedId.value].groupId.Some?
  }

  /** The read handler over the table `records`. `isAssigned(appName, groupId)` is Graph's answer
      to whether the group is assigned to the service principal of the named application. */
  function ReadOutcome(records: map<Identifier, AssignmentModel>, request: Request<AssignmentModel>,
                       isAssigned: (string, string) -> bool): (r: Run<AssignmentModel>)
    // every failure leaves the table as it was
    ensures r.event.Err? <==> !Reaches(records, request)
    ensures r.event.Err? ==> r.records == records
    ensures request.desired.None? ==> r.event == Err(AssertionFailed)
    ensures request.desired.Some? && request.desired.value.generatedId.None? ==> r.event == Err(InvalidIdentifier)
    ensures request.desired.Some? && request.desired.value.generatedId.Some? ==>
      var id := request.desired.value.generatedId.value;
      (id !in records ==> r.event == Err(RecordNotFound)) &&
      (id in records && (records[id].appName.None? || records[id].groupId.None?) ==> r.event == Err(AssertionFailed))
    // on success the checked record is persisted and returned
    ensures Reaches(records, request) ==>
      var id := request.desired.value.generatedId.value;
      var s := records[id];
      var m := Checked(s, isAssigned(s.appName.value, s.groupId.value));
      r.records == records[id := m] && r.event == Ok(Success(Output(m)))
  {
    if request.desired.None? then Run(Err(AssertionFailed), records)
    else
      match ValidateIdentifier(request.desired.value.generatedId)
      case Err(e) => Run(Err(e), records)
      case Ok(id) =>
        if id !in records then Run(Err(RecordNotFound), records)
        else
          var s := records[id];
          if s.appName.None? || s.groupId.None? then Run(Err(SurfacedError(ReadSession, AssertionFailed)), records)
          else
            var m := Checked(s, isAssigned(s.appName.value, s.groupId.value));
            Run(Ok(Success(Output(m))), records[id := m])
  }

  /** A second read with the same Graph answers changes nothing more and reports the same model. */
  lemma ReadIdempotent(records: map<Identifier, AssignmentModel>, request: Request<AssignmentModel>,
                          isAssigned: (string, string) -> bool)
    ensures var r := ReadOutcome(records, request, isAssigned);
      ReadOutcome(r.records, request, isAssigned) == r
  {
  }

  /** The assignment read handler. */
  class ReadHandler {
    const request: Request<AssignmentModel>
    const store: Store<Identifier, AssignmentModel>
    const typeName: string

    constructor (request: Request<AssignmentModel>, store: Store<Identifier, AssignmentModel>, typeName: string)
      ensures this.request == request && this.store == store && this.typeName == typeName
    {
      this.request := request;
      this.store := store;
      this.typeName := typeName;
    }

    /** Reads the stored record in a read session, clears the assignment id if Graph no longer
        reports the assignment, persists the record and returns it without credentials. */
    method Execute(isAssigned: (string, string) -> bool) returns (r: Result<ProgressEvent<AssignmentModel>>)
      modifies store
      ensures r == ReadOutcome(old(store.records), request, isAssigned).event
      ensures store.records == ReadOutcome(old(store.records), request, isAssigned).records
    {
      if request.desired.None? {
        return Err(AssertionFailed);
      }
      var identifier := ValidateIdentifier(request.desired.value.generatedId);
      if identifier.Err? {
        return Err(identifier.error);
      }
      var db := new ResourceRead(store, Some(identifier.value), typeName);
      var entered := db.Enter();
      if entered.Err? {
        return Err(entered.error);
      }
      var read := db.ReadModel();
      var s := read.value;
      if s.appName.None? || s.groupId.None? {
        var _ := db.Exit(Some(AssertionFailed));
        return Err(SurfacedError(ReadSession, AssertionFailed));
      }
      var stillAssigned := isAssigned(s.appName.value, s.groupId.value);
      if !stillAssigned {
        s := s.(assignmentId := None);
      }
      store.UpdateModel(identifier.value, s);
      var model := Output(s);
      var _ := db.Exit(None);
      return Ok(Success(model));
    }
  }
}
