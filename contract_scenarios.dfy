/** The resource contract scenarios the record table honours, each run on a new, empty table with
    the read-only group-info model: a record is created under the identifier generated from the
    request's stack and logical id, then read, updated, listed or deleted. */
module ContractScenarios {
  import opened Results
  import opened Identifiers
  import opened RecordStore
  import opened SsoGroupInfo

  const TypeName := "ExampleTypeName"

  type Table = Store<ReadOnlyIdentifier, GroupInfoModel>

  /** The model the scenarios' create step records: the request's model with a group id and the
      generated identifier filled in. */
  function CreatedModel(model: GroupInfoModel, id: ReadOnlyIdentifier): (m: GroupInfoModel)
    ensures m.generatedReadOnlyId == Some(id) && m.groupId == Some("123")
    ensures m.groupName == model.groupName && m.identityStoreId == model.identityStoreId
  {
    model.(groupId := Some("123"), generatedReadOnlyId := Some(id))
  }

  /** A create session that records `m` under `id`. */
  method CreateSessionStep(db: Table, id: ReadOnlyIdentifier, m: GroupInfoModel) returns (r: Outcome)
    modifies db
    ensures id in old(db.records) ==> r == Fail(AlreadyExists) && db.records == old(db.records)
    ensures id !in old(db.records) ==> r == Pass && db.records == old(db.records)[id := m]
  {
    r := db.Open(CreateSession, None);
    r := db.SetResourceCreated(id, m);
  }

  /** A read session that reads the record of `id`. */
  method ReadSessionStep(db: Table, id: ReadOnlyIdentifier) returns (r: Result<GroupInfoModel>)
    ensures id in db.records ==> r == Ok(db.records[id])
    ensures id !in db.records ==> r == Err(RecordNotFound)
  {
    var session := new ResourceRead(db, Some(id), TypeName);
    var entered := session.Enter();
    if entered.Err? {
      var _ := session.Exit(Some(entered.error));
      return Err(entered.error);
    }
    r := session.ReadModel();
    var _ := session.Exit(None);
  }

  /** An update session that replaces the record of `id` with `m`. */
  method UpdateSessionStep(db: Table, id: ReadOnlyIdentifier, m: GroupInfoModel) returns (r: Outcome)
    modifies db
    ensures id in old(db.records) ==> r == Pass && db.records == old(db.records)[id := m]
    ensures id !in old(db.records) ==> r == Fail(RecordNotFound) && db.records == old(db.records)
  {
    r := db.Open(UpdateSession, Some(id));
    if r.Pass? {
      db.UpdateModel(id, m);
    }
  }

  /** A delete session that removes the record of `id`. */
  method DeleteSessionStep(db: Table, id: ReadOnlyIdentifier) returns (r: Outcome)
    modifies db
    ensures id in old(db.records) ==> r == Pass && db.records == old(db.records) - {id}
    ensures id !in old(db.records) ==> r == Fail(RecordNotFound) && db.records == old(db.records)
  {
    r := db.Open(DeleteSession, Some(id));
    if r.Pass? {
      db.SetResourceDeleted(id);
    }
  }

  /** create, read, delete: the read returns the created model with the generated identifier,
      and the delete succeeds. */
  method CreateReadDelete(model: GroupInfoModel, stackId: Option<string>, logicalId: Option<string>)
    returns (created: Outcome, read: Result<GroupInfoModel>, deleted: Outcome)
    ensures created == Pass && deleted == Pass
    ensures read == Ok(CreatedModel(model, GenerateIdReadOnly(stackId, logicalId)))
    ensures read.Ok? && read.value.generatedReadOnlyId == Some(GenerateIdReadOnly(stackId, logicalId))
  {
    var db := new Store<ReadOnlyIdentifier, GroupInfoModel>();
    var id := GenerateIdReadOnly(stackId, logicalId);
    created := CreateSessionStep(db, id, CreatedModel(model, id));
    read := ReadSessionStep(db, id);
    deleted := DeleteSessionStep(db, id);
  }

  /** create, create with the same identifier: the second set_resource_created raises AlreadyExists,
      which leaves the session as raised. */
  method CreateCreateSameIdentifier(model: GroupInfoModel, stackId: Option<string>, logicalId: Option<string>)
    returns (first: Outcome, second: Outcome, surfaced: Error)
    ensures first == Pass && second == Fail(AlreadyExists)
    ensures surfaced == AlreadyExists
  {
    var db := new Store<ReadOnlyIdentifier, GroupInfoModel>();
    var id := GenerateIdReadOnly(stackId, logicalId);
    first := CreateSessionStep(db, id, CreatedModel(model, id));
    second := CreateSessionStep(db, id, CreatedModel(model, id));
    surfaced := SurfacedError(CreateSession, second.error);
  }

  /** create, list: exactly the created identifier is listed. */
  method CreateList(model: GroupInfoModel, stackId: Option<string>, logicalId: Option<string>)
    returns (ids: set<ReadOnlyIdentifier>)
    ensures ids == {GenerateIdReadOnly(stackId, logicalId)}
  {
    var db := new Store<ReadOnlyIdentifier, GroupInfoModel>();
    var id := GenerateIdReadOnly(stackId, logicalId);
    var _ := CreateSessionStep(db, id, CreatedModel(model, id));
    var listing := db.Open(ListSession, None);
    ids := db.ListIdentifiers();
  }

  /** create, update, then list and read: the identifier is still the only one listed and the read
      returns the updated model. */
  method CreateUpdateListRead(model: GroupInfoModel, updated: GroupInfoModel,
                              stackId: Option<string>, logicalId: Option<string>)
    returns (update: Outcome, ids: set<ReadOnlyIdentifier>, read: Result<GroupInfoModel>)
    ensures update == Pass
    ensures ids == {GenerateIdReadOnly(stackId, logicalId)}
    ensures read == Ok(updated)
  {
    var db := new Store<ReadOnlyIdentifier, GroupInfoModel>();
    var id := GenerateIdReadOnly(stackId, logicalId);
    var _ := CreateSessionStep(db, id, CreatedModel(model, id));
    update := UpdateSessionStep(db, id, updated);
    var listing := db.Open(ListSession, None);
    ids := db.ListIdentifiers();
    read := ReadSessionStep(db, id);
  }

  /** update without create: entering the update session raises NotFound. */
  method UpdateWithoutCreate(model: GroupInfoModel, stackId: Option<string>, logicalId: Option<string>)
    returns (update: Outcome)
    ensures update == Fail(RecordNotFound)
  {
    var db := new Store<ReadOnlyIdentifier, GroupInfoModel>();
    var id := GenerateIdReadOnly(stackId, logicalId);
    update := UpdateSessionStep(db, id, CreatedModel(model, id));
  }

  /** create, delete, then create again under the same identifier: the second create succeeds. */
  method DeleteCreate(model: GroupInfoModel, stackId: Option<string>, logicalId: Option<string>)
    returns (deleted: Outcome, recreated: Outcome, ids: set<ReadOnlyIdentifier>)
    ensures deleted == Pass && recreated == Pass
    ensures ids == {GenerateIdReadOnly(stackId, logicalId)}
  {
    var db := new Store<ReadOnlyIdentifier, GroupInfoModel>();
    var id := GenerateIdReadOnly(stackId, logicalId);
    var _ := CreateSessionStep(db, id, CreatedModel(model, id));
    deleted := DeleteSessionStep(db, id);
    recreated := CreateSessionStep(db, id, CreatedModel(model, id));
    ids := db.ListIdentifiers();
  }

  /** create, delete, then update, read, delete and list: each of the sessions that needs the
      record raises NotFound, and nothing is listed. */
  method AfterDelete(model: GroupInfoModel, stackId: Option<string>, logicalId: Option<string>)
    returns (update: Outcome, read: Result<GroupInfoModel>, secondDelete: Outcome, ids: set<ReadOnlyIdentifier>)
    ensures update == Fail(RecordNotFound)
    ensures read == Err(RecordNotFound)
    ensures secondDelete == Fail(RecordNotFound)
    ensures ids == {}
  {
    var db := new Store<ReadOnlyIdentifier, GroupInfoModel>();
    var id := GenerateIdReadOnly(stackId, logicalId);
    var _ := CreateSessionStep(db, id, CreatedModel(model, id));
    var _ := DeleteSessionStep(db, id);
    update := UpdateSessionStep(db, id, CreatedModel(model, id));
    read := ReadSessionStep(db, id);
    secondDelete := DeleteSessionStep(db, id);
    ids := db.ListIdentifiers();
  }

  /** Entering a create session again for an identifier that has a record, without calling
      set_resource_created, succeeds and keeps the record (re-invocation). */
  method CreateReinvoked(model: GroupInfoModel, stackId: Option<string>, logicalId: Option<string>)
    returns (reentered: Outcome, read: Result<GroupInfoModel>)
    ensures reentered == Pass
    ensures read == Ok(CreatedModel(model, GenerateIdReadOnly(stackId, logicalId)))
  {
    var db := new Store<ReadOnlyIdentifier, GroupInfoModel>();
    var id := GenerateIdReadOnly(stackId, logicalId);
    var _ := CreateSessionStep(db, id, CreatedModel(model, id));
    reentered := db.Open(CreateSession, None);
    read := ReadSessionStep(db, id);
  }

  /** A session of `kind`, opened after a record was created, whose body raises a plain exception:
      create, update, delete and list sessions raise a HandlerInternalFailure in its place, while
      the read session lets it propagate as raised. */
  method SessionWithRandomException(kind: SessionKind, model: GroupInfoModel,
                                    stackId: Option<string>, logicalId: Option<string>)
    returns (surfaced: Error)
    ensures kind != ReadSession ==> surfaced == SessionInternalFailure(GenericException("Random Exception"))
    ensures kind == ReadSession ==> surfaced == GenericException("Random Exception")
  {
    var db := new Store<ReadOnlyIdentifier, GroupInfoModel>();
    var id := GenerateIdReadOnly(stackId, logicalId);
    var _ := CreateSessionStep(db, id, CreatedModel(model, id));
    var raised := GenericException("Random Exception");
    if kind == ReadSession {
      var session := new ResourceRead(db, Some(id), TypeName);
      var entered := session.Enter();
      var suppress := session.Exit(Some(raised));
      assert !suppress;
    } else {
      var entered := db.Open(kind, Some(id));
      assert entered == Pass;
    }
    surfaced := SurfacedError(kind, raised);
  }
}
