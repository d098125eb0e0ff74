/** Single invocations of the group and assignment handlers on new contexts and tables, with the
    request data and Graph answer sequences of the handlers' unit tests. */
module HandlerScenarios {
  import opened Results
  import opened Identifiers
  import opened HandlerBase
  import opened RecordStore
  import opened Stabilization
  import opened DebounceTraces
  import opened GroupModels
  import opened GroupRead
  import opened GroupCreate
  import opened GroupDelete
  import opened AssignmentModels
  import AssignmentCreate
  import AssignmentDelete

  const TypeName := "Dotmatics::AzureAD::Group"

  /** The group model of a create request in the unit tests. */
  const StandardGroup := GroupModel(Some("Test Group"), Some("SECURITY"), Some("GROUP DESCRIPTION"), None,
                                    Some([Owner(Some("USER"), Some("APP 123"))]),
                                    Some("123"), Some("token"), Some("123432432"), None, None)

  /** The unit tests' create request. */
  const StandardCreateRequest := Request(Some(StandardGroup), Some("stack_name"), Some("test"))

  /** The stored group the delete tests read: the standard group with its group id and identifier. */
  const StoredGroup := StandardGroup.(groupId := Some("1"), generatedId := Some(GenerateIdResource(Some("-"), Some("-"), "123")))

  /** The assignment model of a create request in the unit tests, here with an empty role name. */
  const UnnamedRoleAssignment := AssignmentModel(Some("1234324233"), Some("App name"), Some(""), None, None,
                                                 Some("123"), Some("token"), Some("123432432"))

  /** The first create invocation creates the group with its one user owner, records it and
      returns in progress. */
  method GroupCreateFirstInvocation(userIdOf: string -> string, createGroup: CreateGroupCall -> string,
                                    getGroup: string -> GroupInfo)
    returns (r: Result<ProgressEvent<GroupModel>>, call: Option<CreateGroupCall>, records: map<Identifier, GroupModel>)
    ensures r == Ok(InProgress("Group created, stabilizing", 4))
    ensures call == Some(CreateGroupCall("Test Group", "SECURITY", [UserUrl(userIdOf("APP 123"))], "GROUP DESCRIPTION"))
    ensures records.Keys == {GenerateIdResource(Some("stack_name"), Some("test"), createGroup(call.value))}
  {
    var ctx := new CallbackContext<GroupModel>(map[]);
    var store := new Store<Identifier, GroupModel>();
    var handler := new CreateHandler(StandardCreateRequest, ctx, store, TypeName);
    assert OwnerFault(StandardGroup.owners.value[0]).None?;
    assert Creatable(StandardCreateRequest.desired);
    r, call := handler.Execute(userIdOf, createGroup, [true], getGroup);
    records := store.records;
    assert ResolvedTo(StandardGroup.owners.value, userIdOf, call.value.owners);
    assert call.value.owners == [UserUrl(userIdOf("APP 123"))];
  }

  /** With the create flag set and Graph finding the group on answers 1, 3, 4, 5, 6 and 7, the
      creation predicate is done and the read handler produces the result. */
  method GroupCreateStabilizes(request: Request<GroupModel>, userIdOf: string -> string,
                               createGroup: CreateGroupCall -> string, getGroup: string -> GroupInfo)
    returns (r: Result<ProgressEvent<GroupModel>>, entries: Entries)
    requires CreationInputsPresent(request)
    ensures GroupCreate.CreationKeys.done in entries
    ensures CounterOf(entries, GroupCreate.CreationKeys) == Confirmations
    ensures r == ReadOutcome(map[], request, getGroup).event
  {
    var ctx := new CallbackContext<GroupModel>(map[GroupCreate.CreateActionFlag := Flag(true)]);
    var store := new Store<Identifier, GroupModel>();
    var handler := new CreateHandler(request, ctx, store, TypeName);
    var before := ctx.entries;
    CreateTestTraceOutcome(before, GroupCreate.CreationKeys);
    var call;
    r, call := handler.Execute(userIdOf, createGroup, CreateTestTrace, getGroup);
    entries := ctx.entries;
    // the trace completes the predicate, so the runner does not report it in progress
    assert r != Ok(StabilizationInProgress(ctx.savedModel));
    var n :| 1 <= n <= |CreateTestTrace| && entries == Feed(before, GroupCreate.CreationKeys, CreateTestTrace[..n]);
    // and no shorter prefix completes it, so the runner used the whole trace
    assert n == |CreateTestTrace|;
    assert CreateTestTrace[..n] == CreateTestTrace;
  }

  /** The first delete invocation deletes the stored group by its id and name, keeps the record
      and returns in progress. */
  method GroupDeleteFirstInvocation() returns (r: Result<ProgressEvent<GroupModel>>, call: Option<DeleteGroupCall>,
                                               records: map<Identifier, GroupModel>)
    ensures r == Ok(InProgress("Group deleted, stabilizing", 1))
    ensures call == Some(DeleteGroupCall("1", "Test Group"))
    ensures records == map[StoredGroup.generatedId.value := StoredGroup]
  {
    var ctx := new CallbackContext<GroupModel>(map[]);
    var store := new Store<Identifier, GroupModel>();
    var _ := store.SetResourceCreated(StoredGroup.generatedId.value, StoredGroup);
    var handler := new GroupDelete.DeleteHandler(Request(Some(StoredGroup), Some("stack_name"), Some("test")), ctx, store, TypeName);
    r, call := handler.Execute([true]);
    records := store.records;
  }

  /** The delete action fires once: a second invocation on the same context, while Graph still
      finds the group, calls nothing and reports stabilization in progress with the stored model. */
  method GroupDeleteFiresOnce() returns (first: Option<DeleteGroupCall>, second: Option<DeleteGroupCall>,
                                         r: Result<ProgressEvent<GroupModel>>)
    ensures first.Some? && second.None?
    ensures r == Ok(StabilizationInProgress(Some(StoredGroup)))
  {
    var ctx := new CallbackContext<GroupModel>(map[]);
    var store := new Store<Identifier, GroupModel>();
    var _ := store.SetResourceCreated(StoredGroup.generatedId.value, StoredGroup);
    var request := Request(Some(StoredGroup), Some("stack_name"), Some("test"));
    var handler := new GroupDelete.DeleteHandler(request, ctx, store, TypeName);
    var started;
    started, first := handler.Execute([true]);
    var again := new GroupDelete.DeleteHandler(request, ctx, store, TypeName);
    var before := ctx.entries;
    r, second := again.Execute([true]);
  }

  /** With the delete flag set and Graph missing the group on answers 2 and 4 to 8, the deletion
      predicate is done, the not-found counter is in the context and the record is removed. */
  method GroupDeleteStabilizes() returns (r: Result<ProgressEvent<GroupModel>>, entries: Entries,
                                          records: map<Identifier, GroupModel>)
    ensures r == Ok(DeleteSuccess)
    ensures GroupDelete.DeletionKeys.counter in entries && GroupDelete.DeletionKeys.done in entries
    ensures records == map[]
  {
    var ctx := new CallbackContext<GroupModel>(map[GroupDelete.DeleteActionFlag := Flag(true)]);
    var store := new Store<Identifier, GroupModel>();
    var _ := store.SetResourceCreated(StoredGroup.generatedId.value, StoredGroup);
    var handler := new GroupDelete.DeleteHandler(Request(Some(StoredGroup), Some("stack_name"), Some("test")), ctx, store, TypeName);
    var before := ctx.entries;
    DeleteTestTraceOutcome(before, GroupDelete.DeletionKeys);
    var call;
    r, call := handler.Execute(DeleteTestTrace);
    entries := ctx.entries;
    records := store.records;
  }

  /** The first assignment create invocation requests the default role "User" for an empty role
      name and records the assignment under the id Graph returns. */
  method AssignmentCreateDefaultsRole(assignGroup: AssignmentCreate.AssignGroupCall -> string,
                                      isAssigned: (string, string) -> bool)
    returns (r: Result<ProgressEvent<AssignmentModel>>, call: Option<AssignmentCreate.AssignGroupCall>,
             records: map<Identifier, AssignmentModel>)
    ensures r == Ok(InProgress("Assignment created, stabilizing", 4))
    ensures call == Some(AssignmentCreate.AssignGroupCall("App name", "1234324233", "User"))
    ensures var id := GenerateIdResource(Some("stack_name"), Some("test"), assignGroup(call.value));
      records.Keys == {id} && records[id].appRoleName == Some("User") &&
      records[id].assignmentId == Some(assignGroup(call.value))
  {
    var ctx := new CallbackContext<AssignmentModel>(map[]);
    var store := new Store<Identifier, AssignmentModel>();
    var request := Request(Some(UnnamedRoleAssignment), Some("stack_name"), Some("test"));
    var handler := new AssignmentCreate.CreateHandler(request, ctx, store, TypeName);
    r, call := handler.Execute(assignGroup, [true], isAssigned);
    records := store.records;
  }

  /** With the unassign flag set and Graph answering "assigned, not assigned, assigned" and then
      "not assigned" five times, the record is removed. */
  method AssignmentDeleteStabilizes() returns (r: Result<ProgressEvent<AssignmentModel>>,
                                               records: map<Identifier, AssignmentModel>)
    ensures r == Ok(DeleteSuccess)
    ensures records == map[]
  {
    var stored := UnnamedRoleAssignment.(assignmentId := Some("Test Group ASSIGNMENT"),
                                         generatedId := Some(GenerateIdResource(Some("-"), Some("-"), "Test Group ASSIGNMENT")));
    var ctx := new CallbackContext<AssignmentModel>(map[AssignmentDelete.DeleteActionFlag := Flag(true)]);
    var store := new Store<Identifier, AssignmentModel>();
    var _ := store.SetResourceCreated(stored.generatedId.value, stored);
    var handler := new AssignmentDelete.DeleteHandler(Request(Some(stored), None, None), ctx, store, TypeName);
    var before := ctx.entries;
    DeleteTestTraceOutcome(before, AssignmentDelete.DeletionKeys);
    var call;
    r, call := handler.Execute(DeleteTestTrace);
    records := store.records;
  }
}
