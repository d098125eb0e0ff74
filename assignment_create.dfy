/** The create handler of the assignment resource. Its first invocation assigns the group to the
    application once and records the assignment; later invocations wait until Graph has reported
    the assignment five times in a row, then run the read handler. */
module AssignmentCreate {
  import opened Results
  import opened Identifiers
  import opened HandlerBase
  import opened RecordStore
  import opened Stabilization
  import opened AssignmentModels
  import opened AssignmentRead

  /** The arguments of Graph's assign_group_to_app call. */
  datatype AssignGroupCall = AssignGroupCall(appName: string, groupId: string, appRole: string)

  /** The callback-context flag of the once-only create action. */
  const CreateActionFlag := "_create_action1"

  /** The context keys of the creation predicate. */
  const CreationKeys := DebounceKeys("_stabilize_assignment_found_times", "_stabilize_assignment_creation_done")

  /** The application role requested: an empty role name stands for the default role "User". */
  function RoleOrDefault(role: string): (r: string)
    ensures role == "" ==> r == "User"
    ensures role != "" ==> r == role
    ensures r != ""
  {
    if role == "" then "User" else role
  }

  /** The fields the create action asserts are present. */
  predicate CreateFieldsPresent(d: Option<AssignmentModel>)
  {
    d.Some? && d.value.groupId.Some? && d.value.appName.Some? && d.value.appRoleName.Some?
  }

  /** The desired model once the assignment exists: its defaulted role, its assignment id and its
      generated identifier, which names the assignment. */
  function CreatedModel(d: AssignmentModel, stackId: Option<string>, logicalId: Option<string>,
                        assignmentId: string): (m: AssignmentModel)
    requires d.appRoleName.Some?
    ensures m.appRoleName == Some(RoleOrDefault(d.appRoleName.value))
    ensures m.assignmentId == Some(assignmentId)
    ensures m.generatedId == Some(GenerateIdResource(stackId, logicalId, assignmentId))
    ensures NakedIdentifier(m.generatedId.value) == assignmentId
    ensures m.(appRoleName := d.appRoleName, assignmentId := d.assignmentId, generatedId := d.generatedId) == d
  {
    d.(appRoleName := Some(RoleOrDefault(d.appRoleName.value)),
       generatedId := Some(GenerateIdResource(stackId, logicalId, assignmentId)),
       assignmentId := Some(assignmentId))
  }

  /** The creation predicate asserts the request's model, its group id and its application name. */
  predicate CreationInputsPresent(request: Request<AssignmentModel>)
  {
    request.desired.Some? && request.desired.value.groupId.Some? && request.desired.value.appName.Some?
  }

  /** The assignment create handler of one invocation. */
  class CreateHandler {
    var request: Request<AssignmentModel>
    const ctx: CallbackContext<AssignmentModel>
    const store: Store<Identifier, AssignmentModel>
    const typeName: string

    constructor (request: Request<AssignmentModel>, ctx: CallbackContext<AssignmentModel>,
                 store: Store<Identifier, AssignmentModel>, typeName: string)
      ensures this.request == request && this.ctx == ctx && this.store == store && this.typeName == typeName
    {
      this.request := request;
      this.ctx := ctx;
      this.store := store;
      this.typeName := typeName;
    }

    /** _create_action1: assigns the group to the application unless the context says it was
        assigned already. `assignGroup` is Graph's assign_group_to_app and answers the new
        assignment's id; `call` is the assign call made, if any. */
    method CreateAction1(assignGroup: AssignGroupCall -> string) returns (r: Result<bool>, call: Option<AssignGroupCall>)
      modifies this, ctx
      // once-only: with the flag present nothing is called and nothing changes
      ensures CreateActionFlag in old(ctx.entries) ==>
        r == Ok(false) && call.None? && request == old(request) &&
        ctx.entries == old(ctx.entries) && ctx.savedModel == old(ctx.savedModel)
      // a model without its group, application or role is refused and nothing changes
      ensures CreateActionFlag !in old(ctx.entries) && !CreateFieldsPresent(old(request).desired) ==>
        r == Err(AssertionFailed) && call.None? && request == old(request) &&
        ctx.entries == old(ctx.entries) && ctx.savedModel == old(ctx.savedModel)
      // the first call assigns the group with the defaulted role, records the assignment id and
      // generated identifier in the desired model, saves that model and sets the flag
      ensures CreateActionFlag !in old(ctx.entries) && CreateFieldsPresent(old(request).desired) ==>
        var d := old(request).desired.value;
        r == Ok(true) &&
        call == Some(AssignGroupCall(d.appName.value, d.groupId.value, RoleOrDefault(d.appRoleName.value))) &&
        var m := CreatedModel(d, old(request).stackId, old(request).logicalId, assignGroup(call.value));
        request == old(request).(desired := Some(m)) &&
        ctx.savedModel == Some(m) &&
        ctx.entries == old(ctx.entries)[CreateActionFlag := Flag(true)]
    {
      call := None;
      if CreateActionFlag !in ctx.entries {
        if !CreateFieldsPresent(request.desired) {
          return Err(AssertionFailed), None;
        }
        var desired := request.desired.value;
        if desired.appRoleName.value == "" {
          desired := desired.(appRoleName := Some("User"));
          request := request.(desired := Some(desired));
        }
        call := Some(AssignGroupCall(desired.appName.value, desired.groupId.value, desired.appRoleName.value));
        var assignmentId := assignGroup(call.value);
        var generatedId := GenerateIdResource(request.stackId, request.logicalId, assignmentId);
        desired := desired.(generatedId := Some(generatedId), assignmentId := Some(assignmentId));
        request := request.(desired := Some(desired));
        ctx.SaveModel(desired);
        ctx.SetFlag(CreateActionFlag);
        return Ok(true), call;
      } else {
        return Ok(false), None;
      }
    }

    /** Runs one invocation of the handler. `answers` are Graph's successive answers to whether the
        group is assigned to the application, one per call of the creation predicate this invocation
        can afford; `isAssigned` is the same query as the read handler asks it. */
    method Execute(assignGroup: AssignGroupCall -> string, answers: seq<bool>, isAssigned: (string, string) -> bool)
      returns (r: Result<ProgressEvent<AssignmentModel>>, call: Option<AssignGroupCall>)
      requires |answers| > 0
      modifies this, ctx, store
      // the invocation that assigns the group records the assignment and returns without stabilizing
      ensures CreateActionFlag !in old(ctx.entries) && CreateFieldsPresent(old(request).desired) ==>
        var d := old(request).desired.value;
        call == Some(AssignGroupCall(d.appName.value, d.groupId.value, RoleOrDefault(d.appRoleName.value))) &&
        var m := CreatedModel(d, old(request).stackId, old(request).logicalId, assignGroup(call.value));
        var id := m.generatedId.value;
        ctx.savedModel == Some(m) &&
        ctx.entries == old(ctx.entries)[CreateActionFlag := Flag(true)] &&
        (id !in old(store.records) ==>
          r == Ok(InProgress("Assignment created, stabilizing", 4)) && store.records == old(store.records)[id := m]) &&
        (id in old(store.records) ==> r == Err(AlreadyExists) && store.records == old(store.records))
      // a refused create surfaces as a session failure and changes nothing
      ensures CreateActionFlag !in old(ctx.entries) && !CreateFieldsPresent(old(request).desired) ==>
        r == Err(SessionInternalFailure(AssertionFailed)) && call.None? &&
        store.records == old(store.records) && ctx.entries == old(ctx.entries)
      // later invocations only run the creation predicate, then the read handler once it is done
      ensures CreateActionFlag in old(ctx.entries) ==>
        call.None? && request == old(request) && ctx.savedModel == old(ctx.savedModel)
      ensures CreateActionFlag in old(ctx.entries) && CreationKeys.done !in old(ctx.entries) &&
              !CreationInputsPresent(old(request)) ==>
        r == Err(SessionInternalFailure(AssertionFailed)) && store.records == old(store.records)
      ensures CreateActionFlag in old(ctx.entries) && r == Ok(StabilizationInProgress(ctx.savedModel)) ==>
        CreationKeys.done !in ctx.entries && ctx.entries == Feed(old(ctx.entries), CreationKeys, answers) &&
        store.records == old(store.records)
      ensures CreateActionFlag in old(ctx.entries) && (CreationKeys.done in old(ctx.entries) || CreationInputsPresent(old(request))) ==>
        r == Ok(StabilizationInProgress(ctx.savedModel)) ||
        (CreationKeys.done in ctx.entries &&
         (exists n :: 1 <= n <= |answers| && ctx.entries == Feed(old(ctx.entries), CreationKeys, answers[..n])) &&
         r == ReadOutcome(old(store.records), old(request), isAssigned).event &&
         store.records == ReadOutcome(old(store.records), old(request), isAssigned).records)
    {
      var entered := store.Open(CreateSession, None);
      var fired;
      fired, call := CreateAction1(assignGroup);
      if fired.Err? {
        return Err(SurfacedError(CreateSession, fired.error)), None;
      }
      if fired.value {
        var saved := ctx.savedModel.value;
        var id := ValidateIdentifier(saved.generatedId);
        var created := store.SetResourceCreated(id.value, saved);
        if created.Fail? {
          return Err(SurfacedError(CreateSession, created.error)), call;
        }
        return Ok(InProgress("Assignment created, stabilizing", 4)), call;
      }
      var inProgressModel := ctx.savedModel;
      var stable, calls := ctx.RunStabilization(CreationKeys, CreationInputsPresent(request), answers);
      if stable.Err? {
        return Err(SurfacedError(CreateSession, stable.error)), None;
      }
      if !stable.value {
        assert answers[..calls] == answers;
        return Ok(StabilizationInProgress(inProgressModel)), None;
      }
      var reader := new ReadHandler(request, store, typeName);
      r := reader.Execute(isAssigned);
    }
  }
}
