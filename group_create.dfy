/** The create handler of the Azure AD group resource. Its first invocation creates the group once
    and records it; later invocations wait until Graph has reported the group five times in a
    row, then run the read handler. */
module GroupCreate {
  import opened Results
  import opened Identifiers
  import opened HandlerBase
  import opened RecordStore
  import opened Stabilization
  import opened GroupModels
  import opened GroupRead

  /** An owner in the group create call: the Graph URL of a user object. */
  datatype OwnerRef = UserUrl(userObjectId: string)

  /** The arguments of Graph's group create call. */
  datatype CreateGroupCall = CreateGroupCall(groupName: string, groupType: string, owners: seq<OwnerRef>, description: string)

  /** The callback-context flag of the once-only create action. */
  const CreateActionFlag := "_create_action1"

  /** The context keys of the creation predicate. */
  const CreationKeys := DebounceKeys("_stabilize_group_creation_found_times", "_stabilize_group_creation_done")

  /** The exception the owners loop raises on owner `o`, if any. */
  function OwnerFault(o: Owner): (f: Option<Error>)
    ensures f.None? <==> o.name.Some? && o.ownerType == Some("USER")
    ensures o.name.None? || o.ownerType.None? ==> f == Some(AssertionFailed)
    // an owner type other than USER is refused
    ensures o.name.Some? && o.ownerType.Some? && o.ownerType.value != "USER" ==>
      f == Some(NotImplemented("Cannot support Owner type: " + o.ownerType.value))
  {
    if o.name.None? || o.ownerType.None? then Some(AssertionFailed)
    else if o.ownerType.value == "USER" then None
    else Some(NotImplemented("Cannot support Owner type: " + o.ownerType.value))
  }

  /** `refs` holds, in order, the user URL of each owner, found by its user principal name. */
  predicate ResolvedTo(owners: seq<Owner>, userIdOf: string -> string, refs: seq<OwnerRef>)
  {
    |refs| == |owners| &&
    forall i :: 0 <= i < |owners| ==> owners[i].name.Some? && refs[i] == UserUrl(userIdOf(owners[i].name.value))
  }

  /** The owners loop: the user URL of every owner, or the exception raised on the first owner that
      is not a named user. `userIdOf` is Graph's user lookup by principal name. */
  method ResolveOwners(owners: seq<Owner>, userIdOf: string -> string) returns (r: Result<seq<OwnerRef>>)
    ensures r.Ok? <==> forall i :: 0 <= i < |owners| ==> OwnerFault(owners[i]).None?
    ensures r.Ok? ==> ResolvedTo(owners, userIdOf, r.value)
    ensures r.Err? ==> exists k :: (0 <= k < |owners| && OwnerFault(owners[k]) == Some(r.error) &&
      forall j :: 0 <= j < k ==> OwnerFault(owners[j]).None?)
  {
    var refs: seq<OwnerRef> := [];
    var i := 0;
    while i < |owners|
      invariant 0 <= i <= |owners|
      invariant forall j :: 0 <= j < i ==> OwnerFault(owners[j]).None?
      invariant ResolvedTo(owners[..i], userIdOf, refs)
    {
      var item := owners[i];
      if item.name.None? || item.ownerType.None? {
        assert OwnerFault(owners[i]) == Some(AssertionFailed);
        return Err(AssertionFailed);
      }
      if item.ownerType.value == "USER" {
        var userId := userIdOf(item.name.value);
        refs := refs + [UserUrl(userId)];
      } else {
        assert OwnerFault(owners[i]) == Some(NotImplemented("Cannot support Owner type: " + item.ownerType.value));
        return Err(NotImplemented("Cannot support Owner type: " + item.ownerType.value));
      }
      i := i + 1;
    }
    assert owners[..i] == owners;
    return Ok(refs);
  }

  /** The fields the create action asserts are present. */
  predicate CreateFieldsPresent(d: Option<GroupModel>)
  {
    d.Some? && d.value.owners.Some? && d.value.groupName.Some? && d.value.groupType.Some? && d.value.groupDescription.Some?
  }

  /** The create action can call Graph: the asserted fields are present and every owner is a named user. */
  predicate Creatable(d: Option<GroupModel>)
  {
    CreateFieldsPresent(d) && forall i :: 0 <= i < |d.value.owners.value| ==> OwnerFault(d.value.owners.value[i]).None?
  }

  /** The desired model once the group exists: its group id and its generated identifier, which
      names the group. */
  function CreatedModel(d: GroupModel, stackId: Option<string>, logicalId: Option<string>, groupId: string): (m: GroupModel)
    ensures m.groupId == Some(groupId)
    ensures m.generatedId == Some(GenerateIdResource(stackId, logicalId, groupId))
    ensures NakedIdentifier(m.generatedId.value) == groupId
    ensures m.(groupId := d.groupId, generatedId := d.generatedId) == d
  {
    d.(generatedId := Some(GenerateIdResource(stackId, logicalId, groupId)), groupId := Some(groupId))
  }

  /** The creation predicate asserts the request's model and its group name. */
  predicate CreationInputsPresent(request: Request<GroupModel>)
  {
    request.desired.Some? && request.desired.value.groupName.Some?
  }

  /** The group create handler of one invocation. */
  class CreateHandler {
    var request: Request<GroupModel>
    const ctx: CallbackContext<GroupModel>
    const store: Store<Identifier, GroupModel>
    const typeName: string

    constructor (request: Request<GroupModel>, ctx: CallbackContext<GroupModel>,
                 store: Store<Identifier, GroupModel>, typeName: string)
      ensures this.request == request && this.ctx == ctx && this.store == store && this.typeName == typeName
    {
      this.request := request;
      this.ctx := ctx;
      this.store := store;
      this.typeName := typeName;
    }

    /** _create_action1: creates the group unless the context says it was created already.
        `createGroup` is Graph's group create call and answers the new group's id; `call` is the
        create call made, if any. */
    method CreateAction1(userIdOf: string -> string, createGroup: CreateGroupCall -> string)
      returns (r: Result<bool>, call: Option<CreateGroupCall>)
      modifies this, ctx
      // once-only: with the flag present nothing is called and nothing changes
      ensures CreateActionFlag in old(ctx.entries) ==>
        r == Ok(false) && call.None? && request == old(request) &&
        ctx.entries == old(ctx.entries) && ctx.savedModel == old(ctx.savedModel)
      ensures CreateActionFlag !in old(ctx.entries) ==> (r.Ok? <==> Creatable(old(request).desired))
      // a refused create calls nothing and changes nothing
      ensures r.Err? ==>
        call.None? && request == old(request) && ctx.entries == old(ctx.entries) && ctx.savedModel == old(ctx.savedModel)
      ensures r.Err? && !CreateFieldsPresent(old(request).desired) ==> r.error == AssertionFailed
      ensures r.Err? && CreateFieldsPresent(old(request).desired) ==>
        var owners := old(request).desired.value.owners.value;
        exists k :: (0 <= k < |owners| && OwnerFault(owners[k]) == Some(r.error) &&
          forall j :: 0 <= j < k ==> OwnerFault(owners[j]).None?)
      // the first call creates the group with the requested fields, records its id and generated
      // identifier in the desired model, saves that model and sets the flag
      ensures CreateActionFlag !in old(ctx.entries) && r.Ok? ==>
        var d := old(request).desired.value;
        r.value && call.Some? &&
        call.value.groupName == d.groupName.value && call.value.groupType == d.groupType.value &&
        call.value.description == d.groupDescription.value &&
        ResolvedTo(d.owners.value, userIdOf, call.value.owners) &&
        var m := CreatedModel(d, old(request).stackId, old(request).logicalId, createGroup(call.value));
        request == old(request).(desired := Some(m)) &&
        ctx.savedModel == Some(m) &&
        ctx.entries == old(ctx.entries)[CreateActionFlag := Flag(true)]
    {
      call := None;
      if CreateActionFlag !in ctx.entries {
        if !CreateFieldsPresent(request.desired) {
          return Err(AssertionFailed), None;
        }
        var desired := request.desired.value;
        var owners := ResolveOwners(desired.owners.value, userIdOf);
        if owners.Err? {
          return Err(owners.error), None;
        }
        call := Some(CreateGroupCall(desired.groupName.value, desired.groupType.value, owners.value,
                                     desired.groupDescription.value));
        var groupId := createGroup(call.value);
        var generatedId := GenerateIdResource(request.stackId, request.logicalId, groupId);
        desired := desired.(generatedId := Some(generatedId), groupId := Some(groupId));
        request := request.(desired := Some(desired));
        ctx.SaveModel(desired);
        ctx.SetFlag(CreateActionFlag);
        return Ok(true), call;
      } else {
        return Ok(false), None;
      }
    }

    /** Runs one invocation of the handler. `answers` are Graph's successive answers to whether a
        group with the requested name exists, one per call of the creation predicate this invocation
        can afford; `getGroup` is Graph's get_by_object_id, used by the read handler. */
    method Execute(userIdOf: string -> string, createGroup: CreateGroupCall -> string,
                   answers: seq<bool>, getGroup: string -> GroupInfo)
      returns (r: Result<ProgressEvent<GroupModel>>, call: Option<CreateGroupCall>)
      requires |answers| > 0
      modifies this, ctx, store
      // the invocation that creates the group records it and returns without stabilizing
      ensures CreateActionFlag !in old(ctx.entries) && Creatable(old(request).desired) ==>
        var d := old(request).desired.value;
        call.Some? &&
        call.value.groupName == d.groupName.value && call.value.groupType == d.groupType.value &&
        call.value.description == d.groupDescription.value &&
        ResolvedTo(d.owners.value, userIdOf, call.value.owners) &&
        var m := CreatedModel(d, old(request).stackId, old(request).logicalId, createGroup(call.value));
        var id := m.generatedId.value;
        ctx.savedModel == Some(m) &&
        ctx.entries == old(ctx.entries)[CreateActionFlag := Flag(true)] &&
        (id !in old(store.records) ==>
          r == Ok(InProgress("Group created, stabilizing", 4)) && store.records == old(store.records)[id := m]) &&
        (id in old(store.records) ==> r == Err(AlreadyExists) && store.records == old(store.records))
      // a refused create surfaces as a HandlerInternalFailure caused by the assertion or by the
      // first owner that is not a named user, and changes nothing
      ensures CreateActionFlag !in old(ctx.entries) && !Creatable(old(request).desired) ==>
        r.Err? && call.None? && store.records == old(store.records) && ctx.entries == old(ctx.entries)
      ensures CreateActionFlag !in old(ctx.entries) && !CreateFieldsPresent(old(request).desired) ==>
        r == Err(SessionInternalFailure(AssertionFailed))
      ensures CreateActionFlag !in old(ctx.entries) && CreateFieldsPresent(old(request).desired) &&
              !Creatable(old(request).desired) ==>
        var owners := old(request).desired.value.owners.value;
        exists k :: 0 <= k < |owners| && OwnerFault(owners[k]).Some? &&
          r == Err(SessionInternalFailure(OwnerFault(owners[k]).value)) &&
          forall j :: 0 <= j < k ==> OwnerFault(owners[j]).None?
      // later invocations only run the creation predicate, then the read handler once it is done
      ensures CreateActionFlag in old(ctx.entries) ==>
        call.None? && request == old(request) && ctx.savedModel == old(ctx.savedModel)
      ensures CreateActionFlag in old(ctx.entries) && CreationKeys.done !in old(ctx.entries) ==>
        (!CreationInputsPresent(old(request)) ==> r == Err(SessionInternalFailure(AssertionFailed)) && store.records == old(store.records))
      ensures CreateActionFlag in old(ctx.entries) && r == Ok(StabilizationInProgress(ctx.savedModel)) ==>
        CreationKeys.done !in ctx.entries && ctx.entries == Feed(old(ctx.entries), CreationKeys, answers) &&
        store.records == old(store.records)
      ensures CreateActionFlag in old(ctx.entries) && (CreationKeys.done in old(ctx.entries) || CreationInputsPresent(old(request))) ==>
        r == Ok(StabilizationInProgress(ctx.savedModel)) ||
        (CreationKeys.done in ctx.entries &&
         (exists n :: 1 <= n <= |answers| && ctx.entries == Feed(old(ctx.entries), CreationKeys, answers[..n])) &&
         r == ReadOutcome(old(store.records), old(request), getGroup).event &&
         store.records == ReadOutcome(old(store.records), old(request), getGroup).records)
    {
      var entered := store.Open(CreateSession, None);
      var fired;
      fired, call := CreateAction1(userIdOf, createGroup);
      if fired.Err? {
        return Err(SurfacedError(CreateSession, fired.error)), None;
      }
      if fired.value {
        var saved := ctx.savedModel.value;
        var id := ValidateIdentifier(saved.generatedId);
        var created := store.SetResourceCreated(id.value, saved);
        if created.Fail? {
          return Err(SurfacedError(CreateSession, created.error)), call;
        }
        return Ok(InProgress("Group created, stabilizing", 4)), call;
      }
      var inProgressModel := ctx.savedModel;
      var stable, calls := ctx.RunStabilization(CreationKeys, CreationInputsPresent(request), answers);
      if stable.Err? {
        return Err(SurfacedError(CreateSession, stable.error)), None;
      }
      if !stable.value {
        assert answers[..calls] == answers;
        return Ok(StabilizationInProgress(inProgressModel)), None;
      }
      var reader := new ReadHandler(request, store, typeName);
      r := reader.Execute(getGroup);
    }
  }
}
