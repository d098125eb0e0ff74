/** The delete handler of the Azure AD group resource. Its first invocation deletes the group once;
    later invocations wait until Graph has failed to find the group five times in a row, and only
    then remove the record. */
module GroupDelete {
  import opened Results
  import opened Identifiers
  import opened HandlerBase
  import opened RecordStore
  import opened Stabilization
  import opened GroupModels

  /** The arguments of Graph's group delete call. */
  datatype DeleteGroupCall = DeleteGroupCall(groupId: string, groupName: string)

  /** The callback-context flag of the once-only delete action. */
  const DeleteActionFlag := "_delete_group"

  /** The context keys of the deletion predicate, which counts absences. */
  const DeletionKeys := DebounceKeys("_stabilize_group_deletion_not_found_times", "_stabilize_group_deletion_done")

  /** The group delete handler of one invocation. */
  class DeleteHandler {
    const request: Request<GroupModel>
    const ctx: CallbackContext<GroupModel>
    const store: Store<Identifier, GroupModel>
    const typeName: string
    /** The stored model the invocation works from, once read. */
    var dbModel: Option<GroupModel>

    constructor (request: Request<GroupModel>, ctx: CallbackContext<GroupModel>,
                 store: Store<Identifier, GroupModel>, typeName: string)
      ensures this.request == request && this.ctx == ctx && this.store == store && this.typeName == typeName
      ensures dbModel.None?
    {
      this.request := request;
      this.ctx := ctx;
      this.store := store;
      this.typeName := typeName;
      dbModel := None;
    }

    /** _delete_group: deletes the stored group unless the context says it was deleted already;
        `call` is the delete call made, if any. */
    method DeleteGroup() returns (r: Result<bool>, call: Option<DeleteGroupCall>)
      modifies ctx
      ensures ctx.savedModel == old(ctx.savedModel)
      // once-only: with the flag present nothing is called and nothing changes
      ensures DeleteActionFlag in old(ctx.entries) ==> r == Ok(false) && call.None? && ctx.entries == old(ctx.entries)
      ensures DeleteActionFlag !in old(ctx.entries) ==>
        if dbModel.Some? && dbModel.value.groupName.Some? && dbModel.value.groupId.Some? then
          r == Ok(true) && call == Some(DeleteGroupCall(dbModel.value.groupId.value, dbModel.value.groupName.value)) &&
          ctx.entries == old(ctx.entries)[DeleteActionFlag := Flag(true)]
        else
          r == Err(AssertionFailed) && call.None? && ctx.entries == old(ctx.entries)
    {
      if DeleteActionFlag !in ctx.entries {
        if dbModel.None? || dbModel.value.groupName.None? || dbModel.value.groupId.None? {
          return Err(AssertionFailed), None;
        }
        var ds := dbModel.value;
        call := Some(DeleteGroupCall(ds.groupId.value, ds.groupName.value));
        ctx.SetFlag(DeleteActionFlag);
        return Ok(true), call;
      } else {
        return Ok(false), None;
      }
    }

    /** Runs one invocation of the handler. `answers` are Graph's successive answers to whether a
        group with the stored name still exists, one per call of the deletion predicate this
        invocation can afford. */
    method Execute(answers: seq<bool>) returns (r: Result<ProgressEvent<GroupModel>>, call: Option<DeleteGroupCall>)
      requires |answers| > 0
      modifies this, ctx, store
      // the identifier is checked before the delete session is entered
      ensures request.desired.None? ==> r == Err(AssertionFailed) && unchanged(ctx) && unchanged(store)
      ensures request.desired.Some? && request.desired.value.generatedId.None? ==>
        r == Err(InvalidIdentifier) && unchanged(ctx) && unchanged(store)
      ensures request.desired.Some? && request.desired.value.generatedId.Some? ==>
        var id := request.desired.value.generatedId.value;
        (id !in old(store.records) ==> r == Err(RecordNotFound) && unchanged(ctx) && unchanged(store)) &&
        (id in old(store.records) ==>
          // the model used from here on is the stored one, not the requested one
          var s := old(store.records)[id];
          dbModel == Some(s) &&
          // the invocation that deletes the group saves the stored model and leaves the record
          (DeleteActionFlag !in old(ctx.entries) && s.groupName.Some? && s.groupId.Some? ==>
            r == Ok(InProgress("Group deleted, stabilizing", 1)) &&
            call == Some(DeleteGroupCall(s.groupId.value, s.groupName.value)) &&
            ctx.savedModel == Some(s) && ctx.entries == old(ctx.entries)[DeleteActionFlag := Flag(true)] &&
            store.records == old(store.records)) &&
          (DeleteActionFlag !in old(ctx.entries) && (s.groupName.None? || s.groupId.None?) ==>
            r == Err(SessionInternalFailure(AssertionFailed)) && call.None? && store.records == old(store.records)) &&
          // later invocations remove the record only once the deletion predicate is done
          (DeleteActionFlag in old(ctx.entries) ==>
            call.None? && ctx.savedModel == old(ctx.savedModel) &&
            (DeletionKeys.done !in old(ctx.entries) && s.groupName.None? ==>
              r == Err(SessionInternalFailure(AssertionFailed)) && store.records == old(store.records)) &&
            (DeletionKeys.done in old(ctx.entries) || s.groupName.Some? ==>
              DeletionKeys.counter in ctx.entries &&
              (r == Ok(DeleteSuccess) || r == Ok(StabilizationInProgress(Some(s))))) &&
            (r == Ok(DeleteSuccess) ==>
              DeletionKeys.done in ctx.entries && store.records == old(store.records) - {id} &&
              exists n :: 1 <= n <= |answers| && ctx.entries == Feed(old(ctx.entries), DeletionKeys, Negated(answers)[..n])) &&
            (r == Ok(StabilizationInProgress(Some(s))) ==>
              ctx.entries == Feed(old(ctx.entries), DeletionKeys, Negated(answers)) &&
              DeletionKeys.done !in ctx.entries && store.records == old(store.records))))
    {
      call := None;
      if request.desired.None? {
        return Err(AssertionFailed), None;
      }
      var identifier := ValidateIdentifier(request.desired.value.generatedId);
      if identifier.Err? {
        return Err(identifier.error), None;
      }
      var entered := store.Open(DeleteSession, Some(identifier.value));
      if entered.Fail? {
        return Err(entered.error), None;
      }
      dbModel := Some(store.records[identifier.value]);
      var fired;
      fired, call := DeleteGroup();
      if fired.Err? {
        return Err(SurfacedError(DeleteSession, fired.error)), None;
      }
      if fired.value {
        ctx.SaveModel(dbModel.value);
        return Ok(InProgress("Group deleted, stabilizing", 1)), call;
      }
      var favourable := Negated(answers);
      var stable, calls := ctx.RunStabilization(DeletionKeys, dbModel.value.groupName.Some?, favourable);
      if stable.Err? {
        return Err(SurfacedError(DeleteSession, stable.error)), None;
      }
      if !stable.value {
        assert favourable[..calls] == favourable;
        return Ok(StabilizationInProgress(dbModel)), None;
      }
      store.SetResourceDeleted(identifier.value);
      return Ok(DeleteSuccess), None;
    }
  }
}
