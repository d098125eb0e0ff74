/** The delete handler of the assignment resource. Its first invocation removes the assignment
    once; later invocations wait until Graph has reported the group unassigned five times in a
    row, and only then remove the record. */
module AssignmentDelete {
  import opened Results
  import opened Identifiers
  import opened HandlerBase
  import opened RecordStore
  import opened Stabilization
  import opened AssignmentModels

  /** The arguments of Graph's unassign_group_to_app call. */
  datatype UnassignCall = UnassignCall(groupId: string, appName: string, assignedToId: string)

  /** The callback-context flag of the once-only delete action. */
  const DeleteActionFlag := "_delete_assignment"

  /** The context keys of the deletion predicate, which counts answers of "not assigned". */
  const DeletionKeys := DebounceKeys("_stabilize_assignment_deletion_not_found_times", "_stabilize_assignment_deletion_done")

  /** The stored fields the delete action and the deletion predicate assert are present. */
  predicate Unassignable(s: AssignmentModel)
  {
    s.assignmentId.Some? && s.groupId.Some? && s.appName.Some?
  }

  /** The assignment delete handler of one invocation. */
  class DeleteHandler {
    const request: Request<AssignmentModel>
    const ctx: CallbackContext<AssignmentModel>
    const store: Store<Identifier, AssignmentModel>
    const typeName: string
    /** The stored model the invocation works from, once read. */
    var dbModel: Option<AssignmentModel>

    constructor (request: Request<AssignmentModel>, ctx: CallbackContext<AssignmentModel>,
                 store: Store<Identifier, AssignmentModel>, typeName: string)
      ensures this.request == request && this.ctx == ctx && this.store == store && this.typeName == typeName
      ensures dbModel.None?
    {
      this.request := request;
      this.ctx := ctx;
      this.store := store;
      this.typeName := typeName;
      dbModel := None;
    }

    /** _delete_assignment: removes the stored assignment unless the context says it was removed
        already; `call` is the unassign call made, if any. */
    method DeleteAssignment() returns (r: Result<bool>, call: Option<UnassignCall>)
      modifies ctx
      ensures ctx.savedModel == old(ctx.savedModel)
      // once-only: with the flag present nothing is called and nothing changes
      ensures DeleteActionFlag in old(ctx.entries) ==> r == Ok(false) && call.None? && ctx.entries == old(ctx.entries)
      ensures DeleteActionFlag !in old(ctx.entries) ==>
        if dbModel.Some? && Unassignable(dbModel.value) then
          r == Ok(true) &&
          call == Some(UnassignCall(dbModel.value.groupId.value, dbModel.value.appName.value, dbModel.value.assignmentId.value)) &&
          ctx.entries == old(ctx.entries)[DeleteActionFlag := Flag(true)]
        else
          r == Err(AssertionFailed) && call.None? && ctx.entries == old(ctx.entries)
    {
      if DeleteActionFlag !in ctx.entries {
        if dbModel.None? || !Unassignable(dbModel.value) {
          return Err(AssertionFailed), None;
        }
        var ds := dbModel.value;
        call := Some(UnassignCall(ds.groupId.value, ds.appName.value, ds.assignmentId.value));
        ctx.SetFlag(DeleteActionFlag);
        return Ok(true), call;
      } else {
        return Ok(false), None;
      }
    }

    /** Runs one invocation of the handler. `answers` are Graph's successive answers to whether the
        group is still assigned to the application, one per call of the deletion predicate this
        invocation can afford. */
    method Execute(answers: seq<bool>) returns (r: Result<ProgressEvent<AssignmentModel>>, call: Option<UnassignCall>)
      requires |answers| > 0
      modifies this, ctx, store
      // the identifier is checked before the delete session is entered
      ensures request.desired.None? ==> r == Err(AssertionFailed) && unchanged(ctx) && unchanged(store)
      ensures request.desired.Some? && request.desired.value.generatedId.None? ==>
        r == Err(InvalidIdentifier) && unchanged(ctx) && unchanged(store)
      ensures request.desired.Some? && request.desired.value.generatedId.Some? ==>
        var id := request.desired.value.generatedId.value;
        (id !in old(store.records) ==> r == Err(RecordNotFound) && unchanged(ctx) && unchanged(store)) &&
        (id in old(store.records) ==>
          // the model used from here on is the stored one, not the requested one
          var s := old(store.records)[id];
          dbModel == Some(s) &&
          // the invocation that removes the assignment saves the stored model and leaves the record
          (DeleteActionFlag !in old(ctx.entries) && Unassignable(s) ==>
            r == Ok(InProgress("Assignment deleted, stabilizing", 1)) &&
            call == Some(UnassignCall(s.groupId.value, s.appName.value, s.assignmentId.value)) &&
            ctx.savedModel == Some(s) && ctx.entries == old(ctx.entries)[DeleteActionFlag := Flag(true)] &&
            store.records == old(store.records)) &&
          (DeleteActionFlag !in old(ctx.entries) && !Unassignable(s) ==>
            r == Err(SessionInternalFailure(AssertionFailed)) && call.None? && store.records == old(store.records)) &&
          // later invocations remove the record only once the deletion predicate is done
          (DeleteActionFlag in old(ctx.entries) ==>
            call.None? && ctx.savedModel == old(ctx.savedModel) &&
            (DeletionKeys.done !in old(ctx.entries) && !Unassignable(s) ==>
              r == Err(SessionInternalFailure(AssertionFailed)) && store.records == old(store.records)) &&
            (DeletionKeys.done in old(ctx.entries) || Unassignable(s) ==>
              DeletionKeys.counter in ctx.entries &&
              (r == Ok(DeleteSuccess) || r == Ok(StabilizationInProgress(None)))) &&
            (r == Ok(DeleteSuccess) ==>
              DeletionKeys.done in ctx.entries && store.records == old(store.records) - {id} &&
              exists n :: 1 <= n <= |answers| && ctx.entries == Feed(old(ctx.entries), DeletionKeys, Negated(answers)[..n])) &&
            // unlike the group delete, no in-progress model is handed to the runner
            (r == Ok(StabilizationInProgress(None)) ==>
              ctx.entries == Feed(old(ctx.entries), DeletionKeys, Negated(answers)) &&
              DeletionKeys.done !in ctx.entries && store.records == old(store.records))))
    {
      call := None;
      if request.desired.None? {
        return Err(AssertionFailed), None;
      }
      var identifier := ValidateIdentifier(request.desired.value.generatedId);
      if identifier.Err? {
        return Err(identifier.error), None;
      }
      var entered := store.Open(DeleteSession, Some(identifier.value));
      if entered.Fail? {
        return Err(entered.error), None;
      }
      dbModel := Some(store.records[identifier.value]);
      var fired;
      fired, call := DeleteAssignment();
      if fired.Err? {
        return Err(SurfacedError(DeleteSession, fired.error)), None;
      }
      if fired.value {
        ctx.SaveModel(dbModel.value);
        return Ok(InProgress("Assignment deleted, stabilizing", 1)), call;
      }
      var unassigned := Negated(answers);
      var stable, calls := ctx.RunStabilization(DeletionKeys, Unassignable(dbModel.value), unassigned);
      if stable.Err? {
        return Err(SurfacedError(DeleteSession, stable.error)), None;
      }
      if !stable.value {
        assert unassigned[..calls] == unassigned;
        return Ok(StabilizationInProgress(None)), None;
      }
      store.SetResourceDeleted(identifier.value);
      return Ok(DeleteSuccess), None;
    }
  }
}
