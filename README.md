# cf_extension_core handlers and callback-context state machine, in Dafny

cf_extension_core is a Python library for AWS CloudFormation custom resources. A handler is a
Lambda that CloudFormation invokes again and again with an opaque *callback context*, a
string-keyed mapping, until the handler reports success or failure. The library keeps one record
per resource identifier in a key-value table. Handlers open a *session* on that table for create,
read, update, delete or list.

This project models the parts of the system that carry state from one invocation to the next.

- **The once-only actions.** `_create_action1`, `_delete_group` and `_delete_assignment` each
  call Graph at most once. A flag in the callback context guards each of them.
- **The debounce predicates.** Each of the four `_stabilize_*` predicates counts consecutive
  favourable Graph answers under its own counter key. An unfavourable answer resets the counter.
  Once the counter exceeds 4, the predicate sets a sticky *done* key.
- **The session contract of the record table.** Create refuses an identifier that already has a
  record. Read, update and delete need the record. A read session lets every exception through
  unchanged.
- **The handlers that use them.** These are the create, read, update and delete handlers of the
  Azure AD group resource and of the group-to-application assignment resource, and the SSO group
  lookup of the read-only group-info resource.

Each handler whose source updates state in place is a Dafny `class`. Its `Execute` method is
proved against a pure function of the table (`ReadOutcome`, `UpdateOutcome`) or against the trace
function `Stabilization.Feed`. The properties are proved about those functions. The main one is
`DebounceTraces.FeedFresh`: a predicate that starts from an empty context is done after a trace of
answers exactly when the trace holds five consecutive favourable answers. Until then its counter is
the length of the trace's final run of favourable answers, and no other key of the context changes.

Graph, the identity store and the clock are not called. Each outbound call is either a function
parameter (`getGroup`, `createGroup`, `isAssigned`, `listGroups`, ...) or a returned
`call` value that records the arguments a call would receive. The successive answers that the
stabilization runner receives within one invocation are a sequence `answers`. Its length is the
number of predicate calls that the invocation's time budget allows.

Files:
- `results.dfy` holds Option, the library's exceptions, Result and Outcome.
- `identifiers.dfy` holds the composite identifiers.
- `handler_base.dfy` holds the request, the progress events and `validate_identifier`.
- `stabilization.dfy` holds the callback context, the debounce predicate and the runner.
- `debounce_traces.dfy` holds the trace theorems.
- `record_store.dfy` holds the table, its sessions and the read session.
- `group_*.dfy` and `assignment_*.dfy` hold the two resources' handlers.
- `sso_group_info.dfy` holds the SSO group lookup.
- `contract_scenarios.dfy` and `handler_scenarios.dfy` hold the library's integration scenarios and
  the handlers' unit-test scenarios, replayed on new tables and contexts.

## Model

| member | source | states |
|---|---|---|
| Identifiers.GenerateIdResource | example_projects/real_resources/dotmatics_azuread_group/src/dotmatics_azuread_group/create_handler.py:127-134 | the generated identifier carries the stack id, the logical id and the external object's id, and the naked identifier recovers that id |
| HandlerBase.ValidateIdentifier | example_projects/real_resources/dotmatics_azuread_group/src/dotmatics_azuread_group/read_handler.py:47-48 | a missing identifier is refused with InvalidIdentifier; a present one is returned unchanged |
| Stabilization.InitCounter | example_projects/real_resources/dotmatics_azuread_group/src/dotmatics_azuread_group/create_handler.py:143-145 | an absent counter is set to 0; a present counter and every other key are kept |
| Stabilization.Step | example_projects/real_resources/dotmatics_azuread_group/src/dotmatics_azuread_group/create_handler.py:142-171 | the predicate returns True exactly when the done key is present afterwards; done is sticky and then no question is asked; an unfavourable answer sets the counter to 0 and returns False; a favourable one adds 1 and returns True exactly when the new count exceeds 4; no other key changes |
| Stabilization.Negated | example_projects/real_resources/dotmatics_azuread_group/src/dotmatics_azuread_group/delete_handler.py:99-107 | the deletion predicates count the answers "not found", which are the negations of the answers "exists" |
| Stabilization.CallbackContext.SetFlag | example_projects/real_resources/dotmatics_azuread_group/src/dotmatics_azuread_group/create_handler.py:137 | the flag key is set to True and nothing else changes |
| Stabilization.CallbackContext.SaveModel | example_projects/real_resources/dotmatics_azuread_group/src/dotmatics_azuread_group/create_handler.py:136 | the saved model is replaced and the context keys are kept |
| Stabilization.CallbackContext.Predicate | example_projects/real_resources/dotmatics_azuread_group/src/dotmatics_azuread_group/create_handler.py:142-171 | one predicate call updates the context as Step does; before done, missing asserted fields raise AssertionFailed after the counter is initialised |
| Stabilization.CallbackContext.RunStabilization | example_projects/real_resources/dotmatics_azuread_group/src/dotmatics_azuread_group/create_handler.py:67-75 | the runner calls the predicate until it returns True, raises or the budget ends; the context is Feed of the answers used; True exactly when done is recorded; every earlier call returned False; the counter key is always present afterwards |
| DebounceTraces.FeedFresh | example_projects/real_resources/dotmatics_azuread_group/src/dotmatics_azuread_group/create_handler.py:142-171 | from a context without the predicate's keys, done is recorded after a trace exactly when the trace has 5 consecutive favourable answers; the counter is 5 if done and the trailing run otherwise; other keys are untouched |
| DebounceTraces.FeedSticky | example_projects/real_resources/dotmatics_azuread_group/src/dotmatics_azuread_group/create_handler.py:169-171 | once done is recorded, any further answers leave the context as it is, except that the counter is initialised |
| DebounceTraces.CreateTestTraceOutcome | example_projects/real_resources/dotmatics_azuread_group/tests/unit/test_create_handler.py:66-122 | with the answers True, False, True, True, True, True, True the predicate is not done after calls 1 to 6, is done after call 7, and its counter is 5 |
| DebounceTraces.DeleteTestTraceOutcome | example_projects/real_resources/dotmatics_azuread_group/tests/unit/test_delete_handler.py:65-124 | with the existence answers True, False, True, False, False, False, False, False the deletion predicate is not done after calls 1 to 7, is done after call 8, and its counter is 5 |
| RecordStore.SurfacedError | tests/integration/int_tests.py:631-774 | a read session lets every exception through unchanged; other sessions let the handler exceptions through and turn any other exception into a HandlerInternalFailure caused by it |
| RecordStore.Store.Open | tests/integration/int_tests.py:276-628 | entering a create or list session always succeeds, including re-entering create for a recorded identifier; read, update and delete succeed exactly when the identifier has a record, and otherwise fail with RecordNotFound; entering writes nothing |
| RecordStore.Store.SetResourceCreated | tests/integration/int_tests.py:127-164 | a second create under the same identifier fails with AlreadyExists and leaves the table unchanged; otherwise the model is recorded |
| RecordStore.Store.UpdateModel | tests/integration/int_tests.py:196-274 | the record of the identifier is replaced |
| RecordStore.Store.SetResourceDeleted | tests/integration/int_tests.py:306-353 | the record of the identifier is removed and no other record changes |
| RecordStore.Store.ListIdentifiers | tests/integration/int_tests.py:166-194 | exactly the identifiers that have a record are listed |
| RecordStore.ResourceRead.Enter | tests/integration/int_tests.py:355-552 | entering a read session (resource_read.py:52-59, which runs the not-found check) succeeds exactly when the primary identifier has a record, and otherwise fails with RecordNotFound, as the read after delete in the integration tests requires |
| RecordStore.ResourceRead.ReadModel | src/cf_extension_core/resource_read.py:45-50 | a missing primary identifier raises "Primary Identifier cannot be Null"; otherwise the stored model is returned |
| RecordStore.ResourceRead.Exit | src/cf_extension_core/resource_read.py:61-78 | the read session never suppresses the body's exception |
| SsoGroupInfo.FindGroupId | example_projects/read_only_resource/src/dotmatics_sso_groupinfo/common.py:19-36 | missing inputs raise an assertion failure; no match raises NotFound(type name, group name); two or more matches raise HandlerInternalFailure with the group name; exactly one match returns its GroupId |
| ContractScenarios.CreatedModel | tests/integration/int_tests.py:86-91 | the created model carries group id "123" and the generated read-only identifier, and the requested name and store |
| ContractScenarios.CreateSessionStep | tests/integration/int_tests.py:80-92 | a create session records the model unless the identifier has a record, which fails with AlreadyExists |
| ContractScenarios.ReadSessionStep | tests/integration/int_tests.py:94-111 | a read session returns the stored model, or fails with RecordNotFound |
| ContractScenarios.UpdateSessionStep | tests/integration/int_tests.py:276-304 | an update session replaces the record, or fails with RecordNotFound without writing |
| ContractScenarios.DeleteSessionStep | tests/integration/int_tests.py:113-122 | a delete session removes the record, or fails with RecordNotFound without writing |
| ContractScenarios.CreateReadDelete | tests/integration/int_tests.py:71-125 | create, read and delete all succeed, and the read returns the created model with the generated identifier |
| ContractScenarios.CreateCreateSameIdentifier | tests/integration/int_tests.py:127-164 | the second create under one identifier fails with AlreadyExists, which leaves the session unchanged |
| ContractScenarios.CreateList | tests/integration/int_tests.py:166-194 | after a create, the list is exactly the generated identifier |
| ContractScenarios.CreateUpdateListRead | tests/integration/int_tests.py:196-274 | after create and update, the list is still only the generated identifier, and the read returns the updated model |
| ContractScenarios.UpdateWithoutCreate | tests/integration/int_tests.py:276-304 | an update with no record fails with RecordNotFound |
| ContractScenarios.DeleteCreate | tests/integration/int_tests.py:306-353 | after create and delete, a create under the same identifier succeeds again |
| ContractScenarios.AfterDelete | tests/integration/int_tests.py:355-552 | after delete, update, read and a second delete each fail with RecordNotFound, and the list is empty |
| ContractScenarios.CreateReinvoked | tests/integration/int_tests.py:596-628 | re-entering a create session for a recorded identifier succeeds and leaves the record as it was |
| ContractScenarios.SessionWithRandomException | tests/integration/int_tests.py:631-774 | a plain exception raised in a create, update, delete or list session surfaces as a HandlerInternalFailure; in a read session it surfaces as raised |
| GroupRead.Refreshed | example_projects/real_resources/dotmatics_azuread_group/src/dotmatics_azuread_group/read_handler.py:76-83 | the stored record takes Graph's display name, type and id, and every other field, the credentials included, is kept |
| GroupRead.Output | example_projects/real_resources/dotmatics_azuread_group/src/dotmatics_azuread_group/read_handler.py:86-97 | the returned model has no credentials, description or owners, and takes its name, type, id, owner application and generated identifier from the refreshed record |
| GroupRead.ReadOutcome | example_projects/real_resources/dotmatics_azuread_group/src/dotmatics_azuread_group/read_handler.py:45-99 | a read fails exactly when the request, its identifier, the record or the record's own identifier is missing, and then writes nothing; otherwise Graph is asked about the stored identifier's object, and the refreshed record is both persisted and returned without credentials |
| GroupRead.ReadIgnoresRequestedFields | example_projects/real_resources/dotmatics_azuread_group/src/dotmatics_azuread_group/read_handler.py:50-52 | two requests with the same identifier read the same result: nothing but the identifier is taken from the request |
| GroupRead.ReadKeepsStoredCredentials | example_projects/real_resources/dotmatics_azuread_group/src/dotmatics_azuread_group/read_handler.py:76-95 | after a successful read the table keeps the stored credentials, and the returned model has none |
| GroupRead.ReadIdempotent | example_projects/real_resources/dotmatics_azuread_group/src/dotmatics_azuread_group/read_handler.py:76-83 | reading again with the same Graph answers writes nothing new and returns the same event |
| GroupRead.ReadHandler.Execute | example_projects/real_resources/dotmatics_azuread_group/src/dotmatics_azuread_group/read_handler.py:45-99 | the handler returns ReadOutcome's event and leaves ReadOutcome's table |
| GroupUpdate.Pin | example_projects/real_resources/dotmatics_azuread_group/src/dotmatics_azuread_group/update_handler.py:70-74 | tenant, group name, group type and owner application come from the stored record, and every other field comes from the request |
| GroupUpdate.PinIgnoresRequestedCreateOnlyFields | example_projects/real_resources/dotmatics_azuread_group/src/dotmatics_azuread_group/update_handler.py:62-74 | whatever the request says about the create-only fields, the pinned model is the same |
| GroupUpdate.PinIdempotent | example_projects/real_resources/dotmatics_azuread_group/src/dotmatics_azuread_group/update_handler.py:70-74 | pinning twice equals pinning once |
| GroupUpdate.UpdateOutcome | example_projects/real_resources/dotmatics_azuread_group/src/dotmatics_azuread_group/update_handler.py:45-104 | an update succeeds exactly when the record exists, the credentials are accepted and Graph's display name matches the pinned name; a refusal writes nothing and raises RecordNotFound, a wrapped credential failure or a wrapped EnvironmentError naming the group id; an accepted update is the read handler run on the table holding the pinned model |
| GroupUpdate.UpdateRotatesCredentialsOnly | example_projects/real_resources/dotmatics_azuread_group/src/dotmatics_azuread_group/update_handler.py:78-94 | after an accepted update the record has the request's client id and API token, the stored tenant, name and owner application, and Graph's type and id; the returned model has no credentials |
| GroupUpdate.UpdateHandler.Execute | example_projects/real_resources/dotmatics_azuread_group/src/dotmatics_azuread_group/update_handler.py:45-104 | the handler returns UpdateOutcome's event, leaves its table, and pins the request's desired model in place |
| GroupCreate.OwnerFault | example_projects/real_resources/dotmatics_azuread_group/src/dotmatics_azuread_group/create_handler.py:104-113 | an owner without a name or type raises an assertion failure; an owner type other than USER raises NotImplementedError with that type; a named USER passes |
| GroupCreate.ResolveOwners | example_projects/real_resources/dotmatics_azuread_group/src/dotmatics_azuread_group/create_handler.py:101-113 | the owners loop gives the user URL of every owner in order, looked up by name, or the exception of the first owner that fails |
| GroupCreate.CreatedModel | example_projects/real_resources/dotmatics_azuread_group/src/dotmatics_azuread_group/create_handler.py:127-134 | the created model has Graph's new group id and a generated identifier naming it, and is otherwise the desired model |
| GroupCreate.CreateHandler.CreateAction1 | example_projects/real_resources/dotmatics_azuread_group/src/dotmatics_azuread_group/create_handler.py:90-140 | with the flag set, nothing is called or changed; otherwise the call succeeds exactly when the asserted fields are present and every owner is a named user; on success the group is created with the requested fields and owners, and the model with its id and identifier is saved, written back into the request and flagged; a refusal changes nothing |
| GroupCreate.CreateHandler.Execute | example_projects/real_resources/dotmatics_azuread_group/src/dotmatics_azuread_group/create_handler.py:50-88 | the first invocation records the created model and returns in progress with delay 4, or fails with AlreadyExists; a refused create changes nothing and fails with a HandlerInternalFailure caused by the assertion failure, or by the fault of the first owner that is not a named user; later invocations call nothing; they report stabilization in progress with the saved model while the predicate is not done, and once it is done they return the read handler's result |
| GroupDelete.DeleteHandler.DeleteGroup | example_projects/real_resources/dotmatics_azuread_group/src/dotmatics_azuread_group/delete_handler.py:75-89 | with the flag set, nothing is called; otherwise the stored group is deleted by id and name and the flag is set, or, when either is missing, an assertion failure is raised and nothing changes |
| GroupDelete.DeleteHandler.Execute | example_projects/real_resources/dotmatics_azuread_group/src/dotmatics_azuread_group/delete_handler.py:43-73 | a missing request, identifier or record fails before anything changes; the first invocation deletes the stored group, saves the stored model, keeps the record and returns in progress with delay 1; later invocations call nothing and remove the record only once the deletion predicate is done, and until then report the stored model in progress |
| AssignmentRead.Checked | example_projects/real_resources/dotmatics_azuread_group_assignment/src/dotmatics_azuread_groupassignment/read_handler.py:78-80 | the assignment id is cleared when Graph says the group is no longer assigned, and is otherwise unchanged; no other field changes |
| AssignmentRead.Output | example_projects/real_resources/dotmatics_azuread_group_assignment/src/dotmatics_azuread_groupassignment/read_handler.py:84-96 | the returned model has no credentials and copies every other field from the checked record |
| AssignmentRead.ReadOutcome | example_projects/real_resources/dotmatics_azuread_group_assignment/src/dotmatics_azuread_groupassignment/read_handler.py:44-96 | a read fails exactly when the request, identifier or record is missing or the record lacks its application name or group id, and then writes nothing; otherwise the checked record is persisted and returned without credentials |
| AssignmentRead.ReadIdempotent | example_projects/real_resources/dotmatics_azuread_group_assignment/src/dotmatics_azuread_groupassignment/read_handler.py:78-82 | reading again with the same Graph answers writes nothing new and returns the same event |
| AssignmentRead.ReadHandler.Execute | example_projects/real_resources/dotmatics_azuread_group_assignment/src/dotmatics_azuread_groupassignment/read_handler.py:44-96 | the handler returns ReadOutcome's event and leaves ReadOutcome's table |
| AssignmentUpdate.Pin | example_projects/real_resources/dotmatics_azuread_group_assignment/src/dotmatics_azuread_groupassignment/update_handler.py:62-66 | tenant, role, application and group come from the stored record, and every other field comes from the request |
| AssignmentUpdate.UpdateOutcome | example_projects/real_resources/dotmatics_azuread_group_assignment/src/dotmatics_azuread_groupassignment/update_handler.py:45-86 | a refused update (no request, identifier or record, or rejected credentials) writes nothing; an accepted update is the read handler run on the table holding the pinned model |
| AssignmentUpdate.UpdateRotatesCredentialsOnly | example_projects/real_resources/dotmatics_azuread_group_assignment/src/dotmatics_azuread_groupassignment/update_handler.py:62-76 | after an accepted update the record has the request's client id and API token and the stored tenant, role, application and group |
| AssignmentUpdate.UpdateHandler.Execute | example_projects/real_resources/dotmatics_azuread_group_assignment/src/dotmatics_azuread_groupassignment/update_handler.py:45-86 | the handler returns UpdateOutcome's event, leaves its table, and pins the request's desired model in place |
| AssignmentCreate.RoleOrDefault | example_projects/real_resources/dotmatics_azuread_group_assignment/src/dotmatics_azuread_groupassignment/create_handler.py:99-100 | an empty role name becomes "User", and any other name is kept |
| AssignmentCreate.CreatedModel | example_projects/real_resources/dotmatics_azuread_group_assignment/src/dotmatics_azuread_groupassignment/create_handler.py:109-122 | the created model has the defaulted role, Graph's assignment id and a generated identifier naming it, and is otherwise the desired model |
| AssignmentCreate.CreateHandler.CreateAction1 | example_projects/real_resources/dotmatics_azuread_group_assignment/src/dotmatics_azuread_groupassignment/create_handler.py:89-126 | with the flag set, nothing is called or changed; a model without group, application or role raises an assertion failure; otherwise the group is assigned with the defaulted role, and the model is saved, written back into the request and flagged |
| AssignmentCreate.CreateHandler.Execute | example_projects/real_resources/dotmatics_azuread_group_assignment/src/dotmatics_azuread_groupassignment/create_handler.py:48-87 | the first invocation records the assignment and returns in progress with delay 4, or fails with AlreadyExists; later invocations call nothing, report stabilization in progress while the predicate is not done, and then return the read handler's result |
| AssignmentDelete.DeleteHandler.DeleteAssignment | example_projects/real_resources/dotmatics_azuread_group_assignment/src/dotmatics_azuread_groupassignment/delete_handler.py:76-93 | with the flag set, nothing is called; otherwise the stored assignment is removed by group, application and assignment id and the flag is set, or an assertion failure is raised when one of them is missing |
| AssignmentDelete.DeleteHandler.Execute | example_projects/real_resources/dotmatics_azuread_group_assignment/src/dotmatics_azuread_groupassignment/delete_handler.py:43-74 | a missing request, identifier or record fails before anything changes; the first invocation removes the assignment and returns in progress with delay 1; later invocations remove the record only once the deletion predicate is done |
| HandlerScenarios.GroupCreateFirstInvocation | example_projects/real_resources/dotmatics_azuread_group/tests/unit/test_create_handler.py:11-63 | from an empty context the create handler calls Graph's group create with the one USER owner and returns in progress |
| HandlerScenarios.GroupCreateStabilizes | example_projects/real_resources/dotmatics_azuread_group/tests/unit/test_create_handler.py:66-122 | with the flag set and the test's answers, the creation predicate is done with counter 5, and the read handler's result is returned |
| HandlerScenarios.GroupDeleteFirstInvocation | example_projects/real_resources/dotmatics_azuread_group/tests/unit/test_delete_handler.py:12-62 | from an empty context the delete handler calls Graph's group delete and returns in progress |
| HandlerScenarios.GroupDeleteFiresOnce | example_projects/real_resources/dotmatics_azuread_group/src/dotmatics_azuread_group/delete_handler.py:75-89 | a second invocation on the same context does not delete again, and while the group still exists it reports the stored model in progress |
| HandlerScenarios.GroupDeleteStabilizes | example_projects/real_resources/dotmatics_azuread_group/tests/unit/test_delete_handler.py:65-124 | with the flag set and the test's answers, the record is removed, DeleteSuccess is returned and the not-found counter is in the context |
| HandlerScenarios.AssignmentCreateDefaultsRole | example_projects/real_resources/dotmatics_azuread_group_assignment/src/dotmatics_azuread_groupassignment/create_handler.py:99-122 | an empty role name is sent to Graph as "User" and recorded that way, with the returned assignment id |
| HandlerScenarios.AssignmentDeleteStabilizes | example_projects/real_resources/dotmatics_azuread_group_assignment/src/dotmatics_azuread_groupassignment/delete_handler.py:53-74 | with the flag set and five answers of "not assigned" at the end, the record is removed only after stabilization |

## Left out

- Graph, the identity store, DynamoDB, logging, sleeping and the Lambda clock are not executed. Their answers are function parameters or answer sequences, and the outbound calls are returned as `call` values.
- Graph lookup failures are not modelled: user lookup, group create, delete, get and exists, and the assignment queries. Each of these calls is total in the model.
- The timeout tracker and the stabilization runner's own code are not part of this model. The runner is modelled only as "call the one predicate until it returns True or the invocation's budget of calls is used up". The budget is the length of `answers`, at least one call. The in-progress event the runner returns is `StabilizationInProgress`, carrying the model the handler hands it. The assignment delete handler hands it none.
- The identifier codec (`CustomResourceHelpers`) is not part of this model. Identifiers are tuples of their components, so malformed identifier strings cannot occur.
- `BaseHandler` is not part of this model, and neither are the create, update, delete and list session classes. `validate_identifier` is modelled as refusing only a missing identifier. Which exceptions the non-read sessions let through is modelled from the integration tests as the library's NotFound for a missing record (`RecordNotFound` here), AlreadyExists and HandlerInternalFailure.
- `ResourceBase` (resource_base.py) is not part of this model. Its `_not_found_check` and `_db_item_get_model` are used by the read session's `__enter__` (resource_read.py:56) and `read_model` (resource_read.py:50). The model assumes two things of them, taken from the integration tests (int_tests.py:355-552):
  - The check fails with the library's NotFound (`RecordNotFound` here) unless the identifier has a record. A missing identifier also fails the check, so in a handler `read_model`'s own null check (resource_read.py:47-48, modelled in `RecordStore.ResourceRead.ReadModel`) is never reached.
  - The item read returns the stored model.
- `get_model_from_callback` with nothing saved is not modelled. The saved model is an `Option` that is passed through.
- The read handlers call `update_model` inside a read session. The read-session class shown has no such method, so the call is modelled as a write to the table.
- The credential assertions in `Common.generate_api_client` are not modelled, and neither is the construction of the Graph client. The update handlers' credential check is the parameter `credentialsAccepted`.
- The conversion of the group type to `Groups.GroupType` is not modelled: the library is not visible, and the conversion's failure for unknown names with it. The create call carries the type name.
- The group resource's generated model class `ResourceModel` (models.py:42-52) has no `GroupOwnerAppName` field, and its fields have no defaults. Code against that class as given fails in two places:
  - Reading `s.GroupOwnerAppName` raises AttributeError, at read_handler.py:91 and update_handler.py:74.
  - The `ResourceModel(...)` call at read_handler.py:86-97 omits `GroupDescription` and `Owners`, so it raises TypeError.
  - Against that class, every group read that reaches Graph fails. So do every accepted group update and every create that finishes stabilizing, since both end in that read.
  - The model instead follows a model class that has `GroupOwnerAppName` and leaves omitted fields empty. `GroupRead.ReadOutcome`, `GroupUpdate.UpdateOutcome` and `GroupCreate.CreateHandler.Execute` return the success the handlers are written to produce, not those exceptions.
- The integration tests disagree in two places. These models follow the code.
  - In test_create_create_ro_resource (int_tests.py:557-593), a second `set_resource_created` under the same identifier is expected to succeed. test_create_create_same_identifier (int_tests.py:127-164) expects it to fail. The model follows the latter.
  - test_create_read_with_random_exception (int_tests.py:651-684) expects a read session to wrap a plain exception as HandlerInternalFailure. The read session's `__exit__` (resource_read.py:61-78) never suppresses or replaces an exception. The model lets it through unchanged.
- The older copy of the integration tests under int_tests/ is not modelled.
