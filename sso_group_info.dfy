/** The read-only SSO group-info resource: its model and the Identity Store lookup that resolves
    a group name to the one group id it must denote. */
module SsoGroupInfo {
  import opened Results
  import opened Identifiers

  /** The resource model of the read-only group-info resource. */
  datatype GroupInfoModel = GroupInfoModel(
    groupName: Option<string>,
    identityStoreId: Option<string>,
    groupId: Option<string>,
    generatedReadOnlyId: Option<ReadOnlyIdentifier>)

  /** One filter of an Identity Store ListGroups request. */
  datatype Filter = Filter(attributePath: string, attributeValue: string)

  /** An Identity Store ListGroups request. */
  datatype ListGroupsRequest = ListGroupsRequest(identityStoreId: string, filters: seq<Filter>)

  /** A group returned by ListGroups. */
  datatype ListedGroup = ListedGroup(groupId: string)

  /** The lookup find_group_id sends: the groups of the model's identity store whose display name
      is the model's group name. */
  function GroupLookup(identityStoreId: string, groupName: string): ListGroupsRequest
  {
    ListGroupsRequest(identityStoreId, [Filter("DisplayName", groupName)])
  }

  /** find_group_id: the id of the one group whose display name is the model's group name.
      `sessionPresent` says whether the AWS session is present, and `listGroups` is the
      Identity Store's answer to a ListGroups request. */
  function FindGroupId(sessionPresent: bool, model: Option<GroupInfoModel>, typeName: string,
                       listGroups: ListGroupsRequest -> seq<ListedGroup>): (r: Result<string>)
    // the session, the model, its identity store and its group name must all be present
    ensures !sessionPresent || model.None? || model.value.identityStoreId.None? || model.value.groupName.None?
      ==> r == Err(AssertionFailed)
    ensures sessionPresent && model.Some? && model.value.identityStoreId.Some? && model.value.groupName.Some? ==>
      var name := model.value.groupName.value;
      // the one query sent filters the model's identity store on DisplayName equal to the group name
      var found := listGroups(ListGroupsRequest(model.value.identityStoreId.value, [Filter("DisplayName", name)]));
      // no group with that name: NotFound for the type and the group name
      (|found| == 0 <==> r == Err(NotFound(typeName, name))) &&
      // more than one: an internal failure naming the group
      (|found| >= 2 <==> r == Err(InternalFailure("Found more than 1 group for group name: " + name))) &&
      // exactly one: its id
      (|found| == 1 <==> r.Ok?) &&
      (r.Ok? ==> r.value == found[0].groupId)
  {
    if !sessionPresent || model.None? || model.value.identityStoreId.None? || model.value.groupName.None? then
      Err(AssertionFailed)
    else
      var returned := listGroups(GroupLookup(model.value.identityStoreId.value, model.value.groupName.value));
      if |returned| == 0 then
        Err(NotFound(typeName, model.value.groupName.value))
      else if |returned| >= 2 then
        Err(InternalFailure("Found more than 1 group for group name: " + model.value.groupName.value))
      else
        Ok(returned[0].groupId)
  }
}
