/** The Azure AD group resource model and the Graph API answers its handlers read. */
module GroupModels {
  import opened Results
  import opened Identifiers

  /** An owner listed in the group resource. */
  datatype Owner = Owner(ownerType: Option<string>, name: Option<string>)

  /** The group resource model. `groupOwnerAppName` is read by the read and update handlers
      although the generated model class lacks it; it is part of this model. */
  datatype GroupModel = GroupModel(
    groupName: Option<string>,
    groupType: Option<string>,
    groupDescription: Option<string>,
    groupId: Option<string>,
    owners: Option<seq<Owner>>,
    credentialAppClientId: Option<string>,
    credentialAppAPIToken: Option<string>,
    credentialTenantId: Option<string>,
    generatedId: Option<Identifier>,
    groupOwnerAppName: Option<string>)

  /** The fields of a Graph group object the handlers read: displayName, groupTypes and id. */
  datatype GroupInfo = GroupInfo(displayName: string, groupTypes: seq<string>, id: string)

  /** The name of the security group type, the type of a group whose groupTypes list is empty. */
  const SecurityGroupType := "SECURITY"
}
