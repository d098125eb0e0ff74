/** The Azure AD group-to-application assignment resource model. */
module AssignmentModels {
  import opened Results
  import opened Identifiers

  /** The assignment resource model. */
  datatype AssignmentModel = AssignmentModel(
    groupId: Option<string>,
    appName: Option<string>,
    appRoleName: Option<string>,
    assignmentId: Option<string>,
    generatedId: Option<Identifier>,
    credentialAppClientId: Option<string>,
    credentialAppAPIToken: Option<string>,
    credentialTenantId: Option<string>)
}
