/** Composite resource identifiers, kept as their components.

    The string codec that joins and splits these components is not part of this model:
    an identifier is the tuple of its components, so a malformed identifier string cannot occur. */
module Identifiers {
  import opened Results

  /** Identifier of a resource backed by an external object (a group, an assignment). */
  datatype Identifier = Identifier(stackId: Option<string>, logicalId: Option<string>, naked: string)

  /** Identifier of a read-only resource: stack and logical id only. */
  datatype ReadOnlyIdentifier = ReadOnlyIdentifier(stackId: Option<string>, logicalId: Option<string>)

  /** The external object's id carried by an identifier (get_naked_resource_identifier_from_string). */
  function NakedIdentifier(id: Identifier): string
  {
    id.naked
  }

  /** generate_id_resource: the identifier of the resource whose external id is `resourceId`. */
  function GenerateIdResource(stackId: Option<string>, logicalId: Option<string>, resourceId: string): (id: Identifier)
    ensures NakedIdentifier(id) == resourceId
    ensures id.stackId == stackId && id.logicalId == logicalId
  {
    Identifier(stackId, logicalId, resourceId)
  }

  /** generate_id_read_only_resource. */
  function GenerateIdReadOnly(stackId: Option<string>, logicalId: Option<string>): ReadOnlyIdentifier
  {
    ReadOnlyIdentifier(stackId, logicalId)
  }
}
