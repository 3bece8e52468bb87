/**
 * The shapes exchanged with the shared-file-system backend SDK. The SDK calls
 * themselves (Create, Get, Delete, GrantAccess, RevokeAccess) are parameters of
 * the driver operations: functions from the request to the backend's reply.
 */
module Backend {

  /** What the backend reports about a share (Create and Get replies). */
  datatype BackendShare = BackendShare(id: string, name: string, description: string, size: int, status: string)

  /** What the backend reports about a share snapshot (Create and Get replies). */
  datatype BackendSnapshot = BackendSnapshot(id: string, name: string, description: string, size: int, status: string)

  /** What the backend reports about a granted access rule. */
  datatype BackendAccess = BackendAccess(id: string)

  /** The body of a share-create request (the fields the drivers fill in). */
  datatype ShareCreateRequest = ShareCreateRequest(
    shareProto: string,
    size: int,
    name: string,
    description: string,
    shareType: string,
    availabilityZone: string,
    metadata: map<string, string>)

  /** The body of a snapshot-create request. */
  datatype SnapshotCreateRequest = SnapshotCreateRequest(
    shareId: string,
    name: string,
    description: string,
    displayName: string,
    displayDescription: string)

  /** The body of a grant-access request. */
  datatype GrantAccessRequest = GrantAccessRequest(accessType: string, accessTo: string, accessLevel: string)
}
