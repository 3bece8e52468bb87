/** The records of the control plane that the core builds and returns. Only the fields the core sets are kept. */
module Model {

  /** One entry of the backends map read from configuration. */
  datatype BackendProperties = BackendProperties(name: string, description: string, driverName: string)

  /** A registered backend endpoint plus the driver used to talk to it. */
  datatype DockSpec = DockSpec(
    id: string,
    name: string,
    description: string,
    driverName: string,
    endpoint: string)

  /** Per-pool settings a driver reads from its own configuration file. */
  datatype PoolProperties = PoolProperties(storageType: string, availabilityZone: string, extras: map<string, string>)

  /** A unit of allocatable capacity reported by a backend; `dockId` is the owning Dock. */
  datatype StoragePoolSpec = StoragePoolSpec(
    id: string,
    name: string,
    totalCapacity: int,
    freeCapacity: int,
    storageType: string,
    availabilityZone: string,
    extras: map<string, string>,
    dockId: string)

  datatype FileShareSpec = FileShareSpec(
    id: string,
    name: string,
    description: string,
    size: int,
    availabilityZone: string,
    status: string,
    poolId: string,
    metadata: map<string, string>)

  datatype FileShareSnapshotSpec = FileShareSnapshotSpec(
    id: string,
    name: string,
    description: string,
    snapshotSize: int,
    status: string,
    metadata: map<string, string>)

  datatype FileShareAclSpec = FileShareAclSpec(
    id: string,
    fileShareId: string,
    accessType: string,
    accessCapability: seq<string>,
    accessTo: seq<string>,
    description: string,
    metadata: map<string, string>)
}
