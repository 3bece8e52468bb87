# Dock discovery and Manila share reconciliation

This project models two parts of a software-defined-storage control plane:

1. **Dock and pool discovery** (`pkg/dock/discovery/discovery.go`). A `DockDiscoverer` builds one Dock per
   enabled backend, asks each Dock's driver for its storage pools, stamps every pool with its owning Dock's
   id, and persists all Docks and then all Pools. It keeps two growing lists, `dcks` and `pols`.
2. **The Manila drivers** (`contrib/drivers/filesharedrivers/manila/manila.go` and
   `contrib/drivers/openstack/manila/manila.go`).
   - The drivers create shares and snapshots on an asynchronous backend and then poll the backend.
   - Polling happens every 300 ms and stops when the status leaves `"creating"` or when 10 s have passed.
   - Each returned record carries the backend-native id in its metadata, and the delete calls read it back.
   - The file-share driver reports one synthetic pool and grants access to one principal at a time.

Layout:

| file | module | contents |
|---|---|---|
| `common.dfy` | `Common` | Option, Result, Error, Go-style `(record, error)` replies, and Go's zero-value map lookup |
| `model.dfy` | `Model` | Dock, pool and file-share records |
| `backend.dfy` | `Backend` | the request and reply shapes of the backend SDK |
| `reconcile.dfy` | `Reconcile` | the poll loop (`Poll`) and its specification (`FirstTerminal`, `Settle`) |
| `discovery.dfy` | `Discovery` | the `DockDiscoverer` class and its specifications (`DocksFor`, `Discovered`, `Stored`) |
| `fileshare_manila.dfy` | `FileShareManila` | the file-share Manila driver |
| `openstack_manila.dfy` | `OpenStackManila` | the OpenStack Manila driver |
| `manila_discovery.dfy` | `ManilaDiscovery` | discovery and storage with Manila Docks |

Collaborators become parameters:

- the configuration: the backends map, the enabled list and the dock API endpoint;
- the host name lookup, as a `Result`;
- the version-5 name-based UUID in the OID namespace (section 4.3 of RFC 4122), as a function `oid`;
- each driver's pool listing, keyed by driver name;
- the record validator and the database create calls, keyed by write position;
- the backend's replies. `get(id, k)` is the reply to a Get of backend id `id` on poll tick k + 1.

The snapshot create request is modelled as the source builds it: every field is sent empty, including the share id. So nothing from the caller's snapshot request reaches the backend (`FileShareManila.SnapshotCreateRequestFor`).

The poll is sequential:

- Tick k fires at k × 300 ms, so `MaxTicks` = 33 ticks fire before the 10 s deadline.
- The poll makes at most one pull per tick, and each pull returns before the next tick fires.
- The deadline gives no distinct "timed out" status. When it passes, the returned status is Create's own status, which may still read "creating" (`Reconcile.SettleTimeout`).

## Model

| member | source | states |
|---|---|---|
| `Discovery.DockDiscoverer.constructor` | pkg/dock/discovery/discovery.go:34-45 | a new discoverer starts with no Docks and no Pools |
| `Discovery.DockDiscoverer.Init` | pkg/dock/discovery/discovery.go:47-75 | a failed host lookup returns its error and leaves `dcks` unchanged; otherwise `DocksFor` of the enabled list is appended after the existing Docks and no error is returned |
| `Discovery.DocksForAppend` | pkg/dock/discovery/discovery.go:56-72 | Docks come out in enabled-list order: the Docks of `a + b` are those of `a` followed by those of `b` |
| `Discovery.DocksForEntry` | pkg/dock/discovery/discovery.go:57-71 | an enabled name yields one Dock when its backends-map entry has a non-empty name, and none otherwise; a name missing from the map counts as an empty entry |
| `Discovery.DocksForFields` | pkg/dock/discovery/discovery.go:62-70 | every Dock has a non-empty name and the configured endpoint; its id is `oid(host + ":" + driverName)`; its name, description and driver come from one enabled backend entry; there are no more Docks than enabled entries |
| `Discovery.SharedDriverSharesId` | pkg/dock/discovery/discovery.go:62-65 | two Docks with the same driver on one host get the same id |
| `Discovery.TagPools` | pkg/dock/discovery/discovery.go:95-98 | each returned pool gets the Dock's id as owner; nothing else changes, and count and order are kept |
| `Discovery.DockDiscoverer.StampOwner` | pkg/dock/discovery/discovery.go:95-98 | the in-place tagging loop produces exactly the `TagPools` of the listed pools |
| `Discovery.DockDiscoverer.Discover` | pkg/dock/discovery/discovery.go:77-103 | `pols` becomes its old contents followed by the discovered pools; the error and the number of drivers asked are those of `Discovered` |
| `Discovery.DiscoveredAppend` | pkg/dock/discovery/discovery.go:81-100 | discovering `a + b` discovers `a`, then continues into `b` only if `a` had no error; the pools of `b` follow those of `a`, and pools found before a failure are kept |
| `Discovery.DiscoveredFailFast` | pkg/dock/discovery/discovery.go:81-102 | on error, the last driver asked is the one that failed, every earlier driver succeeded, and no later driver was asked; without an error every driver was asked and succeeded (zero Docks or empty pool lists are no error) |
| `Discovery.DiscoveredOwnership` | pkg/dock/discovery/discovery.go:95-99 | every discovered pool's `dockId` is the id of a Dock whose driver was asked and listed successfully |
| `Discovery.DockDiscoverer.Store` | pkg/dock/discovery/discovery.go:105-137 | the records written and the returned error are `Stored` of all Docks followed by all Pools |
| `Discovery.StoredPrefix` | pkg/dock/discovery/discovery.go:105-136 | the written records are a prefix of the records, in order; each passed validation before its create call; success means everything was written; on failure the first unwritten record is the one whose validation or create failed, and that failure is the returned error |
| `Discovery.StoreDocksBeforePools` | pkg/dock/discovery/discovery.go:108-134 | the k-th write is the k-th Dock while k < number of Docks, and a Pool afterwards, so no Pool is written before every Dock is |
| `Discovery.StoredPoolsHaveOwner` | pkg/dock/discovery/discovery.go:97-134 | when discovered pools are stored, every Pool written is preceded by a written Dock with the Pool's owner id |
| `Reconcile.FirstTerminal` | contrib/drivers/filesharedrivers/manila/manila.go:186-197 | the first pull in a tick range that succeeded with a status other than "creating", or the end of the range when there is none |
| `Reconcile.Poll` | contrib/drivers/filesharedrivers/manila/manila.go:182-205 | the loop of one pull per tick, which skips failures and stops on a terminal status or after the last tick, returns exactly `Settle` |
| `Reconcile.MaxTicksBeforeDeadline` | contrib/drivers/filesharedrivers/manila/manila.go:182-183 | with a 300 ms ticker and a 10 s deadline, exactly 33 ticks fire before the deadline |
| `Reconcile.SettleBounded` | contrib/drivers/filesharedrivers/manila/manila.go:185-204 | the poll makes at least one pull and never more than the tick budget |
| `Reconcile.SettleWithinDeadline` | contrib/drivers/filesharedrivers/manila/manila.go:182-205 | when every Get returns before the next tick, there are at most deadline/interval + 1 pulls, all before the 10 s deadline |
| `Reconcile.SettleEarlyExit` | contrib/drivers/filesharedrivers/manila/manila.go:193-197 | if the first terminal pull is on tick k + 1, the status is that pull's and no later pull happens |
| `Reconcile.SettleTimeout` | contrib/drivers/filesharedrivers/manila/manila.go:198-200 | without a terminal pull, every tick is used and the status stays as Create returned it; no timeout marker is set |
| `Reconcile.SettleStatusOrigin` | contrib/drivers/filesharedrivers/manila/manila.go:193-200 | the final status is either Create's own status or that of the last pull made, which is not "creating" |
| `Reconcile.FailedPullIsSkipped` | contrib/drivers/filesharedrivers/manila/manila.go:189-192 | a failed pull affects the poll exactly as a pull reading "creating" would |
| `Reconcile.ImmediatelyAvailable` | contrib/drivers/filesharedrivers/manila/manila.go:188-197 | a resource already "available" on the first pull settles as "available" after one pull |
| `Reconcile.AlwaysCreating` | contrib/drivers/filesharedrivers/manila/manila.go:182-200 | a resource that always reads "creating" is pulled on all 33 ticks, at most deadline/interval + 1, and keeps Create's status |
| `FileShareManila.ListPools` | contrib/drivers/filesharedrivers/manila/manila.go:127-149 | always succeeds with exactly one pool: name "fakeManilaPoolName", id the name-based UUID of that name, total and free capacity 100, storage type, zone and extras from the pool settings, no owner yet |
| `FileShareManila.PullFileShare` | contrib/drivers/filesharedrivers/manila/manila.go:238-257 | a Get error is passed on; otherwise the record's id is the id asked for, and name, description, size and status are the backend's |
| `FileShareManila.CreateFileShare` | contrib/drivers/filesharedrivers/manila/manila.go:152-223 | a Create error is returned with no pull; otherwise the share is polled by its backend id, and the record has id, name, description, size, zone and pool from the request, the settled status, and metadata exactly {manilaShareID: backend id} |
| `FileShareManila.ShareTicksFollowBackend` | contrib/drivers/filesharedrivers/manila/manila.go:188-197 | a poll tick ends the poll exactly when Get of the backend id succeeds with a status other than "creating", and sees that status |
| `FileShareManila.ShareTimeoutKeepsCreateStatus` | contrib/drivers/filesharedrivers/manila/manila.go:182-216 | when Get never reports a status other than "creating" before the deadline, the share keeps Create's status after 33 pulls |
| `FileShareManila.DeleteFileShare` | contrib/drivers/filesharedrivers/manila/manila.go:226-235 | deletes the backend id read from metadata key "manilaShareID", or "" when the key is absent; returns no record, and the backend's error if there is one |
| `FileShareManila.ShareDeleteRoundTrip` | contrib/drivers/filesharedrivers/manila/manila.go:217-228 | deleting with a created share's metadata targets the backend share id, whatever the control-plane id |
| `FileShareManila.PullFileShareSnapshot` | contrib/drivers/filesharedrivers/manila/manila.go:399-418 | a Get error is passed on; otherwise the record's id is the id asked for, and name, description, size and status are the backend's |
| `FileShareManila.CreateFileShareSnapshot` | contrib/drivers/filesharedrivers/manila/manila.go:321-384 | same poll rules as for shares; the record has id, name, description and size from the request, the settled status, and metadata exactly {manilaSnapId: backend id} |
| `FileShareManila.DeleteFileShareSnapshot` | contrib/drivers/filesharedrivers/manila/manila.go:387-396 | deletes the backend id read from metadata key "manilaSnapId"; returns no record, and the backend's error if there is one |
| `FileShareManila.SnapshotDeleteRoundTrip` | contrib/drivers/filesharedrivers/manila/manila.go:379-389 | deleting with a created snapshot's metadata targets the backend snapshot id |
| `FileShareManila.CreateFileShareAcl` | contrib/drivers/filesharedrivers/manila/manila.go:259-304 | more than one principal gives neither a record nor an error; otherwise a grant error is returned, or a record with the request's id, share id, access type, access capability, principals and description, and metadata exactly {manilaAclId: backend access id} |
| `FileShareManila.DeleteFileShareAcl` | contrib/drivers/filesharedrivers/manila/manila.go:306-318 | revokes, on the request's share, the access id read from metadata key "manilaAclId"; returns no record, and the backend's error if there is one |
| `FileShareManila.AclDeleteRoundTrip` | contrib/drivers/filesharedrivers/manila/manila.go:299-311 | revoking with a created ACL's metadata revokes the backend access rule that was granted |
| `FileShareManila.AclMultiPrincipalSkipsBackend` | contrib/drivers/filesharedrivers/manila/manila.go:266-269 | with more than one principal the outcome does not depend on the grant call, which is never made |
| `FileShareManila.AclPrincipal` | contrib/drivers/filesharedrivers/manila/manila.go:260-279 | the principal sent is the only entry when there is one and "" when there are none; access level "rw"; type from the request |
| `FileShareManila.MultiPrincipalAclReportsNoError` | contrib/drivers/filesharedrivers/manila/manila.go:266-269 | as written, two principals return neither a record nor an error |
| `FileShareManila.CreateFileShareAclChecked` | contrib/drivers/filesharedrivers/manila/manila.go:266-269 | corrected: every reply carries exactly one of a record or an error; more than one principal returns an error; otherwise it agrees with `CreateFileShareAcl` |
| `OpenStackManila.PullFileShare` | contrib/drivers/openstack/manila/manila.go:214-230 | a Get error is passed on; otherwise the record's id is the id asked for, and name, description, size and status are the backend's |
| `OpenStackManila.CreateFileShare` | contrib/drivers/openstack/manila/manila.go:131-211 | the fixed request (size 1) is sent; a Create error is returned with no pull; otherwise the share is polled by its backend id and its record is returned with the settled status |
| `OpenStackManila.RecordFieldsFromCreateReply` | contrib/drivers/openstack/manila/manila.go:200-210 | the record has an empty id; name, description and size come from the Create reply; only the status comes from polling; metadata is exactly {cinderVolumeId: backend id} |
| `OpenStackManila.ShareTimeoutKeepsCreateStatus` | contrib/drivers/openstack/manila/manila.go:175-198 | when Get never reports a status other than "creating" before the deadline, the share keeps Create's status |
| `ManilaDiscovery.ManilaDocksGetOnePoolEach` | pkg/dock/discovery/discovery.go:81-100 | with Manila drivers, discovery cannot fail; the k-th Dock contributes the k-th pool, which the k-th Dock owns; all these pools share the id of "fakeManilaPoolName" |
| `ManilaDiscovery.SingleDemoBackend` | pkg/dock/discovery/discovery.go:47-136 | one enabled backend "demo" with a Manila driver: exactly one Dock and then one Pool are written; the Pool has capacity 100, all free, and is owned by that Dock |

## Left out

- Wall-clock timers, the goroutine, the ticker, the deadline timer and the completion channel. The model polls in one sequential loop over tick indices. It assumes every Get returns before the next tick fires.
- Pulls after the deadline. In the source a Get can still be running when the 10 s timer fires (contrib/drivers/filesharedrivers/manila/manila.go:186-201, contrib/drivers/openstack/manila/manila.go:179-194). When it returns, the expired timer and a buffered tick can both be ready, and Go's `select` picks one at random. So pulls can go on after 10 s, there can be more than 33 of them, and a late terminal status is still copied into the share. The model does not capture this.
- A Get that never returns. The create call waits only on the completion channel (manila.go:205 in the file-share driver, manila.go:198 in the OpenStack driver), so in the source the create call then never returns. The model does not capture this.
- Reconcile.SettleWithinDeadline: "at most 33 pulls, all before the 10 s deadline" holds only under the assumption that every Get returns before the next tick. The same goes for the 33-pull bound of `Reconcile.MaxTicksBeforeDeadline`, `Reconcile.AlwaysCreating` and both `ShareTimeoutKeepsCreateStatus` lemmas.
- Driver `Setup`/`Unset`: configuration-file parsing, password decryption, authentication and SDK client construction. These are I/O and foreign calls.
- The backend SDK calls (Create, Get, Delete, GrantAccess, RevokeAccess). They are function parameters from request to reply.
- The UUID version-5 hash, which is a parameter `oid`. The host name lookup is a `Result` parameter.
- The config globals behind the backends map and enabled list, which are parameters.
- `drivers.Init`/`drivers.Clean`, including the deferred clean-up inside the discovery loop. Pool listing is a function of the driver name.
- `utils.ValidateData` and the database's `CreateDock`/`CreatePool`. They are functions of the record and of its write position.
- `Discovery.DockDiscoverer.Discover`: pools are values, not shared pointers. Stamping `DockId` in place on pool objects the driver might also hold elsewhere, so aliasing, is not captured.
- Logging throughout, including the warning for a Dock with no pools.
- Record fields the core never sets, such as tenant, user, timestamps and export locations.
- The SDK request fields both drivers leave at their defaults.
- The list-query encoder: its source file is not part of this model.
- The HTTP client wrappers, the command-line tool and the REST handlers: thin plumbing outside the modelled core.

## Findings

| source | as written | input that shows it | evidently intended | confidence | as-written member | corrected member |
|---|---|---|---|---|---|---|
| contrib/drivers/filesharedrivers/manila/manila.go:266-269 | a request with more than one principal logs an error but returns `(nil, nil)`, because the named `err` is still nil | `AccessTo = ["10.0.0.1", "10.0.0.2"]` | return an error refusing the request, so the caller does not read a missing record as success | medium, not executed | `FileShareManila.MultiPrincipalAclReportsNoError` | `FileShareManila.CreateFileShareAclChecked` |
