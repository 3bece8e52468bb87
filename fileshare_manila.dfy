/**
 * The Manila file-share driver. Backend calls are parameters:
 *   create / createSnapshot — the backend's reply to a create request,
 *   get / getSnapshot        — `get(id, k)` is the backend's reply to a Get of
 *                              backend id `id` on poll tick k + 1,
 *   grant / revoke / delete   — the replies to the access and delete calls.
 * Backend-native ids travel in the returned records' metadata under fixed
 * keys, and the delete operations read them back from there.
 */
module FileShareManila {
  import opened Common
  import opened Model
  import opened Backend
  import Reconcile

  const KManilaShareID: string := "manilaShareID"
  const KManilaSnapId: string := "manilaSnapId"
  const KManilaShareAclID: string := "manilaAclId"
  /** The name of the single pool this driver reports. */
  const FakePoolName: string := "fakeManilaPoolName"

  datatype CreateFileShareOpts = CreateFileShareOpts(
    id: string,
    name: string,
    description: string,
    size: int,
    availabilityZone: string,
    poolId: string,
    metadata: map<string, string>)

  datatype DeleteFileShareOpts = DeleteFileShareOpts(id: string, metadata: map<string, string>)

  datatype CreateFileShareSnapshotOpts = CreateFileShareSnapshotOpts(
    id: string,
    name: string,
    description: string,
    size: int,
    fileShareId: string)

  datatype DeleteFileShareSnapshotOpts = DeleteFileShareSnapshotOpts(id: string, metadata: map<string, string>)

  datatype CreateFileShareAclOpts = CreateFileShareAclOpts(
    id: string,
    fileShareId: string,
    accessType: string,
    accessCapability: seq<string>,
    accessTo: seq<string>,
    description: string)

  datatype DeleteFileShareAclOpts = DeleteFileShareAclOpts(id: string, fileShareId: string, metadata: map<string, string>)

  /** The driver's pool settings for a pool name; a missing name reads as the zero value. */
  function PoolSettings(pool: map<string, PoolProperties>, name: string): PoolProperties
  {
    if name in pool then pool[name] else PoolProperties("", "", map[])
  }

  /**
   * The backend offers no pool listing, so the driver always reports one
   * synthetic pool of capacity 100, whose id is the name-based UUID of its
   * name; it never fails.
   */
  function ListPools(pool: map<string, PoolProperties>, oid: string -> string): (r: Result<seq<StoragePoolSpec>>)
    ensures r.Success? && |r.value| == 1
    ensures r.value[0].name == FakePoolName && r.value[0].id == oid(FakePoolName)
    ensures r.value[0].totalCapacity == 100 && r.value[0].freeCapacity == 100
    ensures r.value[0].storageType == PoolSettings(pool, FakePoolName).storageType
    ensures r.value[0].availabilityZone == PoolSettings(pool, FakePoolName).availabilityZone
    ensures r.value[0].extras == PoolSettings(pool, FakePoolName).extras
    ensures r.value[0].dockId == ""
  {
    var props := PoolSettings(pool, FakePoolName);
    Success([StoragePoolSpec(oid(FakePoolName), FakePoolName, 100, 100, props.storageType, props.availabilityZone,
                             props.extras, "")])
  }

  /** The create request sent for a share: NFS, share type "dhss_false", the request's size, name, description, metadata. */
  function ShareCreateRequestFor(opt: CreateFileShareOpts): ShareCreateRequest
  {
    ShareCreateRequest("NFS", opt.size, opt.name, opt.description, "dhss_false", "", opt.metadata)
  }

  /** The control-plane record built from a Get reply: keyed by the id asked for, fields from the backend. */
  function PullFileShare(id: string, reply: Result<BackendShare>): (r: Result<FileShareSpec>)
    ensures r.Failure? <==> reply.Failure?
    ensures r.Failure? ==> r.error == reply.error
    ensures r.Success? ==> r.value.id == id && r.value.status == reply.value.status
    ensures r.Success? ==> r.value.name == reply.value.name && r.value.description == reply.value.description
                           && r.value.size == reply.value.size
  {
    match reply
    case Failure(e) => Failure(e)
    case Success(share) => Success(FileShareSpec(id, share.name, share.description, share.size, "", share.status, "", map[]))
  }

  /** The poll ticks of a share: tick k pulls backend id `id`. */
  function ShareTicks(get: (string, nat) -> Result<BackendShare>, id: string): nat -> Reconcile.PullOutcome
  {
    (k: nat) => Reconcile.ShareObservation(PullFileShare(id, get(id, k)))
  }

  /** The share record returned after the poll: request fields, polled status, backend id in metadata. */
  function ShareRecord(opt: CreateFileShareOpts, backendId: string, status: string): FileShareSpec
  {
    FileShareSpec(opt.id, opt.name, opt.description, opt.size, opt.availabilityZone, status, opt.poolId,
                  map[KManilaShareID := backendId])
  }

  /**
   * Creates the share on the backend, polls it until it leaves "creating" or
   * the deadline passes, and returns the record. A create failure is returned
   * without polling. `pulls` is the number of Get calls made.
   */
  method CreateFileShare(opt: CreateFileShareOpts, create: ShareCreateRequest -> Result<BackendShare>,
                         get: (string, nat) -> Result<BackendShare>)
    returns (r: Result<FileShareSpec>, ghost pulls: nat)
    ensures create(ShareCreateRequestFor(opt)).Failure? ==>
              r == Failure(create(ShareCreateRequestFor(opt)).error) && pulls == 0
    ensures create(ShareCreateRequestFor(opt)).Success? ==>
              var share := create(ShareCreateRequestFor(opt)).value;
              var settled := Reconcile.Settle(share.status, ShareTicks(get, share.id), Reconcile.MaxTicks);
              r == Success(ShareRecord(opt, share.id, settled.status)) && pulls == settled.pulls
  {
    var created := create(ShareCreateRequestFor(opt));
    if created.Failure? {
      return Failure(created.error), 0;
    }
    var share := created.value;
    var settled := Reconcile.Poll(share.status, ShareTicks(get, share.id), Reconcile.MaxTicks);
    return Success(ShareRecord(opt, share.id, settled.status)), settled.pulls;
  }

  /** The backend id a share delete targets: the metadata entry, or "" when it is missing. */
  function DeleteFileShare(opt: DeleteFileShareOpts, delete: string -> Option<Error>): (r: Reply<FileShareSpec>)
    ensures r.value.None?
    ensures r.err == delete(Lookup(opt.metadata, KManilaShareID))
  {
    var manilaShareID := Lookup(opt.metadata, KManilaShareID);
    match delete(manilaShareID)
    case Some(e) => Reply(None, Some(e))
    case None => Reply(None, None)
  }

  /** The create request sent for a snapshot: every field is left empty. */
  function SnapshotCreateRequestFor(opt: CreateFileShareSnapshotOpts): SnapshotCreateRequest
  {
    SnapshotCreateRequest("", "", "", "", "")
  }

  function PullFileShareSnapshot(id: string, reply: Result<BackendSnapshot>): (r: Result<FileShareSnapshotSpec>)
    ensures r.Failure? <==> reply.Failure?
    ensures r.Failure? ==> r.error == reply.error
    ensures r.Success? ==> r.value.id == id && r.value.status == reply.value.status
    ensures r.Success? ==> r.value.name == reply.value.name && r.value.description == reply.value.description
                           && r.value.snapshotSize == reply.value.size
  {
    match reply
    case Failure(e) => Failure(e)
    case Success(snap) => Success(FileShareSnapshotSpec(id, snap.name, snap.description, snap.size, snap.status, map[]))
  }

  /** The poll ticks of a snapshot: tick k pulls backend snapshot id `id`. */
  function SnapshotTicks(get: (string, nat) -> Result<BackendSnapshot>, id: string): nat -> Reconcile.PullOutcome
  {
    (k: nat) => Reconcile.SnapshotObservation(PullFileShareSnapshot(id, get(id, k)))
  }

  function SnapshotRecord(opt: CreateFileShareSnapshotOpts, backendId: string, status: string): FileShareSnapshotSpec
  {
    FileShareSnapshotSpec(opt.id, opt.name, opt.description, opt.size, status, map[KManilaSnapId := backendId])
  }

  /** Creates a snapshot and polls it with the same rules as a share. */
  method CreateFileShareSnapshot(opt: CreateFileShareSnapshotOpts, create: SnapshotCreateRequest -> Result<BackendSnapshot>,
                                 get: (string, nat) -> Result<BackendSnapshot>)
    returns (r: Result<FileShareSnapshotSpec>, ghost pulls: nat)
    ensures create(SnapshotCreateRequestFor(opt)).Failure? ==>
              r == Failure(create(SnapshotCreateRequestFor(opt)).error) && pulls == 0
    ensures create(SnapshotCreateRequestFor(opt)).Success? ==>
              var snap := create(SnapshotCreateRequestFor(opt)).value;
              var settled := Reconcile.Settle(snap.status, SnapshotTicks(get, snap.id), Reconcile.MaxTicks);
              r == Success(SnapshotRecord(opt, snap.id, settled.status)) && pulls == settled.pulls
  {
    var created := create(SnapshotCreateRequestFor(opt));
    if created.Failure? {
      return Failure(created.error), 0;
    }
    var snap := created.value;
    var settled := Reconcile.Poll(snap.status, SnapshotTicks(get, snap.id), Reconcile.MaxTicks);
    return Success(SnapshotRecord(opt, snap.id, settled.status)), settled.pulls;
  }

  function DeleteFileShareSnapshot(opt: DeleteFileShareSnapshotOpts, delete: string -> Option<Error>): (r: Reply<FileShareSnapshotSpec>)
    ensures r.value.None?
    ensures r.err == delete(Lookup(opt.metadata, KManilaSnapId))
  {
    var manilaSnapId := Lookup(opt.metadata, KManilaSnapId);
    match delete(manilaSnapId)
    case Some(e) => Reply(None, Some(e))
    case None => Reply(None, None)
  }

  /** The grant request for an ACL: its single principal, or "" when none is given; always read-write. */
  function GrantRequestFor(opt: CreateFileShareAclOpts): GrantAccessRequest
  {
    GrantAccessRequest(opt.accessType, if |opt.accessTo| == 1 then opt.accessTo[0] else "", "rw")
  }

  function AclRecord(opt: CreateFileShareAclOpts, backendId: string): FileShareAclSpec
  {
    FileShareAclSpec(opt.id, opt.fileShareId, opt.accessType, opt.accessCapability, opt.accessTo, opt.description,
                     map[KManilaShareAclID := backendId])
  }

  /**
   * Grants access to one principal. A request naming more than one principal
   * is refused before the backend is called, but with neither a record nor
   * an error.
   */
  function CreateFileShareAcl(opt: CreateFileShareAclOpts, grant: (string, GrantAccessRequest) -> Result<BackendAccess>)
    : (r: Reply<FileShareAclSpec>)
    ensures |opt.accessTo| > 1 ==> r == Reply(None, None)
    ensures r.err.Some? <==> |opt.accessTo| <= 1 && grant(opt.fileShareId, GrantRequestFor(opt)).Failure?
    ensures r.err.Some? ==> r.err.value == grant(opt.fileShareId, GrantRequestFor(opt)).error
    ensures r.value.Some? <==> |opt.accessTo| <= 1 && grant(opt.fileShareId, GrantRequestFor(opt)).Success?
    ensures r.value.Some? ==>
              && r.value.value.id == opt.id
              && r.value.value.fileShareId == opt.fileShareId
              && r.value.value.accessType == opt.accessType
              && r.value.value.accessCapability == opt.accessCapability
              && r.value.value.accessTo == opt.accessTo
              && r.value.value.description == opt.description
              && r.value.value.metadata == map[KManilaShareAclID := grant(opt.fileShareId, GrantRequestFor(opt)).value.id]
  {
    var manilaAccessTo := if |opt.accessTo| == 1 then opt.accessTo[0] else "";
    if |opt.accessTo| > 1 then Reply(None, None)
    else
      match grant(opt.fileShareId, GrantAccessRequest(opt.accessType, manilaAccessTo, "rw"))
      case Failure(e) => Reply(None, Some(e))
      case Success(acl) => Reply(Some(AclRecord(opt, acl.id)), None)
  }

  function DeleteFileShareAcl(opt: DeleteFileShareAclOpts, revoke: (string, string) -> Option<Error>): (r: Reply<FileShareAclSpec>)
    ensures r.value.None?
    ensures r.err == revoke(opt.fileShareId, Lookup(opt.metadata, KManilaShareAclID))
  {
    match revoke(opt.fileShareId, Lookup(opt.metadata, KManilaShareAclID))
    case Some(e) => Reply(None, Some(e))
    case None => Reply(None, None)
  }

  /** A share's poll is keyed by its backend id: tick k ends the poll exactly when Get of that id succeeds with a status other than "creating". */
  lemma ShareTicksFollowBackend(get: (string, nat) -> Result<BackendShare>, id: string, k: nat)
    ensures Reconcile.Terminal(ShareTicks(get, id)(k))
            <==> get(id, k).Success? && get(id, k).value.status != Reconcile.Creating
    ensures get(id, k).Success? ==> ShareTicks(get, id)(k) == Reconcile.Observed(get(id, k).value.status)
  {
  }

  /** If no Get of the share succeeds with a status other than "creating" before the deadline, the share keeps the status Create returned. */
  lemma ShareTimeoutKeepsCreateStatus(share: BackendShare, get: (string, nat) -> Result<BackendShare>)
    requires forall k :: 0 <= k < Reconcile.MaxTicks ==>
               get(share.id, k).Failure? || get(share.id, k).value.status == Reconcile.Creating
    ensures Reconcile.Settle(share.status, ShareTicks(get, share.id), Reconcile.MaxTicks)
            == Reconcile.Settlement(share.status, Reconcile.MaxTicks)
  {
    forall j | 0 <= j < Reconcile.MaxTicks
      ensures !Reconcile.Terminal(ShareTicks(get, share.id)(j))
    {
      ShareTicksFollowBackend(get, share.id, j);
    }
    Reconcile.SettleTimeout(share.status, ShareTicks(get, share.id), Reconcile.MaxTicks);
  }

  /** Deleting a share this driver created targets the backend share it was given, whatever the control-plane id. */
  lemma ShareDeleteRoundTrip(opt: CreateFileShareOpts, backendId: string, status: string, anyId: string,
                             delete: string -> Option<Error>)
    ensures DeleteFileShare(DeleteFileShareOpts(anyId, ShareRecord(opt, backendId, status).metadata), delete)
            == Reply(None, delete(backendId))
  {
  }

  /** Deleting a snapshot this driver created targets the backend snapshot it was given. */
  lemma SnapshotDeleteRoundTrip(opt: CreateFileShareSnapshotOpts, backendId: string, status: string, anyId: string,
                                delete: string -> Option<Error>)
    ensures DeleteFileShareSnapshot(DeleteFileShareSnapshotOpts(anyId, SnapshotRecord(opt, backendId, status).metadata), delete)
            == Reply(None, delete(backendId))
  {
  }

  /** Revoking an ACL this driver granted revokes the backend access rule it was given, on the same share. */
  lemma AclDeleteRoundTrip(opt: CreateFileShareAclOpts, grant: (string, GrantAccessRequest) -> Result<BackendAccess>,
                           anyId: string, revoke: (string, string) -> Option<Error>)
    requires CreateFileShareAcl(opt, grant).value.Some?
    ensures var acl := CreateFileShareAcl(opt, grant).value.value;
      DeleteFileShareAcl(DeleteFileShareAclOpts(anyId, opt.fileShareId, acl.metadata), revoke)
      == Reply(None, revoke(opt.fileShareId, grant(opt.fileShareId, GrantRequestFor(opt)).value.id))
  {
  }

  /** A request with more than one principal never reaches the backend: the outcome does not depend on the grant call. */
  lemma AclMultiPrincipalSkipsBackend(opt: CreateFileShareAclOpts, grant1: (string, GrantAccessRequest) -> Result<BackendAccess>,
                                      grant2: (string, GrantAccessRequest) -> Result<BackendAccess>)
    requires |opt.accessTo| > 1
    ensures CreateFileShareAcl(opt, grant1) == CreateFileShareAcl(opt, grant2)
  {
  }

  /** The principal sent to the backend: the only entry when there is one, the empty string when there is none. */
  lemma AclPrincipal(opt: CreateFileShareAclOpts)
    ensures |opt.accessTo| == 1 ==> GrantRequestFor(opt).accessTo == opt.accessTo[0]
    ensures |opt.accessTo| == 0 ==> GrantRequestFor(opt).accessTo == ""
    ensures GrantRequestFor(opt).accessLevel == "rw" && GrantRequestFor(opt).accessType == opt.accessType
  {
  }

  /** Two principals: the driver returns neither a record nor an error, so a caller sees the refusal as success. */
  lemma MultiPrincipalAclReportsNoError(grant: (string, GrantAccessRequest) -> Result<BackendAccess>)
    ensures var opt := CreateFileShareAclOpts("acl-1", "share-1", "ip", ["rw"], ["10.0.0.1", "10.0.0.2"], "");
      var r := CreateFileShareAcl(opt, grant);
      r.value.None? && r.err.None?
  {
  }

  /** The refusal a multi-principal request should carry. */
  const TooManyPrincipals: Error := Error("Manila's access can only specify one at a time")

  /** CreateFileShareAcl with the multi-principal refusal reported as an error. */
  function CreateFileShareAclChecked(opt: CreateFileShareAclOpts, grant: (string, GrantAccessRequest) -> Result<BackendAccess>)
    : (r: Reply<FileShareAclSpec>)
    ensures r.value.Some? != r.err.Some?
    ensures |opt.accessTo| > 1 ==> r == Reply(None, Some(TooManyPrincipals))
    ensures |opt.accessTo| <= 1 ==> r == CreateFileShareAcl(opt, grant)
  {
    if |opt.accessTo| > 1 then Reply(None, Some(TooManyPrincipals)) else CreateFileShareAcl(opt, grant)
  }
}
