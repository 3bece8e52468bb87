/**
 * The OpenStack Manila share driver: create a share from a fixed request,
 * poll it, and return a record built from the backend's create reply.
 * Backend calls are parameters as in the file-share driver.
 */
module OpenStackManila {
  import opened Common
  import opened Model
  import opened Backend
  import Reconcile

  /** The metadata key under which the backend share id is recorded. */
  const KManilaShareId: string := "cinderVolumeId"

  /** The fixed create request: size 1, every other field empty. */
  function CreateRequest(): ShareCreateRequest
  {
    ShareCreateRequest("", 1, "", "", "", "", map[])
  }

  /** The control-plane record built from a Get reply: keyed by the id asked for, fields from the backend. */
  function PullFileShare(id: string, reply: Result<BackendShare>): (r: Result<FileShareSpec>)
    ensures r.Failure? <==> reply.Failure?
    ensures r.Failure? ==> r.error == reply.error
    ensures r.Success? ==> r.value.id == id && r.value.status == reply.value.status
    ensures r.Success? ==> r.value.name == reply.value.name && r.value.description == reply.value.description
                           && r.value.size == reply.value.size
  {
    match reply
    case Failure(e) => Failure(e)
    case Success(share) => Success(FileShareSpec(id, share.name, share.description, share.size, "", share.status, "", map[]))
  }

  /** The poll ticks of a share: tick k pulls backend id `id`. */
  function ShareTicks(get: (string, nat) -> Result<BackendShare>, id: string): nat -> Reconcile.PullOutcome
  {
    (k: nat) => Reconcile.ShareObservation(PullFileShare(id, get(id, k)))
  }

  /** The returned record: no control-plane id, name, description and size of the created share, polled status, backend id in metadata. */
  function ShareRecord(share: BackendShare, status: string): FileShareSpec
  {
    FileShareSpec("", share.name, share.description, share.size, "", status, "", map[KManilaShareId := share.id])
  }

  /** Creates a share, polls it until it leaves "creating" or the deadline passes, and returns its record. */
  method CreateFileShare(create: ShareCreateRequest -> Result<BackendShare>, get: (string, nat) -> Result<BackendShare>)
    returns (r: Result<FileShareSpec>, ghost pulls: nat)
    ensures create(CreateRequest()).Failure? ==> r == Failure(create(CreateRequest()).error) && pulls == 0
    ensures create(CreateRequest()).Success? ==>
              var share := create(CreateRequest()).value;
              var settled := Reconcile.Settle(share.status, ShareTicks(get, share.id), Reconcile.MaxTicks);
              r == Success(ShareRecord(share, settled.status)) && pulls == settled.pulls
  {
    var created := create(CreateRequest());
    if created.Failure? {
      return Failure(created.error), 0;
    }
    var share := created.value;
    var settled := Reconcile.Poll(share.status, ShareTicks(get, share.id), Reconcile.MaxTicks);
    return Success(ShareRecord(share, settled.status)), settled.pulls;
  }

  /**
   * Only the status of the returned record comes from polling: name,
   * description and size are those of the create reply, whatever later
   * Get calls report, and the backend id is recorded under "cinderVolumeId".
   */
  lemma RecordFieldsFromCreateReply(share: BackendShare, status: string)
    ensures var rec := ShareRecord(share, status);
      && rec.id == ""
      && rec.name == share.name && rec.description == share.description && rec.size == share.size
      && rec.status == status
      && rec.metadata.Keys == {KManilaShareId} && Lookup(rec.metadata, KManilaShareId) == share.id
  {
  }

  /** A share whose Get keeps failing or reading "creating" keeps the status Create returned. */
  lemma ShareTimeoutKeepsCreateStatus(share: BackendShare, get: (string, nat) -> Result<BackendShare>)
    requires forall k :: 0 <= k < Reconcile.MaxTicks ==>
               get(share.id, k).Failure? || get(share.id, k).value.status == Reconcile.Creating
    ensures Reconcile.Settle(share.status, ShareTicks(get, share.id), Reconcile.MaxTicks)
            == Reconcile.Settlement(share.status, Reconcile.MaxTicks)
  {
    forall j | 0 <= j < Reconcile.MaxTicks
      ensures !Reconcile.Terminal(ShareTicks(get, share.id)(j))
    {
      assert get(share.id, j).Failure? || get(share.id, j).value.status == Reconcile.Creating;
    }
    Reconcile.SettleTimeout(share.status, ShareTicks(get, share.id), Reconcile.MaxTicks);
  }
}
