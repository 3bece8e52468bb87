/** What discovery and storage produce when every Dock is served by the Manila file-share driver. */
module ManilaDiscovery {
  import opened Common
  import opened Model
  import opened Discovery
  import FileShareManila

  /**
   * Every Manila Dock contributes exactly one pool, in Dock order, owned by
   * that Dock; discovery cannot fail. All these pools carry the same pool id.
   */
  lemma {:induction false} ManilaDocksGetOnePoolEach(dcks: seq<DockSpec>, listPools: string -> Result<seq<StoragePoolSpec>>,
                                                     pool: map<string, PoolProperties>, oid: string -> string)
    requires forall n :: listPools(n) == FileShareManila.ListPools(pool, oid)
    ensures Discovered(dcks, listPools).err.None?
    ensures Discovered(dcks, listPools).probed == |dcks|
    ensures |Discovered(dcks, listPools).pools| == |dcks|
    ensures forall k :: 0 <= k < |dcks| ==>
              && Discovered(dcks, listPools).pools[k].dockId == dcks[k].id
              && Discovered(dcks, listPools).pools[k].name == FileShareManila.FakePoolName
              && Discovered(dcks, listPools).pools[k].id == oid(FileShareManila.FakePoolName)
    decreases |dcks|
  {
    if dcks != [] {
      ManilaDocksGetOnePoolEach(dcks[1..], listPools, pool, oid);
      var rest := Discovered(dcks[1..], listPools);
      var tagged := TagPools(FileShareManila.ListPools(pool, oid).value, dcks[0].id);
      assert Discovered(dcks, listPools).pools == tagged + rest.pools;
      forall k | 1 <= k < |dcks|
        ensures Discovered(dcks, listPools).pools[k] == rest.pools[k - 1] && dcks[k] == dcks[1..][k - 1]
      {
      }
    }
  }

  /**
   * One enabled backend "demo" served by the Manila driver, with every
   * validation and create succeeding: exactly one Dock and one Pool are
   * written, the Dock first, and the Pool (capacity 100, all free) is owned
   * by the Dock.
   */
  lemma SingleDemoBackend(host: string, endpoint: string, oid: string -> string, pool: map<string, PoolProperties>,
                          listPools: string -> Result<seq<StoragePoolSpec>>,
                          validate: Record -> Option<Error>, persist: (nat, Record) -> Option<Error>)
    requires forall n :: listPools(n) == FileShareManila.ListPools(pool, oid)
    requires forall r :: validate(r).None?
    requires forall k, r :: persist(k, r).None?
    ensures var dcks := DocksFor(["demo"], map["demo" := BackendProperties("demo", "", "manila")], host, endpoint, oid);
      var pols := Discovered(dcks, listPools).pools;
      var stored := Stored(Records(dcks, pols), 0, validate, persist);
      && |dcks| == 1 && dcks[0].id == oid(host + ":manila")
      && Discovered(dcks, listPools).err.None?
      && |pols| == 1 && pols[0].dockId == dcks[0].id
      && pols[0].totalCapacity == 100 && pols[0].freeCapacity == 100
      && stored.err.None?
      && stored.created == [DockRecord(dcks[0]), PoolRecord(pols[0])]
  {
    var dcks := DocksFor(["demo"], map["demo" := BackendProperties("demo", "", "manila")], host, endpoint, oid);
    assert ["demo"][1..] == [];
    assert host + ":" + "manila" == host + ":manila";
    assert dcks == [NewDock(BackendProperties("demo", "", "manila"), host, endpoint, oid)];
    ManilaDocksGetOnePoolEach(dcks, listPools, pool, oid);
    var pols := Discovered(dcks, listPools).pools;
    var recs := Records(dcks, pols);
    StoredPrefix(recs, 0, validate, persist);
    assert recs == [DockRecord(dcks[0]), PoolRecord(pols[0])];
  }
}
