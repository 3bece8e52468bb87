/**
 * Dock and pool discovery: builds one Dock per enabled backend, asks each
 * Dock's driver for its pools, tags every pool with its owner, and persists
 * all Docks and then all Pools.
 *
 * Collaborators are parameters: the backends map and the enabled list from
 * configuration, the host name lookup (a Result), the name-based UUID
 * function of the OID namespace (`oid`), the driver's pool listing keyed by
 * driver name, the record validator and the database create calls.
 */
module Discovery {
  import opened Common
  import opened Model

  /** A record the store step persists. */
  datatype Record = DockRecord(dock: DockSpec) | PoolRecord(pool: StoragePoolSpec)

  /** The backends-map entry for an enabled name; a missing name reads as the zero entry, whose name is empty. */
  function Resolve(backends: map<string, BackendProperties>, name: string): BackendProperties
  {
    if name in backends then backends[name] else BackendProperties("", "", "")
  }

  /** The Dock built from one backend entry: its id is the name-based UUID of "host:driverName". */
  function NewDock(b: BackendProperties, host: string, endpoint: string, oid: string -> string): DockSpec
  {
    DockSpec(oid(host + ":" + b.driverName), b.name, b.description, b.driverName, endpoint)
  }

  /** The Docks built from the enabled backends, in order, skipping entries with an empty name. */
  function DocksFor(enabled: seq<string>, backends: map<string, BackendProperties>, host: string, endpoint: string,
                    oid: string -> string): seq<DockSpec>
    decreases |enabled|
  {
    if enabled == [] then []
    else
      var b := Resolve(backends, enabled[0]);
      (if b.name == "" then [] else [NewDock(b, host, endpoint, oid)]) + DocksFor(enabled[1..], backends, host, endpoint, oid)
  }

  /** The pools a driver returned, each stamped with the id of the Dock that asked. */
  function TagPools(ps: seq<StoragePoolSpec>, dockId: string): (r: seq<StoragePoolSpec>)
    ensures |r| == |ps|
    ensures forall j :: 0 <= j < |ps| ==> r[j].dockId == dockId && r[j].(dockId := ps[j].dockId) == ps[j]
  {
    seq(|ps|, j requires 0 <= j < |ps| => ps[j].(dockId := dockId))
  }

  /** The effect of one discovery run: pools collected, drivers called, and the error it stopped at. */
  datatype DiscoverRun = DiscoverRun(pools: seq<StoragePoolSpec>, probed: nat, err: Option<Error>)

  /** Discovery over `dcks`: each driver in turn, stopping at the first listing error. */
  function Discovered(dcks: seq<DockSpec>, listPools: string -> Result<seq<StoragePoolSpec>>): DiscoverRun
    decreases |dcks|
  {
    if dcks == [] then DiscoverRun([], 0, None)
    else
      match listPools(dcks[0].driverName)
      case Failure(e) => DiscoverRun([], 1, Some(e))
      case Success(ps) =>
        var rest := Discovered(dcks[1..], listPools);
        DiscoverRun(TagPools(ps, dcks[0].id) + rest.pools, rest.probed + 1, rest.err)
  }

  /** Running discovery on `a` and then on `b`: the second part runs only if the first did not fail. */
  function Then(ra: DiscoverRun, rb: DiscoverRun): DiscoverRun
  {
    if ra.err.Some? then ra else DiscoverRun(ra.pools + rb.pools, ra.probed + rb.probed, rb.err)
  }

  /** All records in the order the store step writes them: every Dock, then every Pool. */
  function Records(dcks: seq<DockSpec>, pols: seq<StoragePoolSpec>): (r: seq<Record>)
    ensures |r| == |dcks| + |pols|
    ensures forall i :: 0 <= i < |dcks| ==> r[i] == DockRecord(dcks[i])
    ensures forall j :: 0 <= j < |pols| ==> r[|dcks| + j] == PoolRecord(pols[j])
  {
    seq(|dcks|, i requires 0 <= i < |dcks| => DockRecord(dcks[i]))
    + seq(|pols|, j requires 0 <= j < |pols| => PoolRecord(pols[j]))
  }

  /** The records written to the database and the error the store step stopped at. */
  datatype StoreResult = StoreResult(created: seq<Record>, err: Option<Error>)

  /**
   * Storing `recs[from..]`: each record is validated and then created; the
   * first validation or create error ends the step. `persist(k, r)` is the
   * database's reply to creating record `r` at position k.
   */
  function Stored(recs: seq<Record>, from: nat, validate: Record -> Option<Error>,
                  persist: (nat, Record) -> Option<Error>): StoreResult
    requires from <= |recs|
    decreases |recs| - from
  {
    if from == |recs| then StoreResult([], None)
    else if validate(recs[from]).Some? then StoreResult([], validate(recs[from]))
    else if persist(from, recs[from]).Some? then StoreResult([], persist(from, recs[from]))
    else
      var rest := Stored(recs, from + 1, validate, persist);
      StoreResult([recs[from]] + rest.created, rest.err)
  }

  /** One step of discovery at position i. */
  lemma DiscoveredAt(dcks: seq<DockSpec>, i: nat, listPools: string -> Result<seq<StoragePoolSpec>>)
    requires i < |dcks|
    ensures Discovered(dcks[i..], listPools)
            == match listPools(dcks[i].driverName)
               case Failure(e) => DiscoverRun([], 1, Some(e))
               case Success(ps) => Then(DiscoverRun(TagPools(ps, dcks[i].id), 1, None), Discovered(dcks[i + 1..], listPools))
  {
    assert dcks[i..][0] == dcks[i] && dcks[i..][1..] == dcks[i + 1..];
  }

  /** Running a successful step after a successful prefix extends the prefix. */
  lemma ThenStep(acc: seq<StoragePoolSpec>, i: nat, tagged: seq<StoragePoolSpec>, rest: DiscoverRun)
    ensures Then(DiscoverRun(acc, i, None), Then(DiscoverRun(tagged, 1, None), rest))
            == Then(DiscoverRun(acc + tagged, i + 1, None), rest)
  {
    assert acc + (tagged + rest.pools) == (acc + tagged) + rest.pools;
  }

  /** One step of the store step at position i. */
  lemma StoredAt(recs: seq<Record>, i: nat, validate: Record -> Option<Error>, persist: (nat, Record) -> Option<Error>)
    requires i < |recs|
    requires validate(recs[i]).None? && persist(i, recs[i]).None?
    ensures Stored(recs, i, validate, persist)
            == var rest := Stored(recs, i + 1, validate, persist); StoreResult([recs[i]] + rest.created, rest.err)
  {
  }

  /** Init keeps the configured order: the Docks of a concatenation are the concatenation of the Docks. */
  lemma {:induction false} DocksForAppend(a: seq<string>, b: seq<string>, backends: map<string, BackendProperties>,
                                          host: string, endpoint: string, oid: string -> string)
    ensures DocksFor(a + b, backends, host, endpoint, oid)
            == DocksFor(a, backends, host, endpoint, oid) + DocksFor(b, backends, host, endpoint, oid)
    decreases |a|
  {
    if a == [] {
      assert a + b == b;
    } else {
      assert (a + b)[0] == a[0] && (a + b)[1..] == a[1..] + b;
      DocksForAppend(a[1..], b, backends, host, endpoint, oid);
    }
  }

  /** Each enabled entry yields exactly one Dock when its resolved name is non-empty and none otherwise. */
  lemma DocksForEntry(v: string, backends: map<string, BackendProperties>, host: string, endpoint: string, oid: string -> string)
    ensures var b := Resolve(backends, v);
      DocksFor([v], backends, host, endpoint, oid) == if b.name == "" then [] else [NewDock(b, host, endpoint, oid)]
    ensures v !in backends ==> DocksFor([v], backends, host, endpoint, oid) == []
  {
  }

  /**
   * Every Dock Init builds has a non-empty name, the configured dock endpoint,
   * the id derived from "host:driverName", and name, description and driver
   * copied from one enabled backend entry.
   */
  lemma {:induction false} DocksForFields(enabled: seq<string>, backends: map<string, BackendProperties>,
                                          host: string, endpoint: string, oid: string -> string)
    ensures var ds := DocksFor(enabled, backends, host, endpoint, oid);
      && |ds| <= |enabled|
      && forall k :: 0 <= k < |ds| ==>
           && ds[k].name != ""
           && ds[k].endpoint == endpoint
           && ds[k].id == oid(host + ":" + ds[k].driverName)
           && exists i :: 0 <= i < |enabled|
                && Resolve(backends, enabled[i]) == BackendProperties(ds[k].name, ds[k].description, ds[k].driverName)
    decreases |enabled|
  {
    if enabled != [] {
      var ds := DocksFor(enabled, backends, host, endpoint, oid);
      var tail := DocksFor(enabled[1..], backends, host, endpoint, oid);
      DocksForFields(enabled[1..], backends, host, endpoint, oid);
      var b := Resolve(backends, enabled[0]);
      var h := if b.name == "" then 0 else 1;
      assert ds == (if b.name == "" then [] else [NewDock(b, host, endpoint, oid)]) + tail;
      forall k | 0 <= k < |ds|
        ensures exists i :: 0 <= i < |enabled|
                  && Resolve(backends, enabled[i]) == BackendProperties(ds[k].name, ds[k].description, ds[k].driverName)
      {
        if k < h {
          assert Resolve(backends, enabled[0]) == BackendProperties(ds[k].name, ds[k].description, ds[k].driverName);
        } else {
          assert ds[k] == tail[k - h];
          var i :| 0 <= i < |enabled[1..]|
                   && Resolve(backends, enabled[1..][i]) == BackendProperties(tail[k - h].name, tail[k - h].description, tail[k - h].driverName);
          assert enabled[1..][i] == enabled[i + 1];
        }
      }
    }
  }

  /** Dock ids depend only on the host and the driver: two Docks of one run with the same driver share an id. */
  lemma SharedDriverSharesId(enabled: seq<string>, backends: map<string, BackendProperties>,
                             host: string, endpoint: string, oid: string -> string)
    ensures var ds := DocksFor(enabled, backends, host, endpoint, oid);
      forall i, j :: 0 <= i < |ds| && 0 <= j < |ds| && ds[i].driverName == ds[j].driverName ==> ds[i].id == ds[j].id
  {
    DocksForFields(enabled, backends, host, endpoint, oid);
  }

  /**
   * Discovery keeps Dock order and fails fast: discovering `a + b` discovers
   * `a`, and continues into `b` only if no driver of `a` failed, appending
   * `b`'s pools after `a`'s. Pools found before a failure are kept.
   */
  lemma {:induction false} DiscoveredAppend(a: seq<DockSpec>, b: seq<DockSpec>, listPools: string -> Result<seq<StoragePoolSpec>>)
    ensures Discovered(a + b, listPools) == Then(Discovered(a, listPools), Discovered(b, listPools))
    decreases |a|
  {
    if a == [] {
      assert a + b == b;
    } else {
      assert (a + b)[0] == a[0] && (a + b)[1..] == a[1..] + b;
      DiscoveredAppend(a[1..], b, listPools);
      match listPools(a[0].driverName)
      case Failure(e) =>
      case Success(ps) =>
        var ra := Discovered(a[1..], listPools);
        var rb := Discovered(b, listPools);
        if ra.err.None? {
          assert TagPools(ps, a[0].id) + (ra.pools + rb.pools) == (TagPools(ps, a[0].id) + ra.pools) + rb.pools;
        }
    }
  }

  /**
   * Discovery returns the first listing error and asks no later driver: the
   * last driver asked is the one that failed and every earlier one
   * succeeded. Without an error every driver was asked and succeeded; in
   * particular an empty Dock list, or Docks reporting no pools, is no error.
   */
  lemma {:induction false} DiscoveredFailFast(dcks: seq<DockSpec>, listPools: string -> Result<seq<StoragePoolSpec>>)
    ensures var run := Discovered(dcks, listPools);
      && run.probed <= |dcks|
      && (run.err.None? ==> run.probed == |dcks|)
      && (run.err.Some? ==> 0 < run.probed && listPools(dcks[run.probed - 1].driverName) == Failure(run.err.value))
      && (forall i :: 0 <= i < run.probed && (run.err.None? || i < run.probed - 1) ==> listPools(dcks[i].driverName).Success?)
    decreases |dcks|
  {
    if dcks != [] {
      DiscoveredFailFast(dcks[1..], listPools);
      match listPools(dcks[0].driverName)
      case Failure(e) =>
      case Success(ps) =>
        var rest := Discovered(dcks[1..], listPools);
        forall i | 1 <= i <= rest.probed
          ensures dcks[i] == dcks[1..][i - 1]
        {
        }
    }
  }

  /** `pool` belongs to one of the first `probed` Docks, whose driver listed its pools successfully. */
  ghost predicate OwnedAmong(pool: StoragePoolSpec, dcks: seq<DockSpec>, probed: nat,
                             listPools: string -> Result<seq<StoragePoolSpec>>)
  {
    exists i :: 0 <= i < |dcks| && i < probed && pool.dockId == dcks[i].id && listPools(dcks[i].driverName).Success?
  }

  /** Every discovered pool carries the id of a Dock whose driver was asked and returned it. */
  lemma {:induction false} DiscoveredOwnership(dcks: seq<DockSpec>, listPools: string -> Result<seq<StoragePoolSpec>>)
    ensures forall j :: 0 <= j < |Discovered(dcks, listPools).pools| ==>
              OwnedAmong(Discovered(dcks, listPools).pools[j], dcks, Discovered(dcks, listPools).probed, listPools)
    decreases |dcks|
  {
    if dcks != [] {
      DiscoveredOwnership(dcks[1..], listPools);
      match listPools(dcks[0].driverName)
      case Failure(e) =>
      case Success(ps) =>
        var run := Discovered(dcks, listPools);
        var rest := Discovered(dcks[1..], listPools);
        var tagged := TagPools(ps, dcks[0].id);
        forall j | 0 <= j < |run.pools|
          ensures OwnedAmong(run.pools[j], dcks, run.probed, listPools)
        {
          if j < |tagged| {
            assert run.pools[j] == tagged[j];
          } else {
            var j' := j - |tagged|;
            assert run.pools[j] == rest.pools[j'];
            assert OwnedAmong(rest.pools[j'], dcks[1..], rest.probed, listPools);
            var i :| 0 <= i < |dcks[1..]| && i < rest.probed
                     && rest.pools[j'].dockId == dcks[1..][i].id && listPools(dcks[1..][i].driverName).Success?;
            assert dcks[1..][i] == dcks[i + 1];
          }
        }
    }
  }

  /**
   * The store step writes a prefix of its records, in order; every written
   * record passed validation and its create call; it succeeds exactly when
   * all records were written; on failure the first unwritten record is the
   * one whose validation or create failed, and nothing after it is written.
   */
  lemma {:induction false} StoredPrefix(recs: seq<Record>, from: nat, validate: Record -> Option<Error>,
                                        persist: (nat, Record) -> Option<Error>)
    requires from <= |recs|
    ensures var r := Stored(recs, from, validate, persist); var n := from + |r.created|;
      && n <= |recs|
      && r.created == recs[from..n]
      && (forall k :: from <= k < n ==> validate(recs[k]).None? && persist(k, recs[k]).None?)
      && (r.err.None? <==> n == |recs|)
      && (r.err.Some? ==> if validate(recs[n]).Some? then r.err == validate(recs[n]) else r.err == persist(n, recs[n]))
    decreases |recs| - from
  {
    if from < |recs| && validate(recs[from]).None? && persist(from, recs[from]).None? {
      StoredPrefix(recs, from + 1, validate, persist);
    }
  }

  /**
   * Every Dock is stored before any Pool: the k-th record written is the k-th
   * Dock while k < |dcks| and the (k - |dcks|)-th Pool afterwards, so a Pool
   * is written only once all Docks have been. Success means all were written.
   */
  lemma StoreDocksBeforePools(dcks: seq<DockSpec>, pols: seq<StoragePoolSpec>, validate: Record -> Option<Error>,
                              persist: (nat, Record) -> Option<Error>)
    ensures var r := Stored(Records(dcks, pols), 0, validate, persist);
      && |r.created| <= |dcks| + |pols|
      && (forall k :: 0 <= k < |r.created| && k < |dcks| ==> r.created[k] == DockRecord(dcks[k]))
      && (forall k :: |dcks| <= k < |r.created| ==> r.created[k] == PoolRecord(pols[k - |dcks|]))
      && (r.err.None? <==> r.created == Records(dcks, pols))
  {
    var recs := Records(dcks, pols);
    StoredPrefix(recs, 0, validate, persist);
    var r := Stored(recs, 0, validate, persist);
    forall k | |dcks| <= k < |r.created|
      ensures r.created[k] == PoolRecord(pols[k - |dcks|])
    {
      assert recs[|dcks| + (k - |dcks|)] == PoolRecord(pols[k - |dcks|]);
    }
  }

  /**
   * Pools are never orphaned: when a fresh discoverer stores what it
   * discovered, each Pool written is preceded by a written Dock whose id is
   * the Pool's owner.
   */
  lemma StoredPoolsHaveOwner(dcks: seq<DockSpec>, listPools: string -> Result<seq<StoragePoolSpec>>,
                             validate: Record -> Option<Error>, persist: (nat, Record) -> Option<Error>)
    ensures var pols := Discovered(dcks, listPools).pools;
      var c := Stored(Records(dcks, pols), 0, validate, persist).created;
      forall j :: 0 <= j < |c| && c[j].PoolRecord? ==>
        exists i :: 0 <= i < j && c[i].DockRecord? && c[i].dock.id == c[j].pool.dockId
  {
    var pols := Discovered(dcks, listPools).pools;
    var c := Stored(Records(dcks, pols), 0, validate, persist).created;
    StoreDocksBeforePools(dcks, pols, validate, persist);
    DiscoveredOwnership(dcks, listPools);
    var probed := Discovered(dcks, listPools).probed;
    assert forall k :: 0 <= k < |pols| ==> OwnedAmong(pols[k], dcks, probed, listPools);
    forall j | 0 <= j < |c| && c[j].PoolRecord?
      ensures exists i :: 0 <= i < j && c[i].DockRecord? && c[i].dock.id == c[j].pool.dockId
    {
      assert |dcks| <= j;
      var p := j - |dcks|;
      assert c[j].pool == pols[p];
      assert OwnedAmong(pols[p], dcks, probed, listPools);
      var i :| 0 <= i < |dcks| && pols[p].dockId == dcks[i].id;
      assert c[i] == DockRecord(dcks[i]);
    }
  }

  class DockDiscoverer {
    var dcks: seq<DockSpec>
    var pols: seq<StoragePoolSpec>

    constructor ()
      ensures dcks == [] && pols == []
    {
      dcks := [];
      pols := [];
    }

    /** Appends one Dock per enabled backend with a non-empty name; fails, changing nothing, if the host name is unavailable. */
    method Init(backends: map<string, BackendProperties>, enabledBackends: seq<string>, host: Result<string>,
                apiEndpoint: string, oid: string -> string) returns (err: Option<Error>)
      modifies this`dcks
      ensures host.Failure? ==> err == Some(host.error) && dcks == old(dcks)
      ensures host.Success? ==> err.None? && dcks == old(dcks) + DocksFor(enabledBackends, backends, host.value, apiEndpoint, oid)
    {
      if host.Failure? {
        return Some(host.error);
      }
      var i := 0;
      while i < |enabledBackends|
        invariant 0 <= i <= |enabledBackends|
        invariant old(dcks) + DocksFor(enabledBackends, backends, host.value, apiEndpoint, oid)
                  == dcks + DocksFor(enabledBackends[i..], backends, host.value, apiEndpoint, oid)
      {
        var rest := enabledBackends[i..];
        assert rest[0] == enabledBackends[i] && rest[1..] == enabledBackends[i + 1..];
        var b := Resolve(backends, enabledBackends[i]);
        i := i + 1;
        if b.name == "" {
          continue;
        }
        dcks := dcks + [NewDock(b, host.value, apiEndpoint, oid)];
      }
      assert enabledBackends[i..] == [];
      return None;
    }

    /**
     * Asks each Dock's driver for its pools, stamps them with the Dock's id and
     * appends them; stops at the first listing error. `probed` counts the
     * drivers asked.
     */
    method Discover(listPools: string -> Result<seq<StoragePoolSpec>>) returns (err: Option<Error>, ghost probed: nat)
      modifies this`pols
      ensures pols == old(pols) + Discovered(dcks, listPools).pools
      ensures err == Discovered(dcks, listPools).err
      ensures probed == Discovered(dcks, listPools).probed
    {
      ghost var acc: seq<StoragePoolSpec> := [];
      var i := 0;
      while i < |dcks|
        invariant 0 <= i <= |dcks|
        invariant pols == old(pols) + acc
        invariant Discovered(dcks, listPools)
                  == Then(DiscoverRun(acc, i, None), Discovered(dcks[i..], listPools))
      {
        var dck := dcks[i];
        DiscoveredAt(dcks, i, listPools);
        var listed := listPools(dck.driverName);
        if listed.Failure? {
          return Some(listed.error), i + 1;
        }
        var ps := StampOwner(listed.value, dck.id);
        ThenStep(acc, i, ps, Discovered(dcks[i + 1..], listPools));
        pols := pols + ps;
        acc := acc + ps;
        i := i + 1;
      }
      assert dcks[i..] == [];
      return None, i;
    }

    /** The inner loop of discovery: sets every returned pool's owner to the asking Dock. */
    static method StampOwner(listed: seq<StoragePoolSpec>, dockId: string) returns (ps: seq<StoragePoolSpec>)
      ensures ps == TagPools(listed, dockId)
    {
      ps := listed;
      var j := 0;
      while j < |ps|
        invariant 0 <= j <= |ps| == |listed|
        invariant forall k :: 0 <= k < j ==> ps[k] == listed[k].(dockId := dockId)
        invariant forall k :: j <= k < |ps| ==> ps[k] == listed[k]
      {
        ps := ps[j := ps[j].(dockId := dockId)];
        j := j + 1;
      }
    }

    /**
     * Validates and creates every Dock, then every Pool, stopping at the first
     * failure. `created` is the sequence of records written to the database.
     */
    method Store(validate: Record -> Option<Error>, persist: (nat, Record) -> Option<Error>)
      returns (err: Option<Error>, ghost created: seq<Record>)
      ensures StoreResult(created, err) == Stored(Records(dcks, pols), 0, validate, persist)
    {
      ghost var recs := Records(dcks, pols);
      created := [];
      var i := 0;
      while i < |dcks|
        invariant 0 <= i <= |dcks|
        invariant Stored(recs, 0, validate, persist)
                  == var rest := Stored(recs, i, validate, persist); StoreResult(created + rest.created, rest.err)
      {
        var rec := DockRecord(dcks[i]);
        assert recs[i] == rec;
        var verr := validate(rec);
        if verr.Some? {
          return verr, created;
        }
        var cerr := persist(i, rec);
        if cerr.Some? {
          return cerr, created;
        }
        StoredAt(recs, i, validate, persist);
        created := created + [rec];
        i := i + 1;
      }
      var j := 0;
      while j < |pols|
        invariant 0 <= j <= |pols|
        invariant Stored(recs, 0, validate, persist)
                  == var rest := Stored(recs, |dcks| + j, validate, persist); StoreResult(created + rest.created, rest.err)
      {
        var rec := PoolRecord(pols[j]);
        assert recs[|dcks| + j] == rec;
        var verr := validate(rec);
        if verr.Some? {
          return verr, created;
        }
        var cerr := persist(|dcks| + j, rec);
        if cerr.Some? {
          return cerr, created;
        }
        StoredAt(recs, |dcks| + j, validate, persist);
        created := created + [rec];
        j := j + 1;
      }
      assert |dcks| + j == |recs|;
      return None, created;
    }
  }
}
