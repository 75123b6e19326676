/** What every transaction keeps of the contract registry, and what a rewind restores. */
module RegistryProofs {
  import opened Records
  import opened Registry
  import opened LedgerProofs

  // ---------------------------------------------------------------- what a block may announce

  predicate DistinctAddresses(cs: seq<DiscoveredContract>) {
    forall i, j :: 0 <= i < j < |cs| ==> cs[i].address != cs[j].address
  }

  /** A block announces an address at most once, and a discovery already on file says the same. */
  predicate Announced(r: Registry, b: IndexedBlock) {
    && DistinctAddresses(b.contracts)
    && (forall i :: 0 <= i < |b.contracts| ==> AgreesWithFile(r, b.hash, b.contracts[i]))
  }

  predicate AgreesWithFile(r: Registry, hash: Hash, c: DiscoveredContract) {
    && !c.identity.provenance.Manifest?
    && (c.position.Some? ==>
          var k := DiscoveryKey(c.address, hash, c.position.value.txHash);
          k in r.discoveries ==> r.discoveries[k].number == c.position.value.block && r.discoveries[k].identity == c.identity)
  }

  // ---------------------------------------------------------------- the invariant

  predicate Announces(b: IndexedBlock, k: DiscoveryKey, n: nat) {
    && k.blockHash == b.hash
    && exists j :: 0 <= j < |b.contracts| && b.contracts[j].address == k.address
                   && b.contracts[j].position == Some(Position(n, k.txHash))
  }

  predicate OnFile(discoveries: map<DiscoveryKey, DiscoveryRow>, n: int, hash: Hash, c: DiscoveredContract) {
    && c.position.Some? && c.position.value.block == n
    && var k := DiscoveryKey(c.address, hash, c.position.value.txHash);
       k in discoveries && discoveries[k] == DiscoveryRow(c.position.value.block, c.identity, true)
  }

  ghost predicate DiscoveriesMatch(discoveries: map<DiscoveryKey, DiscoveryRow>, chain: Chain) {
    && (forall k :: k in discoveries ==> !discoveries[k].identity.provenance.Manifest?)
    && (forall k :: k in discoveries && discoveries[k].canonical ==>
          discoveries[k].number in chain && Announces(chain[discoveries[k].number], k, discoveries[k].number))
    && (forall n, j :: n in chain && 0 <= j < |chain[n].contracts| ==>
          OnFile(discoveries, n, chain[n].hash, chain[n].contracts[j]))
    && (forall n :: n in chain ==> DistinctAddresses(chain[n].contracts))
  }

  /** The row shows the latest canonical discovery of its address. */
  ghost predicate Carries(discoveries: map<DiscoveryKey, DiscoveryRow>, a: Address, row: ContractRow) {
    exists k :: IsLatest(discoveries, a, k)
                && row.identity == discoveries[k].identity
                && row.discovery == Some(Position(discoveries[k].number, k.txHash))
  }

  predicate Below(row: ContractRow, startBlock: nat) {
    row.discovery.Some? && row.discovery.value.block < startBlock
  }

  ghost predicate RowOk(discoveries: map<DiscoveryKey, DiscoveryRow>, startBlock: nat, a: Address, row: ContractRow) {
    if row.identity.provenance.Manifest? then row.canonical
    else if HasDiscovery(discoveries, a) then row.canonical && Carries(discoveries, a, row)
    else row.canonical ==> Below(row, startBlock)
  }

  predicate EvidenceUpTo(row: ContractRow, tip: int) {
    && (row.deployment.Some? ==> 0 <= row.deployment.value.block <= tip)
    && (row.checkedBlock.Some? ==> 0 <= row.checkedBlock.value <= tip)
  }

  ghost predicate ContractsMatch(r: Registry, startBlock: nat, tip: int) {
    && (forall a :: a in r.contracts ==> RowOk(r.discoveries, startBlock, a, r.contracts[a]))
    && (forall a :: HasDiscovery(r.discoveries, a) ==> a in r.contracts)
    && (forall a :: a in r.contracts ==> EvidenceUpTo(r.contracts[a], tip))
  }

  ghost predicate ChainWithin(chain: Chain, startBlock: nat, tip: int) {
    forall n :: n in chain ==> startBlock <= n <= tip
  }

  /** The registry agrees with the canonical chain `chain`, which lies between `startBlock` and `tip`. */
  ghost predicate Registered(r: Registry, startBlock: nat, tip: int, chain: Chain) {
    && ChainWithin(chain, startBlock, tip)
    && DiscoveriesMatch(r.discoveries, chain)
    && ContractsMatch(r, startBlock, tip)
  }

  // ---------------------------------------------------------------- choosing the latest discovery

  lemma {:induction false} LatestAmong(discoveries: map<DiscoveryKey, DiscoveryRow>, ks: set<DiscoveryKey>) returns (k: DiscoveryKey)
    requires ks != {} && forall j :: j in ks ==> j in discoveries
    ensures k in ks && forall j :: j in ks ==> discoveries[j].number <= discoveries[k].number
  {
    var j :| j in ks;
    if ks == {j} {
      k := j;
    } else {
      var m := LatestAmong(discoveries, ks - {j});
      k := if discoveries[j].number <= discoveries[m].number then m else j;
    }
  }

  lemma LatestExists(discoveries: map<DiscoveryKey, DiscoveryRow>, a: Address)
    ensures HasDiscovery(discoveries, a) <==> exists k :: IsLatest(discoveries, a, k)
  {
    if HasDiscovery(discoveries, a) {
      var ks := set k | k in discoveries && CanonicalDiscovery(discoveries, a, k);
      var k :| CanonicalDiscovery(discoveries, a, k);
      assert k in ks;
      var m := LatestAmong(discoveries, ks);
      assert IsLatest(discoveries, a, m);
    }
  }

  /** The "first of the ordered rows" is never a matter of luck: one block announces an address once. */
  lemma LatestUnique(discoveries: map<DiscoveryKey, DiscoveryRow>, chain: Chain, a: Address, j: DiscoveryKey, k: DiscoveryKey)
    requires DiscoveriesMatch(discoveries, chain)
    requires IsLatest(discoveries, a, j) && IsLatest(discoveries, a, k)
    ensures j == k
  {
  }

  /** The two tables agree on whether `k` is canonical and, if it is, on its row. */
  predicate SameCanonical(d: map<DiscoveryKey, DiscoveryRow>, e: map<DiscoveryKey, DiscoveryRow>, k: DiscoveryKey) {
    && ((k in d && d[k].canonical) <==> (k in e && e[k].canonical))
    && (k in d && k in e && d[k].canonical ==> d[k] == e[k])
  }

  /** A contract row is judged by the discoveries of its own address only. */
  lemma RowOkFrame(d: map<DiscoveryKey, DiscoveryRow>, e: map<DiscoveryKey, DiscoveryRow>, startBlock: nat, a: Address, row: ContractRow)
    requires forall k: DiscoveryKey :: k.address == a ==> SameCanonical(d, e, k)
    ensures RowOk(d, startBlock, a, row) <==> RowOk(e, startBlock, a, row)
  {
    forall k
      ensures CanonicalDiscovery(d, a, k) <==> CanonicalDiscovery(e, a, k)
    {
      assert k.address == a ==> SameCanonical(d, e, k);
    }
    forall k
      ensures IsLatest(d, a, k) <==> IsLatest(e, a, k)
    {
      assert forall j: DiscoveryKey :: j.address == a ==> SameCanonical(d, e, j);
    }
  }

  // ---------------------------------------------------------------- storing a block keeps it

  lemma OneMoreDiscovery(r: Registry, startBlock: nat, n: nat, chain: Chain, b: IndexedBlock, c: DiscoveredContract)
    requires Registered(r, startBlock, n, chain[n := b])
    requires AgreesWithFile(r, b.hash, c) && DistinctAddresses(b.contracts + [c])
    requires c.position.Some? && c.position.value.block == n
    ensures Registered(Registry(UpsertContract(r.contracts, c, n), UpsertDiscovery(r.discoveries, b.hash, c)),
                       startBlock, n, chain[n := b.(contracts := b.contracts + [c])])
  {
    OneMoreAnnouncement(r.discoveries, n, chain, b, c);
    assert chain[n := b].Keys == chain[n := b.(contracts := b.contracts + [c])].Keys;
    forall a
      ensures var after := Registry(UpsertContract(r.contracts, c, n), UpsertDiscovery(r.discoveries, b.hash, c));
              && (a in after.contracts ==> RowOk(after.discoveries, startBlock, a, after.contracts[a]))
              && (HasDiscovery(after.discoveries, a) ==> a in after.contracts)
    {
      OneMoreRow(r, startBlock, n, chain, b, c, a);
    }
  }

  lemma OneMoreAnnouncement(d: map<DiscoveryKey, DiscoveryRow>, n: nat, chain: Chain, b: IndexedBlock, c: DiscoveredContract)
    requires DiscoveriesMatch(d, chain[n := b])
    requires c.position.Some? && c.position.value.block == n && !c.identity.provenance.Manifest?
    requires var k := DiscoveryKey(c.address, b.hash, c.position.value.txHash);
             k in d ==> d[k].number == n && d[k].identity == c.identity
    requires DistinctAddresses(b.contracts + [c])
    ensures DiscoveriesMatch(UpsertDiscovery(d, b.hash, c), chain[n := b.(contracts := b.contracts + [c])])
  {
    var k0 := DiscoveryKey(c.address, b.hash, c.position.value.txHash);
    var after := UpsertDiscovery(d, b.hash, c);
    var was, longer := chain[n := b], chain[n := b.(contracts := b.contracts + [c])];
    forall k | k in after && after[k].canonical
      ensures after[k].number in longer
      ensures Announces(longer[after[k].number], k, after[k].number)
    {
      if k == k0 {
        assert longer[n].contracts[|b.contracts|] == c;
      } else {
        AnnouncementGrows(b, c, k, n);
      }
    }
    forall m, j | m in longer && 0 <= j < |longer[m].contracts|
      ensures OnFile(after, m, longer[m].hash, longer[m].contracts[j])
    {
      assert m != n || j < |b.contracts| ==> OnFile(d, m, was[m].hash, was[m].contracts[j]);
    }
  }

  lemma OneMoreRow(r: Registry, startBlock: nat, n: nat, chain: Chain, b: IndexedBlock, c: DiscoveredContract, a: Address)
    requires Registered(r, startBlock, n, chain[n := b])
    requires AgreesWithFile(r, b.hash, c) && c.position.Some? && c.position.value.block == n
    ensures var after := Registry(UpsertContract(r.contracts, c, n), UpsertDiscovery(r.discoveries, b.hash, c));
            && (a in after.contracts ==> RowOk(after.discoveries, startBlock, a, after.contracts[a]))
            && (HasDiscovery(after.discoveries, a) ==> a in after.contracts)
  {
    var after := Registry(UpsertContract(r.contracts, c, n), UpsertDiscovery(r.discoveries, b.hash, c));
    if a == c.address {
      var k0 := DiscoveryKey(c.address, b.hash, c.position.value.txHash);
      assert CanonicalDiscovery(after.discoveries, a, k0);
      assert IsLatest(after.discoveries, a, k0);
    } else {
      if a in r.contracts {
        RowOkFrame(r.discoveries, after.discoveries, startBlock, a, r.contracts[a]);
      }
      if HasDiscovery(after.discoveries, a) {
        var k :| CanonicalDiscovery(after.discoveries, a, k);
        assert CanonicalDiscovery(r.discoveries, a, k);
      }
    }
  }

  lemma AnnouncementGrows(b: IndexedBlock, c: DiscoveredContract, k: DiscoveryKey, n: nat)
    ensures Announces(b, k, n) ==> Announces(b.(contracts := b.contracts + [c]), k, n)
  {
    if Announces(b, k, n) {
      var j :| 0 <= j < |b.contracts| && b.contracts[j].address == k.address
               && b.contracts[j].position == Some(Position(n, k.txHash));
      assert (b.contracts + [c])[j] == b.contracts[j];
    }
  }

  function Addresses(cs: seq<DiscoveredContract>): set<Address> {
    set i | 0 <= i < |cs| :: cs[i].address
  }

  predicate SameEntry(d: map<DiscoveryKey, DiscoveryRow>, e: map<DiscoveryKey, DiscoveryRow>, k: DiscoveryKey) {
    (k in d <==> k in e) && (k in d ==> d[k] == e[k])
  }

  lemma {:induction false} StoreContractsKeeps(r: Registry, startBlock: nat, n: nat, chain: Chain, b: IndexedBlock, cs: seq<DiscoveredContract>)
    requires startBlock <= n && n !in chain && b.contracts == []
    requires Registered(r, startBlock, n, chain[n := b])
    requires Announced(r, b.(contracts := cs)) && StoreContracts(r, n, b.hash, cs).Success?
    ensures Registered(StoreContracts(r, n, b.hash, cs).value, startBlock, n, chain[n := b.(contracts := cs)])
    ensures forall k: DiscoveryKey :: k.address !in Addresses(cs) ==>
              SameEntry(r.discoveries, StoreContracts(r, n, b.hash, cs).value.discoveries, k)
  {
    if cs == [] {
      assert b.(contracts := cs) == b;
    } else {
      var front, last := cs[..|cs| - 1], cs[|cs| - 1];
      assert front + [last] == cs;
      assert forall i :: 0 <= i < |front| ==> front[i] == cs[i];
      StoreContractsKeeps(r, startBlock, n, chain, b, front);
      var before := StoreContracts(r, n, b.hash, front).value;
      assert AgreesWithFile(r, b.hash, last);
      OneMoreDiscovery(before, startBlock, n, chain, b.(contracts := front), last);
      assert b.(contracts := front).(contracts := front + [last]) == b.(contracts := cs);
    }
  }

  lemma {:induction false} ObservationsKeep(r: Registry, startBlock: nat, n: nat, os: seq<DeploymentObservation>)
    requires ContractsMatch(r, startBlock, n) && StoreObservations(r.contracts, n, os).Success?
    ensures ContractsMatch(r.(contracts := StoreObservations(r.contracts, n, os).value), startBlock, n)
  {
    if os != [] {
      ObservationsKeep(r, startBlock, n, os[..|os| - 1]);
      var before := r.(contracts := StoreObservations(r.contracts, n, os[..|os| - 1]).value);
      var after := r.(contracts := Observe(before.contracts, os[|os| - 1]));
      forall a | a in after.contracts
        ensures RowOk(after.discoveries, startBlock, a, after.contracts[a])
      {
        assert RowOk(before.discoveries, startBlock, a, before.contracts[a]);
      }
    }
  }

  lemma StoreKeeps(r: Registry, startBlock: nat, tip: int, chain: Chain, b: IndexedBlock)
    requires Registered(r, startBlock, tip, chain) && Announced(r, b)
    requires tip < b.number && startBlock <= b.number
    requires Store(r, b).Success?
    ensures Registered(Store(r, b).value, startBlock, b.number, chain[b.number := b])
  {
    var bare := b.(contracts := []);
    assert Registered(r, startBlock, b.number, chain[b.number := bare]);
    StoreContractsKeeps(r, startBlock, b.number, chain, bare, b.contracts);
    assert bare.(contracts := b.contracts) == b;
    ObservationsKeep(StoreContracts(r, b.number, b.hash, b.contracts).value, startBlock, b.number, b.observations);
  }

  // ---------------------------------------------------------------- rewinding keeps it

  lemma RewindKeepsDiscoveries(d: map<DiscoveryKey, DiscoveryRow>, chain: Chain, ancestor: int)
    requires DiscoveriesMatch(d, chain)
    ensures DiscoveriesMatch(OrphanDiscoveries(d, ancestor), Kept(chain, ancestor))
  {
  }

  /** The row that a restoration leaves, once the latest canonical discovery `k` is known. */
  lemma RestoredRowIs(d: map<DiscoveryKey, DiscoveryRow>, chain: Chain, a: Address, row: ContractRow, k: DiscoveryKey)
    requires DiscoveriesMatch(d, chain) && IsLatest(d, a, k)
    ensures RestoredRow(d, a, row) == if row.canonical then row else FromDiscovery(row, k, d[k])
  {
  }

  /** A rewind of one row. For a contract outside the manifest: canonical afterwards exactly when a
      canonical discovery remains or the row was canonical and belongs below the start block; and a
      remaining discovery, the latest one, is what the row shows. */
  lemma RewindRow(d: map<DiscoveryKey, DiscoveryRow>, chain: Chain, startBlock: nat, ancestor: int, a: Address, row: ContractRow)
    requires DiscoveriesMatch(d, chain) && RowOk(d, startBlock, a, row)
    requires forall n :: n in chain ==> startBlock <= n
    ensures var e := OrphanDiscoveries(d, ancestor);
            var after := RestoredRow(e, a, OrphanContract(ForgetDeployment(row, ancestor), startBlock, ancestor));
            && RowOk(e, startBlock, a, after)
            && (!after.identity.provenance.Manifest? ==>
                  (after.canonical <==> HasDiscovery(e, a) || (row.canonical && Below(row, startBlock)))
                  && (HasDiscovery(e, a) ==> Carries(e, a, after)))
  {
    var e := OrphanDiscoveries(d, ancestor);
    var orphaned := OrphanContract(ForgetDeployment(row, ancestor), startBlock, ancestor);
    RewindKeepsDiscoveries(d, chain, ancestor);
    LatestExists(e, a);
    if HasDiscovery(e, a) {
      var k :| IsLatest(e, a, k);
      assert CanonicalDiscovery(d, a, k);
      RestoredRowIs(e, Kept(chain, ancestor), a, orphaned, k);
      if orphaned.canonical && !row.identity.provenance.Manifest? {
        var j :| IsLatest(d, a, j) && row.identity == d[j].identity && row.discovery == Some(Position(d[j].number, j.txHash));
        assert d[j].number in chain;
        assert IsLatest(e, a, j);
      }
    } else if HasDiscovery(d, a) && !row.identity.provenance.Manifest? {
      var j :| IsLatest(d, a, j) && row.discovery == Some(Position(d[j].number, j.txHash));
      assert d[j].number in chain && !CanonicalDiscovery(e, a, j);
    }
  }

  lemma RewindKeeps(r: Registry, startBlock: nat, tip: int, chain: Chain, ancestor: int)
    requires Registered(r, startBlock, tip, chain)
    ensures Registered(Rewind(r, startBlock, ancestor), startBlock, ancestor, Kept(chain, ancestor))
  {
    var e := OrphanDiscoveries(r.discoveries, ancestor);
    var after := Rewind(r, startBlock, ancestor);
    RewindKeepsDiscoveries(r.discoveries, chain, ancestor);
    forall a
      ensures a in after.contracts ==> RowOk(e, startBlock, a, after.contracts[a]) && EvidenceUpTo(after.contracts[a], ancestor)
      ensures HasDiscovery(e, a) ==> a in after.contracts
    {
      RewoundContract(r, startBlock, tip, chain, ancestor, a);
    }
  }

  lemma RewoundContract(r: Registry, startBlock: nat, tip: int, chain: Chain, ancestor: int, a: Address)
    requires Registered(r, startBlock, tip, chain)
    ensures var e, after := OrphanDiscoveries(r.discoveries, ancestor), Rewind(r, startBlock, ancestor);
            && (a in after.contracts ==> RowOk(e, startBlock, a, after.contracts[a]) && EvidenceUpTo(after.contracts[a], ancestor))
            && (HasDiscovery(e, a) ==> a in after.contracts)
  {
    var e := OrphanDiscoveries(r.discoveries, ancestor);
    if a in r.contracts {
      RewindRow(r.discoveries, chain, startBlock, ancestor, a, r.contracts[a]);
    }
    if HasDiscovery(e, a) {
      var k :| CanonicalDiscovery(e, a, k);
      assert CanonicalDiscovery(r.discoveries, a, k);
    }
  }

  lemma InvalidateKeeps(r: Registry, startBlock: nat, tip: int, chain: Chain, floor: nat)
    requires Registered(r, startBlock, tip, chain) && startBlock <= floor
    ensures Registered(Invalidate(r, floor), floor, -1, map[])
  {
  }
}
