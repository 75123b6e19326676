/** Seeding a network's manifest: which contracts it keeps, restores and retires, and when it would
    find the manifest changed once more. */
module SeedProofs {
  import opened Records
  import opened Registry
  import opened RegistryProofs
  import opened LedgerProofs

  predicate Configured(ms: seq<ManifestContract>, a: Address) {
    exists i :: 0 <= i < |ms| && ms[i].address == a
  }

  predicate DistinctManifest(ms: seq<ManifestContract>) {
    forall i, j :: 0 <= i < j < |ms| ==> ms[i].address != ms[j].address
  }

  /** The last entry for an address wins. */
  predicate LastFor(ms: seq<ManifestContract>, a: Address, i: int) {
    0 <= i < |ms| && ms[i].address == a && forall j :: i < j < |ms| ==> ms[j].address != a
  }

  lemma {:induction false} UpsertedRow(contracts: map<Address, ContractRow>, ms: seq<ManifestContract>, a: Address)
    ensures var after := UpsertManifests(contracts, ms);
            && contracts.Keys <= after.Keys
            && (a in after && a !in contracts ==> Configured(ms, a))
            && (!Configured(ms, a) && a in contracts ==> after[a] == contracts[a])
            && (Configured(ms, a) ==>
                  && a in after && after[a].canonical
                  && (exists i :: LastFor(ms, a, i) && after[a].identity == ManifestIdentity(ms[i]))
                  && after[a].discovery == (if a in contracts && (contracts[a].canonical || contracts[a].identity.provenance.Manifest?)
                                            then contracts[a].discovery else None)
                  && after[a].deployment == (if a in contracts then contracts[a].deployment else None)
                  && after[a].checkedBlock == (if a in contracts then contracts[a].checkedBlock else None))
  {
    if ms != [] {
      var front, last := ms[..|ms| - 1], ms[|ms| - 1];
      UpsertedRow(contracts, front, a);
      assert forall i :: 0 <= i < |front| ==> front[i] == ms[i];
      if last.address == a {
        assert LastFor(ms, a, |ms| - 1);
      } else if Configured(front, a) {
        var i :| LastFor(front, a, i) && UpsertManifests(contracts, front)[a].identity == ManifestIdentity(front[i]);
        assert LastFor(ms, a, i) && ms[i] == front[i];
      } else {
        assert Configured(ms, a) ==> Configured(front, a);
      }
    }
  }

  // ---------------------------------------------------------------- what becomes of a contract

  /** A discovery below the start block that is where the contract row remembers it. */
  predicate Remembered(r: Registry, startBlock: nat, a: Address, k: DiscoveryKey) {
    && a in r.contracts && k in r.discoveries && k.address == a && r.discoveries[k].number < startBlock
    && r.contracts[a].discovery == Some(Position(r.discoveries[k].number, k.txHash))
  }

  /** Of several, a canonical one goes first, and then the one with the lowest block hash. */
  ghost predicate RememberedFirst(r: Registry, startBlock: nat, a: Address, k: DiscoveryKey) {
    && Remembered(r, startBlock, a, k)
    && forall j :: Remembered(r, startBlock, a, j) ==>
         if r.discoveries[j].canonical == r.discoveries[k].canonical then k.blockHash <= j.blockHash else r.discoveries[k].canonical
  }

  lemma RememberedIsRetained(r: Registry, startBlock: nat, a: Address, k: DiscoveryKey)
    ensures FirstRetainedBy(r, startBlock, a, k) <==> RememberedFirst(r, startBlock, a, k)
  {
    forall j
      ensures Remembered(r, startBlock, a, j) <==> RetainedBy(r, startBlock, a, j)
    {
    }
  }

  lemma {:induction false} FirstAmong(r: Registry, ks: set<DiscoveryKey>) returns (k: DiscoveryKey)
    requires ks != {} && forall j :: j in ks ==> j in r.discoveries
    ensures k in ks && forall j :: j in ks ==> !Precedes(r, j, k)
  {
    var j :| j in ks;
    if ks == {j} {
      k := j;
    } else {
      var m := FirstAmong(r, ks - {j});
      k := if Precedes(r, j, m) then j else m;
      forall i | i in ks
        ensures !Precedes(r, i, k)
      {
        assert i == j || i in ks - {j};
      }
    }
  }

  lemma FirstExists(r: Registry, startBlock: nat, a: Address)
    ensures (exists k :: Remembered(r, startBlock, a, k)) <==> exists k :: FirstRetainedBy(r, startBlock, a, k)
  {
    if k :| Remembered(r, startBlock, a, k) {
      var ks := set j | j in r.discoveries && Remembered(r, startBlock, a, j);
      assert k in ks;
      var m := FirstAmong(r, ks);
      assert FirstRetainedBy(r, startBlock, a, m);
    } else {
      assert forall k :: RetainedBy(r, startBlock, a, k) ==> Remembered(r, startBlock, a, k);
    }
  }

  /** A contract that is taken out of the manifest: what was announced on the chain, or below the start
      block, goes on as that; anything else is retired. */
  ghost predicate TakenOut(r: Registry, startBlock: nat, a: Address, after: ContractRow)
    requires a in r.contracts
  {
    if HasDiscovery(r.discoveries, a) then after.canonical && Carries(r.discoveries, a, after)
    else
      && after.discovery == r.contracts[a].discovery
      && if exists k :: Remembered(r, startBlock, a, k)
         then after.canonical && exists k :: RememberedFirst(r, startBlock, a, k) && after.identity == r.discoveries[k].identity
         else !after.canonical && after.identity == r.contracts[a].identity.(provenance := RetiredManifest)
  }

  /** A contract row before and after seeding. */
  ghost predicate Seeded(r: Registry, startBlock: nat, ms: seq<ManifestContract>, a: Address, after: ContractRow) {
    && RowOk(r.discoveries, startBlock, a, after)
    && (after.identity.provenance.Manifest? <==> Configured(ms, a))
    && (Configured(ms, a) ==> after.canonical && exists i :: LastFor(ms, a, i) && after.identity == ManifestIdentity(ms[i]))
    && (Configured(ms, a) ==>
          after.discovery == if a in r.contracts && (r.contracts[a].canonical || r.contracts[a].identity.provenance.Manifest?)
                             then r.contracts[a].discovery else None)
    && (!Configured(ms, a) && a in r.contracts && r.contracts[a].identity.provenance.Manifest? ==> TakenOut(r, startBlock, a, after))
    && (!Configured(ms, a) && a in r.contracts && !r.contracts[a].identity.provenance.Manifest? ==> after == r.contracts[a])
    && after.deployment == (if a in r.contracts then r.contracts[a].deployment else None)
    && after.checkedBlock == (if a in r.contracts then r.contracts[a].checkedBlock else None)
  }

  /** The row of a contract that is not configured, on its way through the restorations. */
  lemma UnconfiguredRow(r: Registry, startBlock: nat, ms: seq<ManifestContract>, a: Address)
    requires a in r.contracts && !Configured(ms, a)
    ensures var unseeded := UnseedManifest(r.contracts);
            var restored := Restore(r.(contracts := UpsertManifests(unseeded, ms)));
            && a in unseeded && a in restored.contracts && restored.discoveries == r.discoveries
            && restored.contracts[a] == RestoredRow(r.discoveries, a, unseeded[a])
            && a in Seed(r, startBlock, ms).contracts
            && Seed(r, startBlock, ms).contracts[a] == RetireManifest(map[a := RetainedRow(restored, startBlock, a)])[a]
  {
    UpsertedRow(UnseedManifest(r.contracts), ms, a);
  }

  /** What a contract remembers does not depend on the rest of the table. */
  lemma SameRemembered(r: Registry, s: Registry, startBlock: nat, a: Address)
    requires r.discoveries == s.discoveries && a in r.contracts && a in s.contracts && r.contracts[a].discovery == s.contracts[a].discovery
    ensures forall k :: Remembered(r, startBlock, a, k) <==> Remembered(s, startBlock, a, k)
    ensures forall k :: RememberedFirst(r, startBlock, a, k) <==> RememberedFirst(s, startBlock, a, k)
  {
  }

  lemma RetainedRowIs(r: Registry, startBlock: nat, a: Address)
    requires a in r.contracts && r.contracts[a].identity.provenance.Manifest? && !r.contracts[a].canonical
    ensures var after := RetainedRow(r, startBlock, a);
            if exists k :: Remembered(r, startBlock, a, k)
            then exists k :: RememberedFirst(r, startBlock, a, k) && after == r.contracts[a].(identity := r.discoveries[k].identity, canonical := true)
            else after == r.contracts[a]
  {
    FirstExists(r, startBlock, a);
    if k :| FirstRetainedBy(r, startBlock, a, k) && RetainedRow(r, startBlock, a) == r.contracts[a].(identity := r.discoveries[k].identity, canonical := true) {
      RememberedIsRetained(r, startBlock, a, k);
    }
  }

  lemma TakenOutRow(r: Registry, startBlock: nat, tip: int, chain: Chain, ms: seq<ManifestContract>, a: Address)
    requires Registered(r, startBlock, tip, chain)
    requires a in r.contracts && !Configured(ms, a) && r.contracts[a].identity.provenance.Manifest?
    ensures a in Seed(r, startBlock, ms).contracts && TakenOut(r, startBlock, a, Seed(r, startBlock, ms).contracts[a])
    ensures var after := Seed(r, startBlock, ms).contracts[a];
            && RowOk(r.discoveries, startBlock, a, after) && !after.identity.provenance.Manifest?
            && after.deployment == r.contracts[a].deployment && after.checkedBlock == r.contracts[a].checkedBlock
  {
    UnconfiguredRow(r, startBlock, ms, a);
    var row := UnseedManifest(r.contracts)[a];
    var restored := Restore(r.(contracts := UpsertManifests(UnseedManifest(r.contracts), ms)));
    LatestExists(r.discoveries, a);
    if HasDiscovery(r.discoveries, a) {
      var k :| IsLatest(r.discoveries, a, k);
      RestoredRowIs(r.discoveries, chain, a, row, k);
    } else {
      assert restored.contracts[a] == row;
      RetainedRowIs(restored, startBlock, a);
      SameRemembered(r, restored, startBlock, a);
    }
  }

  lemma SeededRow(r: Registry, startBlock: nat, tip: int, chain: Chain, ms: seq<ManifestContract>, a: Address)
    requires Registered(r, startBlock, tip, chain)
    ensures var after := Seed(r, startBlock, ms);
            && (a in after.contracts <==> a in r.contracts || Configured(ms, a))
            && (a in after.contracts ==> Seeded(r, startBlock, ms, a, after.contracts[a]))
  {
    UpsertedRow(UnseedManifest(r.contracts), ms, a);
    if a in r.contracts && !Configured(ms, a) {
      if r.contracts[a].identity.provenance.Manifest? {
        TakenOutRow(r, startBlock, tip, chain, ms, a);
      } else {
        UnconfiguredRow(r, startBlock, ms, a);
        assert RowOk(r.discoveries, startBlock, a, r.contracts[a]);
        LatestExists(r.discoveries, a);
      }
    }
  }

  lemma SeedKeeps(r: Registry, startBlock: nat, tip: int, chain: Chain, ms: seq<ManifestContract>)
    requires Registered(r, startBlock, tip, chain)
    ensures Registered(Seed(r, startBlock, ms), startBlock, tip, chain)
  {
    var after := Seed(r, startBlock, ms);
    forall a
      ensures a in after.contracts ==> RowOk(after.discoveries, startBlock, a, after.contracts[a]) && EvidenceUpTo(after.contracts[a], tip)
      ensures a in r.contracts ==> a in after.contracts
    {
      SeededRow(r, startBlock, tip, chain, ms, a);
    }
  }

  /** After seeding, the manifest rows are the configured contracts and no others; so seeding the same
      manifest again finds it unchanged exactly when no address is configured twice. */
  lemma SeedSettles(r: Registry, startBlock: nat, tip: int, chain: Chain, ms: seq<ManifestContract>)
    requires Registered(r, startBlock, tip, chain)
    ensures ManifestChanged(Seed(r, startBlock, ms), ms) <==> !DistinctManifest(ms)
  {
    forall m
      ensures m in StoredManifest(Seed(r, startBlock, ms)) <==> LastEntry(ms, m)
    {
      StoredExactly(r, startBlock, tip, chain, ms, m);
    }
    if DistinctManifest(ms) {
      forall i | 0 <= i < |ms|
        ensures LastEntry(ms, ms[i])
      {
        assert LastFor(ms, ms[i].address, i);
      }
      DistinctAsSet(ms, StoredManifest(Seed(r, startBlock, ms)));
    } else {
      RepeatedNeverSettles(ms, StoredManifest(Seed(r, startBlock, ms)));
    }
  }

  predicate NoRepeats(ms: seq<ManifestContract>) {
    forall i, j :: 0 <= i < j < |ms| ==> ms[i] != ms[j]
  }

  /** The contract is one of the stored manifest, with this label and this kind. */
  predicate IsStored(r: Registry, m: ManifestContract) {
    && m.address in r.contracts && r.contracts[m.address].canonical
    && r.contracts[m.address].identity == Identity(m.displayLabel, m.kind, Manifest)
  }

  /** The manifest is unchanged exactly if it lists every stored manifest contract as it is, once, and
      nothing else. */
  lemma ChangedExactly(r: Registry, ms: seq<ManifestContract>)
    ensures !ManifestChanged(r, ms) <==> NoRepeats(ms) && forall m :: m in ms <==> IsStored(r, m)
  {
    forall m
      ensures m in StoredManifest(r) <==> IsStored(r, m)
    {
    }
    if NoRepeats(ms) && forall m :: m in ms <==> IsStored(r, m) {
      DistinctAsSet(ms, StoredManifest(r));
    }
    if multiset(ms) == multiset(StoredManifest(r)) {
      forall i, j | 0 <= i < j < |ms|
        ensures ms[i] != ms[j]
      {
        if ms[i] == ms[j] {
          TwiceInMultiset(ms, i, j);
          assert false;
        }
      }
      assert forall m :: m in ms <==> m in multiset(ms);
    }
  }

  ghost predicate LastEntry(ms: seq<ManifestContract>, m: ManifestContract) {
    exists i :: LastFor(ms, m.address, i) && ms[i] == m
  }

  lemma StoredExactly(r: Registry, startBlock: nat, tip: int, chain: Chain, ms: seq<ManifestContract>, m: ManifestContract)
    requires Registered(r, startBlock, tip, chain)
    ensures m in StoredManifest(Seed(r, startBlock, ms)) <==> LastEntry(ms, m)
  {
    SeededRow(r, startBlock, tip, chain, ms, m.address);
    if LastEntry(ms, m) {
      assert Configured(ms, m.address);
    }
  }

  lemma RepeatedNeverSettles(ms: seq<ManifestContract>, stored: set<ManifestContract>)
    requires !DistinctManifest(ms)
    requires forall m :: m in stored <==> LastEntry(ms, m)
    ensures multiset(ms) != multiset(stored)
  {
    var i, j :| 0 <= i < j < |ms| && ms[i].address == ms[j].address;
    if ms[i] == ms[j] {
      TwiceInMultiset(ms, i, j);
    } else {
      assert !(ms[i] in stored && ms[j] in stored);
      assert ms[i] in multiset(ms) && ms[j] in multiset(ms);
    }
  }

  lemma {:induction false} DistinctAsSet(ms: seq<ManifestContract>, s: set<ManifestContract>)
    requires NoRepeats(ms)
    requires forall m :: m in s <==> m in ms
    ensures multiset(ms) == multiset(s)
  {
    if ms == [] {
      assert s == {};
    } else {
      var front, last := ms[..|ms| - 1], ms[|ms| - 1];
      assert ms == front + [last];
      assert last !in front;
      DistinctAsSet(front, s - {last});
      assert s == (s - {last}) + {last};
    }
  }

  lemma TwiceInMultiset(ms: seq<ManifestContract>, i: nat, j: nat)
    requires i < j < |ms| && ms[i] == ms[j]
    ensures multiset(ms)[ms[i]] >= 2
  {
    assert ms == ms[..j] + ms[j..];
    assert ms[..j][i] == ms[i] && ms[j..][0] == ms[i];
    assert multiset(ms) == multiset(ms[..j]) + multiset(ms[j..]);
  }
}
