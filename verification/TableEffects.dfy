/** What each transaction does to every single row: which rows it brings, which it changes and how, and
    that it leaves all others as they were. */
module TableEffects {
  import opened Records
  import opened Database
  import opened LedgerProofs
  import opened Runs
  import opened Coverage
  import Ledger
  import Registry
  import RegistryProofs
  import SeedProofs

  // ---------------------------------------------------------------- storing a block

  /** The block is on top and canonical; of the others, those that are canonical and old enough are now
      final, and nothing else has changed. */
  lemma StoredBlocks(s: Store, b: IndexedBlock, h: Hash)
    requires Genuine(s, Append(b)) && StoreBlock(s, b).Success?
    ensures var before, t := s.ledger.blocks, StoreBlock(s, b).value.ledger;
            && t.startBlock == s.ledger.startBlock && t.indexedBlock == Some(b.number) && t.indexedHash == Some(b.hash)
            && (h in t.blocks <==> h in before || h == b.hash)
            && (h == b.hash ==> t.blocks[h] == Ledger.BlockRow(b.number, b.parentHash, true, b.number <= b.finalizedThrough))
            && (h in before && h != b.hash ==>
                  var final := before[h].finalized || (before[h].canonical && before[h].number <= b.finalizedThrough);
                  t.blocks[h] == before[h].(finalized := final))
  {
  }

  /** The rows the block brings are canonical and show what it brings; the others only become final. */
  lemma StoredEvidence(s: Store, chain: Chain, b: IndexedBlock, k: EvidenceKey)
    requires Sound(s, chain) && Genuine(s, Append(b)) && StoreBlock(s, b).Success?
    ensures var before, after := s.ledger.evidence, StoreBlock(s, b).value.ledger.evidence;
            && (k in after <==> k in before || k in b.evidence)
            && (k in b.evidence ==>
                  after[k] == Ledger.EvidenceRow(b.number, b.evidence[k], true, k.table == Logs && b.number <= b.finalizedThrough))
            && (k in before && k !in b.evidence ==>
                  var final := before[k].finalized || (k.table == Logs && before[k].canonical && before[k].number <= b.finalizedThrough);
                  after[k] == before[k].(finalized := final))
  {
    if k in s.ledger.evidence {
      assert RowFiled(s.ledger.blocks, k, s.ledger.evidence[k]);
    }
  }

  predicate Brings(cs: seq<LogScanCursor>, a: Address) {
    exists i :: 0 <= i < |cs| && cs[i].contractAddress == a
  }

  /** A row that is on file already keeps what it says if its table is one that is never rewritten; logs and
      the other projections say what the block says. */
  lemma StoredPayload(s: Store, b: IndexedBlock, k: EvidenceKey)
    requires StoreBlock(s, b).Success? && k in b.evidence
    ensures k in StoreBlock(s, b).value.ledger.evidence
    ensures StoreBlock(s, b).value.ledger.evidence[k].data
            == match k.table
               case Logs => b.evidence[k]
               case Transactions => if k in s.ledger.evidence then s.ledger.evidence[k].data else b.evidence[k]
               case Projection(_, kept) => if kept && k in s.ledger.evidence then s.ledger.evidence[k].data else b.evidence[k]
  {
  }

  /** The starts that the contract's cursors have, on file and in the block. */
  function Starts(before: map<Address, Ledger.CursorRow>, cs: seq<LogScanCursor>, a: Address): set<int> {
    (if a in before then {before[a].startBlock} else {}) + set i | 0 <= i < |cs| && cs[i].contractAddress == a :: cs[i].startBlock
  }

  /** The cursor a contract has afterwards: if the block brought one for it, it ends at the stored block and
      starts at the earliest start there is. */
  predicate CursorAfter(before: map<Address, Ledger.CursorRow>, cs: seq<LogScanCursor>, n: nat, a: Address,
                        after: map<Address, Ledger.CursorRow>)
  {
    if Brings(cs, a) then
      && a in after && after[a].lastRetrievedBlock == n && after[a].startBlock in Starts(before, cs, a)
      && forall x :: x in Starts(before, cs, a) ==> after[a].startBlock <= x
    else (a in after <==> a in before) && (a in after ==> after[a] == before[a])
  }

  lemma OneMoreStart(before: map<Address, Ledger.CursorRow>, front: seq<LogScanCursor>, last: LogScanCursor, a: Address)
    ensures Brings(front + [last], a) <==> Brings(front, a) || last.contractAddress == a
    ensures Starts(before, front + [last], a) == Starts(before, front, a) + if last.contractAddress == a then {last.startBlock} else {}
  {
    var cs := front + [last];
    assert forall i :: 0 <= i < |front| ==> cs[i] == front[i];
    assert cs[|front|] == last;
    forall x
      ensures x in Starts(before, cs, a) <==> x in Starts(before, front, a) + if last.contractAddress == a then {last.startBlock} else {}
    {
      if x in Starts(before, front, a) && !(a in before && x == before[a].startBlock) {
        var i :| 0 <= i < |front| && front[i].contractAddress == a && front[i].startBlock == x;
        assert cs[i].startBlock == x;
      }
    }
  }

  lemma {:induction false} UpsertedCursors(cursors: map<Address, Ledger.CursorRow>, n: nat, cs: seq<LogScanCursor>, a: Address)
    requires Bounded(cursors, n) && Ledger.FirstCursorError(n, cs).None?
    ensures CursorAfter(cursors, cs, n, a, Ledger.UpsertCursors(cursors, cs))
  {
    if cs != [] {
      var front, last := cs[..|cs| - 1], cs[|cs| - 1];
      assert cs == front + [last];
      assert forall i :: 0 <= i < |front| ==> front[i] == cs[i];
      UpsertedCursors(cursors, n, front, a);
      CursorsAfterStore(cursors, n, front);
      OneMoreStart(cursors, front, last, a);
      OneMoreCursor(cursors, front, last, n, a, Ledger.UpsertCursors(cursors, front));
    }
  }

  lemma OneMoreCursor(before: map<Address, Ledger.CursorRow>, front: seq<LogScanCursor>, last: LogScanCursor, n: nat, a: Address,
                      after: map<Address, Ledger.CursorRow>)
    requires CursorAfter(before, front, n, a, after) && Bounded(after, n) && last.lastRetrievedBlock == n
    ensures CursorAfter(before, front + [last], n, a, Ledger.UpsertCursor(after, last))
  {
    OneMoreStart(before, front, last, a);
  }

  lemma StoredCursors(s: Store, chain: Chain, b: IndexedBlock, a: Address)
    requires Sound(s, chain) && Genuine(s, Append(b)) && StoreBlock(s, b).Success?
    ensures CursorAfter(s.ledger.cursors, b.logScanCursors, b.number, a, StoreBlock(s, b).value.ledger.cursors)
  {
    StoreAcceptsExactly(s.ledger, chain, b);
    UpsertedCursors(s.ledger.cursors, b.number, b.logScanCursors, a);
  }

  /** The block announces the contract in this transaction. */
  predicate AnnouncedBy(b: IndexedBlock, k: Registry.DiscoveryKey, c: DiscoveredContract) {
    c in b.contracts && k == Registry.DiscoveryKey(c.address, b.hash, if c.position.Some? then c.position.value.txHash else 0)
  }

  lemma {:induction false} FiledDiscoveries(r: Registry.Registry, n: nat, hash: Hash, cs: seq<DiscoveredContract>, k: Registry.DiscoveryKey)
    requires Registry.StoreContracts(r, n, hash, cs).Success? && RegistryProofs.DistinctAddresses(cs)
    ensures var after := Registry.StoreContracts(r, n, hash, cs).value.discoveries;
            && ((forall i :: 0 <= i < |cs| ==> k != Registry.DiscoveryKey(cs[i].address, hash, cs[i].position.value.txHash)) ==>
                  (k in after <==> k in r.discoveries) && (k in after ==> after[k] == r.discoveries[k]))
            && (forall i :: 0 <= i < |cs| && k == Registry.DiscoveryKey(cs[i].address, hash, cs[i].position.value.txHash) ==>
                  k in after && after[k] == if k in r.discoveries then r.discoveries[k].(canonical := true)
                                            else Registry.DiscoveryRow(n, cs[i].identity, true))
  {
    if cs != [] {
      var front := cs[..|cs| - 1];
      assert forall i :: 0 <= i < |front| ==> front[i] == cs[i];
      FiledDiscoveries(r, n, hash, front, k);
    }
  }

  /** Each announcement is a canonical discovery that says what the block says; the others are as before. */
  lemma StoredDiscoveries(s: Store, b: IndexedBlock, k: Registry.DiscoveryKey)
    requires Genuine(s, Append(b)) && StoreBlock(s, b).Success?
    ensures var before, after := s.registry.discoveries, StoreBlock(s, b).value.registry.discoveries;
            && ((exists c :: AnnouncedBy(b, k, c)) ==> k in after)
            && (forall c :: AnnouncedBy(b, k, c) ==> after[k] == Registry.DiscoveryRow(b.number, c.identity, true))
            && ((forall c :: !AnnouncedBy(b, k, c)) ==> (k in after <==> k in before) && (k in after ==> after[k] == before[k]))
  {
    FiledDiscoveries(s.registry, b.number, b.hash, b.contracts, k);
    forall c | AnnouncedBy(b, k, c)
      ensures k in StoreBlock(s, b).value.registry.discoveries
              && StoreBlock(s, b).value.registry.discoveries[k] == Registry.DiscoveryRow(b.number, c.identity, true)
    {
      var i :| 0 <= i < |b.contracts| && b.contracts[i] == c;
      assert RegistryProofs.AgreesWithFile(s.registry, b.hash, b.contracts[i]);
    }
    if forall c :: !AnnouncedBy(b, k, c) {
      assert forall i :: 0 <= i < |b.contracts| ==> !AnnouncedBy(b, k, b.contracts[i]);
    }
  }

  function RowFor(contracts: map<Address, Registry.ContractRow>, a: Address): Option<Registry.ContractRow> {
    if a in contracts then Some(contracts[a]) else None
  }

  /** The row that an announcement leaves: a manifest contract keeps its description and position, and a
      deployment that is known stays. */
  predicate FoundAs(before: Option<Registry.ContractRow>, c: DiscoveredContract, n: nat, found: Registry.ContractRow) {
    && found.canonical
    && (if before.Some? && before.value.identity.provenance.Manifest?
        then found.identity == before.value.identity && found.discovery == before.value.discovery
        else found.identity == c.identity && found.discovery == c.position)
    && found.deployment == (if before.Some? && before.value.deployment.Some? then before.value.deployment else Some(Deployment(n, true)))
    && found.checkedBlock == Some(if before.Some? && before.value.checkedBlock.Some? then Max(before.value.checkedBlock.value, n) else n)
  }

  predicate FoundAfter(before: Option<Registry.ContractRow>, b: IndexedBlock, a: Address, found: Option<Registry.ContractRow>) {
    if exists c :: c in b.contracts && c.address == a
    then found.Some? && forall c :: c in b.contracts && c.address == a ==> FoundAs(before, c, b.number, found.value)
    else found == before
  }

  predicate LastObservation(os: seq<DeploymentObservation>, a: Address, i: int) {
    0 <= i < |os| && os[i].contractAddress == a && forall j :: i < j < |os| ==> os[j].contractAddress != a
  }

  /** The last observation of a canonical contract is what its row shows. */
  ghost predicate ObservedAfter(found: Option<Registry.ContractRow>, os: seq<DeploymentObservation>, a: Address, after: Option<Registry.ContractRow>) {
    if found.None? || !found.value.canonical || forall i :: 0 <= i < |os| ==> os[i].contractAddress != a then after == found
    else exists i :: LastObservation(os, a, i)
                     && after == Some(found.value.(deployment := os[i].deployment, checkedBlock := Some(os[i].checkedBlock)))
  }

  lemma {:induction false} ObservedRows(contracts: map<Address, Registry.ContractRow>, n: nat, os: seq<DeploymentObservation>, a: Address)
    requires Registry.StoreObservations(contracts, n, os).Success?
    ensures ObservedAfter(RowFor(contracts, a), os, a, RowFor(Registry.StoreObservations(contracts, n, os).value, a))
  {
    if os != [] {
      var front, last := os[..|os| - 1], os[|os| - 1];
      assert forall i :: 0 <= i < |front| ==> front[i] == os[i];
      ObservedRows(contracts, n, front, a);
      if last.contractAddress == a {
        assert LastObservation(os, a, |os| - 1);
      } else {
        forall i | LastObservation(front, a, i)
          ensures LastObservation(os, a, i)
        {
        }
        assert (forall i :: 0 <= i < |os| ==> os[i].contractAddress != a) <==> (forall i :: 0 <= i < |front| ==> front[i].contractAddress != a);
      }
    }
  }

  /** A contract row after a block: as found, and then as observed. */
  lemma StoredContract(s: Store, b: IndexedBlock, a: Address) returns (found: Option<Registry.ContractRow>)
    requires Genuine(s, Append(b)) && StoreBlock(s, b).Success?
    ensures FoundAfter(RowFor(s.registry.contracts, a), b, a, found)
    ensures ObservedAfter(found, b.observations, a, RowFor(StoreBlock(s, b).value.registry.contracts, a))
  {
    var contracts := Registry.StoreContracts(s.registry, b.number, b.hash, b.contracts).value.contracts;
    FoundRow(s.registry, b.number, b.hash, b.contracts, a);
    ObservedRows(contracts, b.number, b.observations, a);
    found := RowFor(contracts, a);
    forall c | c in b.contracts && c.address == a
      ensures found.Some? && FoundAs(RowFor(s.registry.contracts, a), c, b.number, found.value)
    {
      var i :| 0 <= i < |b.contracts| && b.contracts[i] == c;
      assert found == Some(Registry.UpsertContract(s.registry.contracts, b.contracts[i], b.number)[a]);
    }
    if a in RegistryProofs.Addresses(b.contracts) {
      var i :| 0 <= i < |b.contracts| && b.contracts[i].address == a;
      assert b.contracts[i] in b.contracts;
    }
  }

  // ---------------------------------------------------------------- rewinding

  /** Rows above the ancestor stay on file with their flags cleared, those at or below it are untouched. */
  lemma RewoundRows(s: Store, chain: Chain, ancestor: int, ancestorHash: Option<Hash>, h: Hash, k: EvidenceKey, d: Registry.DiscoveryKey)
    requires Sound(s, chain) && Rewind(s, ancestor, ancestorHash).Success?
    ensures var l, t := s.ledger, Rewind(s, ancestor, ancestorHash).value.ledger;
            && t.startBlock == l.startBlock && t.indexedBlock == (if ancestor < 0 then None else Some(ancestor)) && t.indexedHash == ancestorHash
            && (h in t.blocks <==> h in l.blocks)
            && (h in l.blocks ==> t.blocks[h] == if l.blocks[h].number <= ancestor then l.blocks[h]
                                                 else l.blocks[h].(canonical := false, finalized := false))
            && (k in t.evidence <==> k in l.evidence)
            && (k in l.evidence ==> t.evidence[k] == if l.evidence[k].number <= ancestor then l.evidence[k]
                                                     else l.evidence[k].(canonical := false, finalized := false))
    ensures var before, after := s.registry.discoveries, Rewind(s, ancestor, ancestorHash).value.registry.discoveries;
            && (d in after <==> d in before)
            && (d in before ==> after[d] == if before[d].number <= ancestor then before[d] else before[d].(canonical := false))
  {
    if k in s.ledger.evidence {
      assert RowFiled(s.ledger.blocks, k, s.ledger.evidence[k]);
    }
  }

  /** The cursor claims the block. */
  predicate Claims(cursors: map<Address, Ledger.CursorRow>, a: Address, n: int) {
    a in cursors && cursors[a].startBlock <= n <= cursors[a].lastRetrievedBlock
  }

  /** Cursors that start above the ancestor go, the others are cut back to it; so of what was claimed
      before, exactly the blocks up to the ancestor are claimed afterwards. */
  lemma RewoundCursors(s: Store, ancestor: int, ancestorHash: Option<Hash>, a: Address, n: int)
    requires Rewind(s, ancestor, ancestorHash).Success?
    ensures var before, after := s.ledger.cursors, Rewind(s, ancestor, ancestorHash).value.ledger.cursors;
            && (a in after <==> a in before && before[a].startBlock <= ancestor)
            && (a in after ==> after[a] == Ledger.CursorRow(before[a].startBlock, Min(before[a].lastRetrievedBlock, ancestor)))
            && (Claims(after, a, n) <==> Claims(before, a, n) && n <= ancestor)
  {
  }

  /** Evidence of a deployment above the ancestor is forgotten, and evidence at or below it kept. */
  predicate EvidenceRewound(before: Registry.ContractRow, ancestor: int, after: Registry.ContractRow) {
    && after.deployment == (if before.deployment.Some? && before.deployment.value.block <= ancestor then before.deployment else None)
    && after.checkedBlock == (if before.checkedBlock.Some? && before.checkedBlock.value <= ancestor then before.checkedBlock else None)
  }

  /** A contract row after a rewind: a manifest contract only loses evidence; another one shows the latest
      discovery that remains, or else keeps what it shows and is canonical only if it lies below the start. */
  ghost predicate ContractRewound(d: map<Registry.DiscoveryKey, Registry.DiscoveryRow>, startBlock: nat, ancestor: int, a: Address,
                                  before: Registry.ContractRow, after: Registry.ContractRow)
  {
    && EvidenceRewound(before, ancestor, after)
    && if before.identity.provenance.Manifest? then SameDescription(before, after) && after.canonical
       else if Registry.HasDiscovery(d, a) then after.canonical && RegistryProofs.Carries(d, a, after)
       else SameDescription(before, after) && (after.canonical <==> before.canonical && RegistryProofs.Below(before, startBlock))
  }

  lemma RowRewound(d: map<Registry.DiscoveryKey, Registry.DiscoveryRow>, chain: Chain, startBlock: nat, ancestor: int, a: Address,
                   row: Registry.ContractRow)
    requires RegistryProofs.DiscoveriesMatch(d, chain) && RegistryProofs.RowOk(d, startBlock, a, row)
    requires forall n :: n in chain ==> startBlock <= n
    ensures var e := Registry.OrphanDiscoveries(d, ancestor);
            ContractRewound(e, startBlock, ancestor, a, row,
                            Registry.RestoredRow(e, a, Registry.OrphanContract(Registry.ForgetDeployment(row, ancestor), startBlock, ancestor)))
  {
    RegistryProofs.RewindRow(d, chain, startBlock, ancestor, a, row);
    RegistryProofs.LatestExists(Registry.OrphanDiscoveries(d, ancestor), a);
  }

  lemma RewoundContract(s: Store, chain: Chain, ancestor: int, ancestorHash: Option<Hash>, a: Address)
    requires Sound(s, chain) && Rewind(s, ancestor, ancestorHash).Success?
    ensures var before, t := s.registry.contracts, Rewind(s, ancestor, ancestorHash).value.registry;
            && (a in t.contracts <==> a in before)
            && (a in before ==> ContractRewound(t.discoveries, s.ledger.startBlock, ancestor, a, before[a], t.contracts[a]))
  {
    if a in s.registry.contracts {
      RowRewound(s.registry.discoveries, chain, s.ledger.startBlock, ancestor, a, s.registry.contracts[a]);
    }
  }

  predicate SameDescription(before: Registry.ContractRow, after: Registry.ContractRow) {
    after.identity == before.identity && after.discovery == before.discovery
  }

  // ---------------------------------------------------------------- resets

  /** A reset keeps every row, clears every flag, forgets every deployment and every claim. */
  predicate Reset(s: Store, startBlock: nat, t: Store) {
    && t.ledger == Ledger.Ledger(startBlock, None, None, t.ledger.blocks, t.ledger.evidence, map[])
    && t.ledger.blocks.Keys == s.ledger.blocks.Keys && t.ledger.evidence.Keys == s.ledger.evidence.Keys
    && (forall h :: h in s.ledger.blocks ==> t.ledger.blocks[h] == s.ledger.blocks[h].(canonical := false, finalized := false))
    && (forall k :: k in s.ledger.evidence ==> t.ledger.evidence[k] == s.ledger.evidence[k].(canonical := false, finalized := false))
    && t.registry.discoveries.Keys == s.registry.discoveries.Keys && t.registry.contracts.Keys == s.registry.contracts.Keys
    && (forall k :: k in s.registry.discoveries ==> t.registry.discoveries[k] == s.registry.discoveries[k].(canonical := false))
    && (forall a :: a in s.registry.contracts ==> ContractReset(s.registry.contracts[a], startBlock, t.registry.contracts[a]))
    && t.tokens.Keys == s.tokens.Keys && forall k :: k in s.tokens ==> t.tokens[k] == s.tokens[k].(canonical := false)
  }

  /** Of the canonical contracts, those of the manifest stay and those found below the new start. */
  predicate ContractReset(before: Registry.ContractRow, startBlock: nat, after: Registry.ContractRow) {
    && SameDescription(before, after) && after.deployment.None? && after.checkedBlock.None?
    && (after.canonical <==>
          before.canonical
          && (before.identity.provenance.Manifest? || (before.discovery.Some? && before.discovery.value.block < startBlock)))
  }

  lemma AdvancedStore(s: Store, startBlock: nat)
    ensures if startBlock <= s.ledger.startBlock then Apply(s, Advance(startBlock)) == s else Reset(s, startBlock, Apply(s, Advance(startBlock)))
  {
    InvalidateResets(s, startBlock);
  }

  /** A contract row after seeding, before a reset. */
  lemma SeededContract(s: Store, chain: Chain, manifest: seq<ManifestContract>, a: Address)
    requires Sound(s, chain)
    ensures var contracts := Registry.Seed(s.registry, s.ledger.startBlock, manifest).contracts;
            && (a in contracts <==> a in s.registry.contracts || SeedProofs.Configured(manifest, a))
            && (a in contracts ==> SeedProofs.Seeded(s.registry, s.ledger.startBlock, manifest, a, contracts[a]))
  {
    SeedProofs.SeededRow(s.registry, s.ledger.startBlock, Tip(s.ledger), chain, manifest, a);
  }

  /** Seeding touches the contract table only, unless the manifest has changed and something has been
      indexed: then everything is reset besides. With another start block it is refused. */
  lemma SeededStore(s: Store, startBlock: nat, manifest: seq<ManifestContract>)
    ensures var t := Apply(s, SeedManifest(startBlock, manifest));
            var seeded := Registry.Seed(s.registry, startBlock, manifest);
            && seeded.discoveries == s.registry.discoveries
            && if startBlock != s.ledger.startBlock then t == s
               else if Registry.ManifestChanged(s.registry, manifest) && s.ledger.indexedBlock.Some?
               then Reset(Store(s.ledger, seeded, s.tokens), startBlock, t)
               else t == Store(s.ledger, seeded, s.tokens)
  {
    InvalidateResets(s.(registry := Registry.Seed(s.registry, startBlock, manifest)), startBlock);
  }

  lemma InvalidateResets(s: Store, startBlock: nat)
    ensures Reset(s, startBlock, Invalidate(s, startBlock))
  {
  }

  /** Recording a deployment shows it in the row of the contract, if that is canonical, and changes nothing else. */
  lemma RecordedContract(s: Store, o: DeploymentObservation)
    ensures var t, a := Apply(s, RecordDeployment(o)), o.contractAddress;
            && t.ledger == s.ledger && t.tokens == s.tokens && t.registry.discoveries == s.registry.discoveries
            && t.registry.contracts.Keys == s.registry.contracts.Keys
            && (forall c :: c in s.registry.contracts && c != a ==> t.registry.contracts[c] == s.registry.contracts[c])
            && (a in s.registry.contracts ==>
                  t.registry.contracts[a] == if s.registry.contracts[a].canonical
                    then s.registry.contracts[a].(deployment := o.deployment, checkedBlock := Some(o.checkedBlock))
                    else s.registry.contracts[a])
  {
  }
}
