/** The database the indexer writes to: every method is one transaction, which stages its changes
    table by table and commits them only if nothing was refused on the way. */
module ScannerDatabase {
  import opened Records
  import opened LedgerProofs
  import opened Runs
  import Database
  import Ledger
  import Registry
  import RegistryProofs
  import Tokens

  /** The latest canonical discovery of an address, as "one row per address, highest block first" finds it. */
  method LatestDiscovery(discoveries: map<Registry.DiscoveryKey, Registry.DiscoveryRow>, a: Address)
    returns (latest: Option<Registry.DiscoveryKey>)
    ensures latest.None? <==> !Registry.HasDiscovery(discoveries, a)
    ensures latest.Some? ==> Registry.IsLatest(discoveries, a, latest.value)
  {
    latest := None;
    var rest := discoveries.Keys;
    while rest != {}
      invariant rest <= discoveries.Keys
      invariant latest.None? ==> forall k :: Registry.CanonicalDiscovery(discoveries, a, k) ==> k in rest
      invariant latest.Some? ==>
        && Registry.CanonicalDiscovery(discoveries, a, latest.value)
        && forall k :: Registry.CanonicalDiscovery(discoveries, a, k) && k !in rest ==>
             discoveries[k].number <= discoveries[latest.value].number
      decreases |rest|
    {
      var k :| k in rest;
      rest := rest - {k};
      if Registry.CanonicalDiscovery(discoveries, a, k)
         && (latest.None? || discoveries[latest.value].number < discoveries[k].number)
      {
        latest := Some(k);
      }
    }
  }

  /** The first discovery, in the order canonical first and then by block hash, that a manifest row
      below the start block goes back to. */
  method FirstRetained(r: Registry.Registry, startBlock: nat, a: Address) returns (first: Option<Registry.DiscoveryKey>)
    ensures first.None? <==> !exists k :: Registry.RetainedBy(r, startBlock, a, k)
    ensures first.Some? ==> Registry.FirstRetainedBy(r, startBlock, a, first.value)
  {
    first := None;
    var rest := r.discoveries.Keys;
    while rest != {}
      invariant rest <= r.discoveries.Keys
      invariant first.None? ==> forall k :: Registry.RetainedBy(r, startBlock, a, k) ==> k in rest
      invariant first.Some? ==>
        && Registry.RetainedBy(r, startBlock, a, first.value)
        && forall k :: Registry.RetainedBy(r, startBlock, a, k) && k !in rest ==> !Registry.Precedes(r, k, first.value)
      decreases |rest|
    {
      var k :| k in rest;
      rest := rest - {k};
      if Registry.RetainedBy(r, startBlock, a, k) && (first.None? || Registry.Precedes(r, k, first.value)) {
        first := Some(k);
      }
    }
  }

  method RestoreContracts(r: Registry.Registry, ghost chain: Chain)
    returns (contracts: map<Address, Registry.ContractRow>)
    requires RegistryProofs.DiscoveriesMatch(r.discoveries, chain)
    ensures contracts == Registry.Restore(r).contracts
  {
    contracts := r.contracts;
    var rest := r.contracts.Keys;
    while rest != {}
      invariant rest <= r.contracts.Keys && contracts.Keys == r.contracts.Keys
      invariant forall a :: a in rest ==> contracts[a] == r.contracts[a]
      invariant forall a :: a in r.contracts && a !in rest ==>
                  contracts[a] == Registry.RestoredRow(r.discoveries, a, r.contracts[a])
      decreases |rest|
    {
      var a :| a in rest;
      rest := rest - {a};
      var latest := LatestDiscovery(r.discoveries, a);
      RegistryProofs.LatestExists(r.discoveries, a);
      if latest.Some? {
        RegistryProofs.RestoredRowIs(r.discoveries, chain, a, r.contracts[a], latest.value);
        if !contracts[a].canonical {
          contracts := contracts[a := Registry.FromDiscovery(contracts[a], latest.value, r.discoveries[latest.value])];
        }
      }
    }
  }

  /** Two discoveries of one address at one position differ in their block hash only. */
  lemma FirstRetainedUnique(r: Registry.Registry, startBlock: nat, a: Address, j: Registry.DiscoveryKey, k: Registry.DiscoveryKey)
    requires Registry.FirstRetainedBy(r, startBlock, a, j) && Registry.FirstRetainedBy(r, startBlock, a, k)
    ensures j == k
  {
  }

  method RestoreRetained(r: Registry.Registry, startBlock: nat) returns (contracts: map<Address, Registry.ContractRow>)
    ensures contracts == Registry.RestoreRetained(r, startBlock).contracts
  {
    contracts := r.contracts;
    var rest := r.contracts.Keys;
    while rest != {}
      invariant rest <= r.contracts.Keys && contracts.Keys == r.contracts.Keys
      invariant forall a :: a in rest ==> contracts[a] == r.contracts[a]
      invariant forall a :: a in r.contracts && a !in rest ==> contracts[a] == Registry.RetainedRow(r, startBlock, a)
      decreases |rest|
    {
      var a :| a in rest;
      rest := rest - {a};
      if contracts[a].identity.provenance.Manifest? && !contracts[a].canonical {
        var first := FirstRetained(r, startBlock, a);
        if first.Some? {
          forall k | Registry.FirstRetainedBy(r, startBlock, a, k)
            ensures k == first.value
          {
            FirstRetainedUnique(r, startBlock, a, k, first.value);
          }
          contracts := contracts[a := contracts[a].(identity := r.discoveries[first.value].identity, canonical := true)];
        }
      }
    }
  }

  class ScannerDatabase {
    // networks
    var startBlock: nat
    var indexedBlock: Option<nat>
    var indexedHash: Option<Hash>
    // the remaining tables
    var blocks: map<Hash, Ledger.BlockRow>
    var evidence: map<EvidenceKey, Ledger.EvidenceRow>
    var cursors: map<Address, Ledger.CursorRow>
    var contracts: map<Address, Registry.ContractRow>
    var discoveries: map<Registry.DiscoveryKey, Registry.DiscoveryRow>
    var tokenMetadata: Tokens.TokenTable
    // the canonical chain the tables stand for
    ghost var chain: Chain
    // every transaction so far, refused ones included, on a database new at this start block
    ghost var steps: seq<Step>
    ghost const origin: nat

    ghost function Snapshot(): Database.Store
      reads this
    {
      Database.Store(Ledger.Ledger(startBlock, indexedBlock, indexedHash, blocks, evidence, cursors),
                     Registry.Registry(contracts, discoveries), tokenMetadata)
    }

    ghost predicate Valid()
      reads this
    {
      Sound(Snapshot(), chain) && Traced(origin, steps, Snapshot(), chain)
    }

    constructor (startBlock: nat)
      ensures Valid() && Snapshot() == Database.Created(startBlock) && chain == map[] && steps == [] && origin == startBlock
    {
      this.startBlock, indexedBlock, indexedHash := startBlock, None, None;
      blocks, evidence, cursors, contracts, discoveries, tokenMetadata := map[], map[], map[], map[], map[], map[];
      chain, steps, origin := map[], [], startBlock;
      new;
      EmptyHolds(startBlock);
    }

    lemma StepKeepsValid(step: Step)
      requires Valid() && Genuine(Snapshot(), step)
      ensures var s, next := Apply(Snapshot(), step), NextChain(Snapshot(), chain, step);
              Sound(s, next) && Traced(origin, steps + [step], s, next)
    {
      StepKeepsSound(Snapshot(), chain, step);
      TraceExtends(origin, steps, Snapshot(), chain, step);
    }

    /** Replaces the tables, and the chain they stand for, at the end of a transaction. */
    method Commit(after: Database.Store, ghost next: Chain)
      modifies this
      ensures Snapshot() == after && chain == next && steps == old(steps)
    {
      startBlock, indexedBlock, indexedHash := after.ledger.startBlock, after.ledger.indexedBlock, after.ledger.indexedHash;
      blocks, evidence, cursors := after.ledger.blocks, after.ledger.evidence, after.ledger.cursors;
      contracts, discoveries := after.registry.contracts, after.registry.discoveries;
      tokenMetadata := after.tokens;
      chain := next;
    }

    method StoreBlock(b: IndexedBlock) returns (error: Option<Database.DatabaseError>)
      requires Valid() && Genuine(Snapshot(), Append(b))
      modifies this
      ensures Valid()
      ensures Snapshot() == Apply(old(Snapshot()), Append(b))
      ensures chain == NextChain(old(Snapshot()), old(chain), Append(b))
      ensures steps == old(steps) + [Append(b)]
      ensures error.None? <==> Attempt(old(Snapshot()), Append(b)).Success?
    {
      StepKeepsValid(Append(b));
      var after;
      after, error := StageBlock(b);
      steps := steps + [Append(b)];
      if error.None? {
        Commit(after, chain[b.number := b]);
      }
    }

    method StageBlock(b: IndexedBlock) returns (after: Database.Store, error: Option<Database.DatabaseError>)
      ensures error.None? ==> Database.StoreBlock(Snapshot(), b) == Success(after)
      ensures error.Some? ==> Database.StoreBlock(Snapshot(), b).Failure?
    {
      after := Database.Store(Ledger.Ledger(startBlock, indexedBlock, indexedHash, blocks, evidence, cursors),
                              Registry.Registry(contracts, discoveries), tokenMetadata);
      var appendError := Ledger.AppendError(after.ledger, b);
      if appendError.Some? {
        return after, Some(Database.LedgerRefused(appendError.value));
      }
      var stagedBlocks := Ledger.UpsertBlock(blocks, b);
      if Ledger.CanonicalNumberClash(stagedBlocks, b.hash) {
        return after, Some(Database.LedgerRefused(Ledger.DuplicateCanonicalNumber));
      }
      var stagedTokens, tokenError := StageTokens(b);
      if tokenError.Some? {
        return after, Some(Database.TokensRefused(tokenError.value));
      }
      var stagedRegistry, registryError := StageContracts(b);
      if registryError.Some? {
        return after, Some(Database.RegistryRefused(registryError.value));
      }
      var stagedEvidence := Ledger.UpsertEvidence(evidence, b);
      var stagedCursors, cursorError := StageCursors(b);
      if cursorError.Some? {
        return after, Some(Database.LedgerRefused(cursorError.value));
      }
      stagedBlocks := Ledger.FinalizeBlocks(stagedBlocks, b.finalizedThrough);
      stagedEvidence := Ledger.FinalizeLogs(stagedEvidence, b.finalizedThrough);
      after := Database.Store(Ledger.Ledger(startBlock, Some(b.number), Some(b.hash), stagedBlocks, stagedEvidence, stagedCursors),
                              stagedRegistry, stagedTokens);
      error := None;
    }

    method StageTokens(b: IndexedBlock) returns (staged: Tokens.TokenTable, error: Option<Tokens.TokenError>)
      ensures error.None? ==> Tokens.Store(tokenMetadata, b.number, b.hash, b.tokenMetadata) == Success(staged)
      ensures error.Some? ==> Tokens.Store(tokenMetadata, b.number, b.hash, b.tokenMetadata).Failure?
    {
      staged, error := tokenMetadata, None;
      var ms := b.tokenMetadata;
      for i := 0 to |ms|
        invariant error.None? && Tokens.Store(tokenMetadata, b.number, b.hash, ms[..i]) == Success(staged)
      {
        if ms[i].readBlock != b.number {
          return staged, Some(Tokens.ReadOffBlock);
        }
        assert ms[..i + 1][..i] == ms[..i];
        staged := Tokens.Upsert(staged, b.hash, ms[i]);
      }
      assert ms[..|ms|] == ms;
    }

    method StageContracts(b: IndexedBlock) returns (staged: Registry.Registry, error: Option<Registry.RegistryError>)
      ensures error.None? ==> Registry.Store(Registry.Registry(contracts, discoveries), b) == Success(staged)
      ensures error.Some? ==> Registry.Store(Registry.Registry(contracts, discoveries), b).Failure?
    {
      staged, error := Registry.Registry(contracts, discoveries), None;
      var cs := b.contracts;
      for i := 0 to |cs|
        invariant error.None?
        invariant Registry.StoreContracts(Registry.Registry(contracts, discoveries), b.number, b.hash, cs[..i]) == Success(staged)
      {
        if cs[i].position.None? {
          return staged, Some(Registry.MissingPosition);
        }
        if cs[i].position.value.block != b.number {
          return staged, Some(Registry.DiscoveryOffBlock);
        }
        assert cs[..i + 1][..i] == cs[..i];
        staged := Registry.Registry(Registry.UpsertContract(staged.contracts, cs[i], b.number),
                                    Registry.UpsertDiscovery(staged.discoveries, b.hash, cs[i]));
      }
      assert cs[..|cs|] == cs;
      var found := staged;
      var os := b.observations;
      for i := 0 to |os|
        invariant error.None? && staged.discoveries == found.discoveries
        invariant Registry.StoreObservations(found.contracts, b.number, os[..i]) == Success(staged.contracts)
      {
        var observationError := Registry.ObservationError(b.number, os[i]);
        if observationError.Some? {
          return staged, observationError;
        }
        assert os[..i + 1][..i] == os[..i];
        staged := staged.(contracts := Registry.Observe(staged.contracts, os[i]));
      }
      assert os[..|os|] == os;
    }

    method StageCursors(b: IndexedBlock) returns (staged: map<Address, Ledger.CursorRow>, error: Option<Ledger.LedgerError>)
      ensures error.None? <==> Ledger.FirstCursorError(b.number, b.logScanCursors).None?
      ensures error.None? ==> staged == Ledger.UpsertCursors(cursors, b.logScanCursors)
    {
      staged, error := cursors, None;
      var cs := b.logScanCursors;
      for i := 0 to |cs|
        invariant error.None? && staged == Ledger.UpsertCursors(cursors, cs[..i])
        invariant forall j :: 0 <= j < i ==> Ledger.CursorError(b.number, cs[j]).None?
      {
        error := Ledger.CursorError(b.number, cs[i]);
        if error.Some? {
          return;
        }
        assert cs[..i + 1][..i] == cs[..i];
        staged := Ledger.UpsertCursor(staged, cs[i]);
      }
      assert cs[..|cs|] == cs;
    }

    method Checkpoint() returns (checkpoint: Option<BlockRef>)
      requires Valid()
      ensures checkpoint.None? <==> chain == map[]
      ensures checkpoint.Some? ==>
        && checkpoint.value.number == Tip(Snapshot().ledger)
        && checkpoint.value.number in chain && checkpoint.value.hash == chain[checkpoint.value.number].hash
    {
      if indexedBlock.None? || indexedHash.None? {
        assert forall n :: n !in chain;
        return None;
      }
      checkpoint := Some(BlockRef(indexedBlock.value, indexedHash.value));
    }

    method CanonicalHash(number: nat) returns (hash: Option<Hash>)
      requires Valid()
      ensures hash == if number in chain then Some(chain[number].hash) else None
    {
      if number in chain {
        assert HasBlock(blocks, number, chain[number]);
      }
      if h :| h in blocks && blocks[h].canonical && blocks[h].number == number {
        hash := Some(h);
      } else {
        hash := None;
      }
    }

    method Rewind(ancestor: int, ancestorHash: Option<Hash>) returns (error: Option<Database.DatabaseError>)
      requires Valid()
      modifies this
      ensures Valid()
      ensures Snapshot() == Apply(old(Snapshot()), RewindTo(ancestor, ancestorHash))
      ensures chain == NextChain(old(Snapshot()), old(chain), RewindTo(ancestor, ancestorHash))
      ensures steps == old(steps) + [RewindTo(ancestor, ancestorHash)]
      ensures error.None? <==> Attempt(old(Snapshot()), RewindTo(ancestor, ancestorHash)).Success?
    {
      StepKeepsValid(RewindTo(ancestor, ancestorHash));
      var after;
      after, error := StageRewind(ancestor, ancestorHash);
      steps := steps + [RewindTo(ancestor, ancestorHash)];
      if error.None? {
        Commit(after, Kept(chain, ancestor));
      }
    }

    method StageRewind(ancestor: int, ancestorHash: Option<Hash>)
      returns (after: Database.Store, error: Option<Database.DatabaseError>)
      requires RegistryProofs.DiscoveriesMatch(discoveries, chain)
      ensures error.None? ==> Database.Rewind(Snapshot(), ancestor, ancestorHash) == Success(after)
      ensures error.Some? ==> Database.Rewind(Snapshot(), ancestor, ancestorHash).Failure?
    {
      var ledger := Ledger.Ledger(startBlock, indexedBlock, indexedHash, blocks, evidence, cursors);
      after := Database.Store(ledger, Registry.Registry(contracts, discoveries), tokenMetadata);
      var targetError := Ledger.RewindError(ledger, ancestor, ancestorHash);
      if targetError.Some? {
        return after, Some(Database.LedgerRefused(targetError.value));
      }
      var stagedBlocks := Ledger.OrphanBlocks(blocks, ancestor);
      var stagedEvidence := Ledger.OrphanEvidence(evidence, ancestor);
      var stagedCursors := Ledger.RewindCursors(cursors, ancestor);
      var stagedRegistry := StageRegistryRewind(ancestor);
      var stagedTokens := Tokens.Restore(Tokens.Orphan(tokenMetadata, ancestor), stagedBlocks);
      if Tokens.Clash(stagedTokens) {
        return after, Some(Database.TokensRefused(Tokens.DuplicateCanonicalToken));
      }
      after := Database.Store(Ledger.Ledger(startBlock, if ancestor < 0 then None else Some(ancestor), ancestorHash,
                                            stagedBlocks, stagedEvidence, stagedCursors),
                              stagedRegistry, stagedTokens);
      error := None;
    }

    method StageRegistryRewind(ancestor: int) returns (staged: Registry.Registry)
      requires RegistryProofs.DiscoveriesMatch(discoveries, chain)
      ensures staged == Registry.Rewind(Registry.Registry(contracts, discoveries), startBlock, ancestor)
    {
      var stagedDiscoveries := Registry.OrphanDiscoveries(discoveries, ancestor);
      var stagedContracts := map a | a in contracts ::
          Registry.OrphanContract(Registry.ForgetDeployment(contracts[a], ancestor), startBlock, ancestor);
      RegistryProofs.RewindKeepsDiscoveries(discoveries, chain, ancestor);
      stagedContracts := RestoreContracts(Registry.Registry(stagedContracts, stagedDiscoveries), Kept(chain, ancestor));
      staged := Registry.Registry(stagedContracts, stagedDiscoveries);
    }

    method AdvanceNetworkStartBlock(newStart: nat) returns (advanced: bool)
      requires Valid()
      modifies this
      ensures Valid()
      ensures Snapshot() == Apply(old(Snapshot()), Advance(newStart))
      ensures chain == NextChain(old(Snapshot()), old(chain), Advance(newStart))
      ensures steps == old(steps) + [Advance(newStart)]
      ensures advanced <==> newStart > old(startBlock)
    {
      StepKeepsValid(Advance(newStart));
      steps := steps + [Advance(newStart)];
      if newStart <= startBlock {
        return false;
      }
      InvalidateCanonicalHistory(newStart);
      startBlock := newStart;
      advanced := true;
    }

    /** Discards canonical history; discovered contracts survive only below `floor`. */
    method InvalidateCanonicalHistory(floor: nat)
      modifies this
      ensures startBlock == old(startBlock) && indexedBlock.None? && indexedHash.None? && chain == map[] && steps == old(steps)
      ensures blocks == Ledger.InvalidateBlocks(old(blocks)) && evidence == Ledger.InvalidateEvidence(old(evidence)) && cursors == map[]
      ensures Registry.Registry(contracts, discoveries) == Registry.Invalidate(Registry.Registry(old(contracts), old(discoveries)), floor)
      ensures tokenMetadata == Tokens.Invalidate(old(tokenMetadata))
    {
      var stagedBlocks := Ledger.InvalidateBlocks(blocks);
      var stagedEvidence := Ledger.InvalidateEvidence(evidence);
      var stagedTokens := Tokens.Invalidate(tokenMetadata);
      var stagedRegistry := Registry.Invalidate(Registry.Registry(contracts, discoveries), floor);
      Commit(Database.Store(Ledger.Ledger(startBlock, None, None, stagedBlocks, stagedEvidence, map[]), stagedRegistry, stagedTokens), map[]);
    }

    method RecordContractDeployment(o: DeploymentObservation)
      requires Valid() && Genuine(Snapshot(), RecordDeployment(o))
      modifies this
      ensures Valid()
      ensures Snapshot() == Apply(old(Snapshot()), RecordDeployment(o)) && chain == old(chain)
      ensures steps == old(steps) + [RecordDeployment(o)]
    {
      StepKeepsValid(RecordDeployment(o));
      RecordedStore(Snapshot(), chain, o);
      contracts, steps := Registry.Observe(contracts, o), steps + [RecordDeployment(o)];
    }

    method SeedNetwork(configuredStart: nat, manifest: seq<ManifestContract>) returns (error: Option<Database.DatabaseError>)
      requires Valid()
      modifies this
      ensures Valid()
      ensures Snapshot() == Apply(old(Snapshot()), SeedManifest(configuredStart, manifest))
      ensures chain == NextChain(old(Snapshot()), old(chain), SeedManifest(configuredStart, manifest))
      ensures steps == old(steps) + [SeedManifest(configuredStart, manifest)]
      ensures error.None? <==> Attempt(old(Snapshot()), SeedManifest(configuredStart, manifest)).Success?
    {
      StepKeepsValid(SeedManifest(configuredStart, manifest));
      steps := steps + [SeedManifest(configuredStart, manifest)];
      if configuredStart != startBlock {
        return Some(Database.StartBlockMismatch);
      }
      var changed := Registry.ManifestChanged(Registry.Registry(contracts, discoveries), manifest);
      var staged := StageManifest(manifest);
      staged := RestoreContracts(Registry.Registry(staged, discoveries), chain);
      staged := RestoreRetained(Registry.Registry(staged, discoveries), startBlock);
      contracts := Registry.RetireManifest(staged);
      if changed && indexedBlock.Some? {
        InvalidateCanonicalHistory(startBlock);
      }
      error := None;
    }

    method StageManifest(manifest: seq<ManifestContract>) returns (staged: map<Address, Registry.ContractRow>)
      ensures staged == Registry.UpsertManifests(Registry.UnseedManifest(contracts), manifest)
    {
      staged := Registry.UnseedManifest(contracts);
      for i := 0 to |manifest|
        invariant staged == Registry.UpsertManifests(Registry.UnseedManifest(contracts), manifest[..i])
      {
        assert manifest[..i + 1][..i] == manifest[..i];
        staged := Registry.UpsertManifest(staged, manifest[i]);
      }
      assert manifest[..|manifest|] == manifest;
    }
  }
}
