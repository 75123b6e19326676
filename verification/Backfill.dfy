/** Finding the history that a manifest contract is still missing, and going back to before it. */
module Backfill {
  import opened Records
  import opened LedgerProofs
  import opened Runs
  import opened Coverage
  import opened Rules
  import Database
  import Ledger
  import Reorg
  import Tokens
  import Scanner = ScannerDatabase

  /** An entry of the configured manifest. */
  datatype Entry = Entry(contract: ManifestContract, deploymentBlock: Option<int>)

  type CursorTable = map<Address, Ledger.CursorRow>

  type DeploymentFinder = (Address, int, int, bool) -> Option<Deployment>

  predicate RequiresManifestHistoryCoverage(kind: string) {
    IsProtocolActivitySource(kind) || kind == "reputationToken" || kind == "weth" || kind == "usdc"
  }

  // ---------------------------------------------------------------- one contract

  /** A deployment on file that may stem from another role of the contract is not relied on. */
  predicate RequiresFreshSearch(m: Entry, contracts: Contracts) {
    && m.deploymentBlock.None?
    && m.contract.address in contracts
    && var stored := contracts[m.contract.address];
       && !(stored.deployment.Some? && stored.deployment.value.exact)
       && (!stored.identity.provenance.Manifest? || !RequiresManifestHistoryCoverage(stored.identity.kind))
  }

  function StoredDeployment(m: Entry, contracts: Contracts): Option<int> {
    if m.contract.address in contracts && contracts[m.contract.address].deployment.Some?
    then Some(contracts[m.contract.address].deployment.value.block)
    else None
  }

  function KnownDeployment(m: Entry, contracts: Contracts): Option<int> {
    if m.deploymentBlock.Some? then m.deploymentBlock
    else if RequiresFreshSearch(m, contracts) then None
    else StoredDeployment(m, contracts)
  }

  function CheckedBlock(m: Entry, contracts: Contracts): Option<int> {
    if m.contract.address in contracts then contracts[m.contract.address].checkedBlock else None
  }

  /** Looking for a deployment that is not known. */
  function SearchedDeployment(m: Entry, contracts: Contracts, checkpoint: int, configuredStart: int, activeStart: int, find: DeploymentFinder): Option<int> {
    var freshSearch, checked := RequiresFreshSearch(m, contracts), CheckedBlock(m, contracts);
    var searchStart := Max(activeStart, if freshSearch || checked.None? then configuredStart else checked.value);
    if searchStart >= checkpoint && checked.Some? && !freshSearch then None
    else
      var found := find(m.contract.address, searchStart, checkpoint, !freshSearch && checked.Some?);
      if found.None? then None else Some(Max(found.value.block, activeStart))
  }

  function ClaimedThrough(m: Entry, cursors: CursorTable, checkpoint: int, deployment: Option<int>): bool {
    && m.contract.address in cursors
    && cursors[m.contract.address].lastRetrievedBlock >= checkpoint
    && (deployment.None? || cursors[m.contract.address].startBlock <= deployment.value)
  }

  /** The block from which the contract's history has to be there. */
  function DeploymentOf(m: Entry, contracts: Contracts, cursors: CursorTable, checkpoint: int, configuredStart: int, activeStart: int,
                        find: DeploymentFinder): Option<int>
  {
    var known := KnownDeployment(m, contracts);
    if known.Some? then Some(Max(known.value, activeStart))
    else if !RequiresFreshSearch(m, contracts) && ClaimedThrough(m, cursors, checkpoint, None) then None
    else SearchedDeployment(m, contracts, checkpoint, configuredStart, activeStart, find)
  }

  function MissingStart(m: Entry, contracts: Contracts, cursors: CursorTable, checkpoint: int, configuredStart: int, activeStart: int,
                        find: DeploymentFinder): Option<int>
  {
    var deployment := DeploymentOf(m, contracts, cursors, checkpoint, configuredStart, activeStart, find);
    if !RequiresManifestHistoryCoverage(m.contract.kind) then None
    else if !RequiresFreshSearch(m, contracts) && ClaimedThrough(m, cursors, checkpoint, deployment) then None
    else if deployment.None? || deployment.value > checkpoint then None
    else
      var a := m.contract.address;
      var cursorMissing := if a !in cursors || cursors[a].startBlock > deployment.value then deployment.value
                           else cursors[a].lastRetrievedBlock + 1;
      var missing := Max(cursorMissing, activeStart);
      if missing <= checkpoint then Some(missing) else None
  }

  /** Block `n` of the contract's history is not claimed by its cursor. */
  predicate Unclaimed(cursors: CursorTable, a: Address, deployment: int, checkpoint: int, n: int) {
    && deployment <= n <= checkpoint
    && !(a in cursors && cursors[a].startBlock <= n <= cursors[a].lastRetrievedBlock)
  }

  /** A contract's missing start is at or before every unclaimed block of its history, and itself
      unclaimed if it lies in that history; without one, nothing is unclaimed. */
  lemma MissingIsLeastUnclaimed(m: Entry, contracts: Contracts, cursors: CursorTable, checkpoint: int, configuredStart: int, activeStart: int,
                                find: DeploymentFinder)
    requires RequiresManifestHistoryCoverage(m.contract.kind)
    requires DeploymentOf(m, contracts, cursors, checkpoint, configuredStart, activeStart, find).Some?
    ensures var missing := MissingStart(m, contracts, cursors, checkpoint, configuredStart, activeStart, find);
            var deployment := DeploymentOf(m, contracts, cursors, checkpoint, configuredStart, activeStart, find).value;
            && (missing.Some? ==> forall n :: Unclaimed(cursors, m.contract.address, deployment, checkpoint, n) ==> missing.value <= n)
            && (missing.Some? && deployment <= missing.value ==>
                  Unclaimed(cursors, m.contract.address, deployment, checkpoint, missing.value))
            && (missing.None? ==> forall n :: !Unclaimed(cursors, m.contract.address, deployment, checkpoint, n))
  {
  }

  // ---------------------------------------------------------------- all contracts

  /** The least missing start over all manifest contracts. */
  ghost predicate IsLeastMissing(ms: seq<Entry>, contracts: Contracts, cursors: CursorTable, checkpoint: int, configuredStart: int,
                                 activeStart: int, find: DeploymentFinder, start: Option<int>)
  {
    && (start.None? ==> forall i :: 0 <= i < |ms| ==>
          MissingStart(ms[i], contracts, cursors, checkpoint, configuredStart, activeStart, find).None?)
    && (start.Some? ==>
          && activeStart <= start.value <= checkpoint
          && (exists i :: 0 <= i < |ms| && MissingStart(ms[i], contracts, cursors, checkpoint, configuredStart, activeStart, find) == start)
          && forall i :: 0 <= i < |ms| ==>
               var missing := MissingStart(ms[i], contracts, cursors, checkpoint, configuredStart, activeStart, find);
               missing.Some? ==> start.value <= missing.value)
  }

  lemma LeastOfMore(ms: seq<Entry>, m: Entry, contracts: Contracts, cursors: CursorTable, checkpoint: int, configuredStart: int,
                    activeStart: int, find: DeploymentFinder, start: Option<int>)
    requires IsLeastMissing(ms, contracts, cursors, checkpoint, configuredStart, activeStart, find, start)
    ensures var missing := MissingStart(m, contracts, cursors, checkpoint, configuredStart, activeStart, find);
            IsLeastMissing(ms + [m], contracts, cursors, checkpoint, configuredStart, activeStart, find,
                           if missing.Some? && (start.None? || missing.value < start.value) then missing else start)
  {
    var more := ms + [m];
    assert more[|ms|] == m && forall i :: 0 <= i < |ms| ==> more[i] == ms[i];
    if start.Some? {
      var i :| 0 <= i < |ms| && MissingStart(ms[i], contracts, cursors, checkpoint, configuredStart, activeStart, find) == start;
      assert MissingStart(more[i], contracts, cursors, checkpoint, configuredStart, activeStart, find) == start;
    }
  }

  method SearchDeployment(m: Entry, contracts: Contracts, checkpoint: int, configuredStart: int, activeStart: int, find: DeploymentFinder)
    returns (deployment: Option<int>)
    ensures deployment == SearchedDeployment(m, contracts, checkpoint, configuredStart, activeStart, find)
  {
    var freshSearch := RequiresFreshSearch(m, contracts);
    var checked := CheckedBlock(m, contracts);
    var previousSearchStart := if freshSearch || checked.None? then configuredStart else checked.value;
    var searchStart := Max(previousSearchStart, activeStart);
    if searchStart >= checkpoint && checked.Some? && !freshSearch {
      return None;
    }
    var found := find(m.contract.address, searchStart, checkpoint, !freshSearch && checked.Some?);
    deployment := if found.None? then None else Some(Max(found.value.block, activeStart));
  }

  method MissingStartOf(m: Entry, contracts: Contracts, cursors: CursorTable, checkpoint: int, configuredStart: int, activeStart: int,
                        find: DeploymentFinder)
    returns (missingStart: Option<int>)
    ensures missingStart == MissingStart(m, contracts, cursors, checkpoint, configuredStart, activeStart, find)
  {
    if !RequiresManifestHistoryCoverage(m.contract.kind) {
      return None;
    }
    var freshSearch := RequiresFreshSearch(m, contracts);
    var known := KnownDeployment(m, contracts);
    var deployment := if known.None? || known.value > activeStart then known else Some(activeStart);
    if !freshSearch && ClaimedThrough(m, cursors, checkpoint, deployment) {
      return None;
    }
    if deployment.None? {
      deployment := SearchDeployment(m, contracts, checkpoint, configuredStart, activeStart, find);
      if deployment.None? {
        return None;
      }
    }
    if deployment.value > checkpoint {
      return None;
    }
    var a := m.contract.address;
    var cursorMissing := if a !in cursors || cursors[a].startBlock > deployment.value then deployment.value
                         else cursors[a].lastRetrievedBlock + 1;
    var missing := Max(cursorMissing, activeStart);
    return if missing <= checkpoint then Some(missing) else None;
  }

  method PlanManifestBackfill(ms: seq<Entry>, contracts: Contracts, cursors: CursorTable, checkpoint: int, configuredStart: int,
                              find: DeploymentFinder, coverageStart: int)
    returns (replayStart: Option<int>)
    ensures IsLeastMissing(ms, contracts, cursors, checkpoint, configuredStart, Max(coverageStart, configuredStart), find, replayStart)
  {
    var activeStart := Max(coverageStart, configuredStart);
    replayStart := None;
    for i := 0 to |ms|
      invariant IsLeastMissing(ms[..i], contracts, cursors, checkpoint, configuredStart, activeStart, find, replayStart)
    {
      var missing := MissingStartOf(ms[i], contracts, cursors, checkpoint, configuredStart, activeStart, find);
      LeastOfMore(ms[..i], ms[i], contracts, cursors, checkpoint, configuredStart, activeStart, find, replayStart);
      assert ms[..i + 1] == ms[..i] + [ms[i]];
      if missing.Some? && (replayStart.None? || missing.value < replayStart.value) {
        replayStart := missing;
      }
    }
    assert ms[..|ms|] == ms;
  }

  // ---------------------------------------------------------------- going back

  /** Refuses a start before the stored one, which the planner never returns. */
  function ManifestReplayAncestor(replayStart: int, storedStart: int): Option<int> {
    if replayStart < storedStart then None
    else if replayStart == storedStart then Some(-1)
    else Some(replayStart - 1)
  }

  /** The planner clamps to the stored start, so what it returns always gives a legal rewind target:
      neither the refusal nor a missing ancestor can occur. */
  lemma ReplayAncestorIsLegal(s: Database.Store, chain: Chain, start: int)
    requires Sound(s, chain) && s.ledger.indexedBlock.Some? && s.ledger.startBlock <= start <= Tip(s.ledger)
    ensures var ancestor := ManifestReplayAncestor(start, s.ledger.startBlock);
            && ancestor.Some?
            && (ancestor.value >= 0 ==> ancestor.value in chain)
            && Ledger.Rewind(s.ledger, ancestor.value, if ancestor.value < 0 then None else Some(chain[ancestor.value].hash)).Success?
  {
    var ancestor := ManifestReplayAncestor(start, s.ledger.startBlock).value;
    RewindAcceptsExactly(s.ledger, chain, ancestor, if ancestor < 0 then None else Some(chain[ancestor].hash));
  }

  datatype BackfillError = HistoryBeforeStart | AncestorMissing | Refused

  /** The rows that are read: the canonical ones. */
  function CanonicalContracts(contracts: Contracts): (read: Contracts)
    ensures forall a :: a in read <==> a in contracts && contracts[a].canonical
    ensures forall a :: a in read ==> read[a] == contracts[a]
  {
    map a | a in contracts && contracts[a].canonical :: contracts[a]
  }

  method RewindForReplay(db: Scanner.ScannerDatabase, replayStart: int) returns (error: Option<BackfillError>)
    requires db.Valid() && db.indexedBlock.Some? && db.startBlock <= replayStart <= db.indexedBlock.value
    modifies db
    ensures db.Valid()
    ensures error.Some? ==> error.value.Refused? && !Tokens.Current(old(db.tokenMetadata), old(db.chain))
    ensures error.Some? ==> Reorg.Unchanged(db, old(db.Snapshot()), old(db.chain))
    ensures error.None? ==>
      db.chain == Kept(old(db.chain), replayStart - 1) && db.startBlock == old(db.startBlock) && Next(db.Snapshot().ledger) == replayStart
    ensures MaybeRewound(old(db.Snapshot()), old(db.chain), db.Snapshot(), db.chain) && Reorg.OnlyRewound(old(db.steps), db.steps)
  {
    ghost var s, chain := db.Snapshot(), db.chain;
    ReplayAncestorIsLegal(s, chain, replayStart);
    var ancestor := ManifestReplayAncestor(replayStart, db.startBlock);
    if ancestor.None? {
      return Some(HistoryBeforeStart);
    }
    var ancestorHash: Option<Hash> := None;
    if ancestor.value >= 0 {
      ancestorHash := db.CanonicalHash(ancestor.value);
      if ancestorHash.None? {
        return Some(AncestorMissing);
      }
    }
    var refusal := Reorg.RewindTo(db, ancestor.value, ancestorHash);
    if refusal.Some? {
      return Some(Refused);
    }
    RewoundTo(s, chain, replayStart, ancestor.value, db.Snapshot(), db.chain);
    error := None;
  }

  /** Rewinds to right before the least missing block, if there is one. The only way to fail is a
      refusal for token metadata that is not current. */
  method ReconcileManifestBackfill(db: Scanner.ScannerDatabase, ms: seq<Entry>, configuredStart: int, find: DeploymentFinder)
    returns (replayStart: Option<int>, error: Option<BackfillError>)
    requires db.Valid()
    modifies db
    ensures db.Valid()
    ensures error.Some? ==> error.value.Refused? && !Tokens.Current(old(db.tokenMetadata), old(db.chain))
    ensures error.Some? || replayStart.None? ==> Reorg.Unchanged(db, old(db.Snapshot()), old(db.chain))
    ensures old(db.indexedBlock).None? ==> replayStart.None?
    ensures old(db.indexedBlock).Some? ==>
      IsLeastMissing(ms, CanonicalContracts(old(db.contracts)), old(db.cursors), old(db.indexedBlock).value, configuredStart,
                     Max(old(db.startBlock), configuredStart), find, replayStart)
    ensures MaybeRewound(old(db.Snapshot()), old(db.chain), db.Snapshot(), db.chain) && Reorg.OnlyRewound(old(db.steps), db.steps)
    ensures error.None? && replayStart.Some? ==>
      db.chain == Kept(old(db.chain), replayStart.value - 1) && db.startBlock == old(db.startBlock) && Next(db.Snapshot().ledger) == replayStart.value
  {
    error := None;
    var checkpoint := db.Checkpoint();
    NoCheckpoint(db.Snapshot(), db.chain);
    if checkpoint.None? {
      return None, None;
    }
    replayStart := PlanManifestBackfill(ms, CanonicalContracts(db.contracts), db.cursors, checkpoint.value.number, configuredStart, find, db.startBlock);
    if replayStart.Some? {
      error := RewindForReplay(db, replayStart.value);
    }
  }

  lemma NoCheckpoint(s: Database.Store, chain: Chain)
    requires Sound(s, chain)
    ensures s.ledger.indexedBlock.None? <==> chain == map[]
    ensures s.ledger.indexedBlock.Some? ==> Tip(s.ledger) in chain
  {
    assert s.ledger.indexedBlock.Some? ==> Tip(s.ledger) in chain;
    if s.ledger.indexedBlock.None? {
      assert forall n :: n !in chain;
      assert chain == map[];
    }
  }

  lemma RewoundTo(s: Database.Store, chain: Chain, start: int, ancestor: int, t: Database.Store, after: Chain)
    requires Sound(s, chain) && s.ledger.startBlock <= start <= Tip(s.ledger) && Some(ancestor) == ManifestReplayAncestor(start, s.ledger.startBlock)
    requires Sound(t, after) && t.ledger.startBlock == s.ledger.startBlock && after == Kept(chain, ancestor)
    ensures Next(t.ledger) == start && after == Kept(chain, start - 1)
  {
    if start > s.ledger.startBlock {
      assert start - 1 in chain && start - 1 in after;
      assert t.ledger.indexedBlock.Some? && Tip(t.ledger) in after;
    } else {
      assert t.ledger.indexedBlock.Some? ==> Tip(t.ledger) in after;
    }
  }
}
