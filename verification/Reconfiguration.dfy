/** What the backfill is for: when deployment blocks have been added or changed in the configuration, it
    goes back far enough that everything the new configuration wants is either on file or still to
    come; and once a segment has been indexed from there to its end, nothing is missing any more. */
module Reconfiguration {
  import opened Records
  import opened LedgerProofs
  import opened Runs
  import opened World
  import opened Node
  import opened Coverage
  import opened CoverageProofs
  import opened Backfill
  import opened PollSegments
  import opened Readiness
  import opened Settling
  import opened Indexer
  import Database
  import Scanner = ScannerDatabase

  // ---------------------------------------------------------------- one contract

  /** A block the cursor claims is covered under the configuration the cursor was written with. */
  lemma ClaimedIsStored(w: World, before: Overlay, s: Database.Store, chain: Chain, a: Address, n: int)
    requires Tracking(w, before, s, chain) && ClaimKept(before, s, a)
    requires a in s.registry.contracts && Followed(s.registry.contracts[a])
    requires a in s.ledger.cursors && s.ledger.cursors[a].startBlock <= n && n in chain
    ensures EvidenceStored(w, a, chain[n])
  {
  }

  /** Below the replay start, the cursor claims all of a configured contract's history. */
  lemma NothingUnclaimedBelow(ms: seq<Entry>, i: nat, s: Database.Store, configured: Overlay, configuredStart: int, find: DeploymentFinder,
                              replayStart: Option<int>, n: int)
    requires i < |ms| && EntryOnFile(ms[i], configured, s) && ms[i].deploymentBlock.Some? && configuredStart <= s.ledger.startBlock
    requires RequiresManifestHistoryCoverage(ms[i].contract.kind)
    requires IsLeastMissing(ms, CanonicalContracts(s.registry.contracts), s.ledger.cursors, Tip(s.ledger), configuredStart,
                            s.ledger.startBlock, find, replayStart)
    requires Max(s.ledger.startBlock, configured[ms[i].contract.address]) <= n <= Tip(s.ledger)
    requires replayStart.Some? ==> n < replayStart.value
    ensures var a := ms[i].contract.address;
            a in s.ledger.cursors && s.ledger.cursors[a].startBlock <= n <= s.ledger.cursors[a].lastRetrievedBlock
  {
    MissingIsLeastUnclaimed(ms[i], CanonicalContracts(s.registry.contracts), s.ledger.cursors, Tip(s.ledger), configuredStart,
                            s.ledger.startBlock, find);
    var deployment := DeploymentOf(ms[i], CanonicalContracts(s.registry.contracts), s.ledger.cursors, Tip(s.ledger), configuredStart,
                                   s.ledger.startBlock, find).value;
    assert Unclaimed(s.ledger.cursors, ms[i].contract.address, deployment, Tip(s.ledger), n) <==>
           !(ms[i].contract.address in s.ledger.cursors
             && s.ledger.cursors[ms[i].contract.address].startBlock <= n <= s.ledger.cursors[ms[i].contract.address].lastRetrievedBlock);
  }

  // ---------------------------------------------------------------- all of them

  /** Every configured deployment is that of a manifest entry on file. */
  ghost predicate EntriesOnFile(ms: seq<Entry>, configured: Overlay, s: Database.Store) {
    forall a :: a in configured ==> exists i :: 0 <= i < |ms| && ms[i].contract.address == a && EntryOnFile(ms[i], configured, s)
  }

  ghost predicate ClaimsKept(before: Overlay, configured: Overlay, s: Database.Store) {
    forall a {:trigger ClaimKept(before, s, a)} :: a in configured ==> ClaimKept(before, s, a)
  }

  lemma ContractCovered(w: World, before: Overlay, configured: Overlay, ms: seq<Entry>, s: Database.Store, chain: Chain,
                        configuredStart: int, find: DeploymentFinder, replayStart: Option<int>, a: Address, n: int)
    requires Ready(s, chain, w, before) && before.Keys <= configured.Keys && ClaimsKept(before, configured, s)
    requires EntriesOnFile(ms, configured, s) && configuredStart <= s.ledger.startBlock
    requires IsLeastMissing(ms, CanonicalContracts(s.registry.contracts), s.ledger.cursors, Tip(s.ledger), configuredStart,
                            s.ledger.startBlock, find, replayStart)
    requires a in s.registry.contracts && Followed(s.registry.contracts[a])
    requires EffectiveStart(s.ledger.startBlock, configured, a, s.registry.contracts[a]) <= n && n in chain
    requires replayStart.Some? ==> n < replayStart.value
    ensures EvidenceStored(w, a, chain[n])
  {
    if a in configured {
      var i :| 0 <= i < |ms| && ms[i].contract.address == a && EntryOnFile(ms[i], configured, s);
      assert n <= Tip(s.ledger);
      NothingUnclaimedBelow(ms, i, s, configured, configuredStart, find, replayStart, n);
      assert ClaimKept(before, s, a);
      ClaimedIsStored(w, before, s, chain, a, n);
    } else {
      assert CoveredFrom(w, EffectiveStart(s.ledger.startBlock, before, a, s.registry.contracts[a]), a, chain);
    }
  }

  lemma RewoundRowSame(configured: Overlay, s: Database.Store, chain: Chain, t: Database.Store, after: Chain, a: Address)
    requires Sound(s, chain) && MaybeRewound(s, chain, t, after)
    requires OverlayIsManifest(configured, s.registry.contracts) && AnnouncedOnce(s.registry.discoveries)
    requires a in t.registry.contracts && t.registry.contracts[a].canonical
    ensures a in s.registry.contracts && SameTracking(s.registry.contracts[a], t.registry.contracts[a])
    ensures t.ledger.startBlock == s.ledger.startBlock
  {
    if !(t == s && after == chain) {
      var ancestor, ancestorHash :| StepsTo(s, chain, RewindTo(ancestor, ancestorHash), t, after);
      if Database.Rewind(s, ancestor, ancestorHash).Success? {
        RewoundRowIs(configured, s, chain, ancestor, ancestorHash, a);
      }
    }
  }

  /** Under a configuration with new or changed deployment blocks, what the backfill leaves is covered
      again, provided the cursors of the configured contracts were in order. */
  lemma BackfillCovers(w: World, before: Overlay, configured: Overlay, ms: seq<Entry>, s: Database.Store, chain: Chain,
                       configuredStart: int, find: DeploymentFinder, replayStart: Option<int>, t: Database.Store, after: Chain)
    requires Ready(s, chain, w, before) && before.Keys <= configured.Keys && ClaimsKept(before, configured, s)
    requires ConfiguredSeeded(s, configured) && EntriesOnFile(ms, configured, s) && configuredStart <= s.ledger.startBlock
    requires IsLeastMissing(ms, CanonicalContracts(s.registry.contracts), s.ledger.cursors, Tip(s.ledger), configuredStart,
                            s.ledger.startBlock, find, replayStart)
    requires MaybeRewound(s, chain, t, after) && (if replayStart.Some? then after == Kept(chain, replayStart.value - 1) else after == chain)
    ensures Covered(w, configured, t, after)
  {
    forall a | a in t.registry.contracts && Followed(t.registry.contracts[a])
      ensures CoveredFrom(w, EffectiveStart(t.ledger.startBlock, configured, a, t.registry.contracts[a]), a, after)
    {
      RewoundRowSame(before, s, chain, t, after, a);
      CoveredBelowReplay(w, before, configured, ms, s, chain, configuredStart, find, replayStart, a, after);
    }
  }

  lemma CoveredBelowReplay(w: World, before: Overlay, configured: Overlay, ms: seq<Entry>, s: Database.Store, chain: Chain,
                             configuredStart: int, find: DeploymentFinder, replayStart: Option<int>, a: Address, after: Chain)
    requires Ready(s, chain, w, before) && before.Keys <= configured.Keys && ClaimsKept(before, configured, s)
    requires EntriesOnFile(ms, configured, s) && configuredStart <= s.ledger.startBlock
    requires IsLeastMissing(ms, CanonicalContracts(s.registry.contracts), s.ledger.cursors, Tip(s.ledger), configuredStart,
                            s.ledger.startBlock, find, replayStart)
    requires a in s.registry.contracts && Followed(s.registry.contracts[a])
    requires if replayStart.Some? then after == Kept(chain, replayStart.value - 1) else after == chain
    ensures CoveredFrom(w, EffectiveStart(s.ledger.startBlock, configured, a, s.registry.contracts[a]), a, after)
  {
    forall n | n in after && EffectiveStart(s.ledger.startBlock, configured, a, s.registry.contracts[a]) <= n
      ensures EvidenceStored(w, a, after[n])
    {
      ContractCovered(w, before, configured, ms, s, chain, configuredStart, find, replayStart, a, n);
    }
  }

  lemma RewoundStaysConfigured(configured: Overlay, s: Database.Store, chain: Chain, t: Database.Store, after: Chain)
    requires ConfiguredSeeded(s, configured) && MaybeRewound(s, chain, t, after)
    ensures ConfiguredSeeded(t, configured)
  {
    if !(t == s && after == chain) {
      var ancestor, ancestorHash :| StepsTo(s, chain, RewindTo(ancestor, ancestorHash), t, after);
      if Database.Rewind(s, ancestor, ancestorHash).Success? {
        RewindKeepsConfigured(configured, s, ancestor, ancestorHash);
      }
    }
  }

  lemma BackfilledIsReady(w: World, before: Overlay, configured: Overlay, s: Database.Store, chain: Chain, t: Database.Store, after: Chain)
    requires Ready(s, chain, w, before) && ConfiguredSeeded(s, configured)
    requires MaybeRewound(s, chain, t, after) && Covered(w, configured, t, after)
    ensures Ready(t, after, w, configured)
  {
    MaybeRewoundStaysReady(s, chain, w, before, t, after);
    RewoundStaysConfigured(configured, s, chain, t, after);
  }

  /** The backfill at the start of a session with configuration `configured`: unless it is refused, the
      database is ready for that configuration. */
  method Reconfigure(db: Scanner.ScannerDatabase, ms: seq<Entry>, configuredStart: int, find: DeploymentFinder,
                     ghost w: World, ghost before: Overlay, ghost configured: Overlay)
    returns (replayStart: Option<int>, error: Option<BackfillError>)
    requires InOperation(db, w, before) && before.Keys <= configured.Keys && ClaimsKept(before, configured, db.Snapshot())
    requires ConfiguredSeeded(db.Snapshot(), configured) && EntriesOnFile(ms, configured, db.Snapshot()) && configuredStart <= db.startBlock
    modifies db
    ensures error.None? ==> InOperation(db, w, configured) && db.startBlock == old(db.startBlock)
    ensures error.Some? ==> InOperation(db, w, before)
    ensures ManifestKept(old(db.Snapshot()), db.Snapshot())
    ensures error.None? && replayStart.Some? ==> Next(db.Snapshot().ledger) == replayStart.value
  {
    ghost var s, chain := db.Snapshot(), db.chain;
    replayStart, error := ReconcileManifestBackfill(db, ms, configuredStart, find);
    RewindKeepsManifest(s, chain, db.Snapshot(), db.chain);
    MaybeRewoundStaysReady(s, chain, w, before, db.Snapshot(), db.chain);
    if error.None? {
      if s.ledger.indexedBlock.None? {
        NoCheckpoint(s, chain);
      } else {
        BackfillCovers(w, before, configured, ms, s, chain, configuredStart, find, replayStart, db.Snapshot(), db.chain);
      }
      BackfilledIsReady(w, before, configured, s, chain, db.Snapshot(), db.chain);
    }
  }

  // ---------------------------------------------------------------- one replay settles it

  predicate AllOnFile(ms: seq<Entry>, configured: Overlay, s: Database.Store) {
    forall i :: 0 <= i < |ms| ==> EntryOnFile(ms[i], configured, s)
  }

  /** Every entry whose history is wanted has a known deployment and is not one of the exchange contracts. */
  predicate AllKnown(ms: seq<Entry>, s: Database.Store) {
    forall i :: 0 <= i < |ms| && RequiresManifestHistoryCoverage(ms[i].contract.kind) ==>
      !QueriedByFilter(ms[i].contract.kind) && KnownDeployment(ms[i], CanonicalContracts(s.registry.contracts)).Some?
  }

  lemma EntriesStay(ms: seq<Entry>, configured: Overlay, s: Database.Store, t: Database.Store)
    requires AllOnFile(ms, configured, s) && ManifestKept(s, t)
    ensures AllOnFile(ms, configured, t)
  {
    forall i | 0 <= i < |ms|
      ensures EntryOnFile(ms[i], configured, t)
    {
      assert EntryOnFile(ms[i], configured, s);
    }
  }

  lemma EntriesCoverOverlay(ms: seq<Entry>, configured: Overlay, s: Database.Store)
    requires AllOnFile(ms, configured, s) && forall a :: a in configured ==> exists i :: 0 <= i < |ms| && ms[i].contract.address == a
    ensures EntriesOnFile(ms, configured, s)
  {
    forall a | a in configured
      ensures exists i :: 0 <= i < |ms| && ms[i].contract.address == a && EntryOnFile(ms[i], configured, s)
    {
      var i :| 0 <= i < |ms| && ms[i].contract.address == a;
      assert EntryOnFile(ms[i], configured, s);
    }
  }

  lemma NothingLeft(ms: seq<Entry>, configured: Overlay, s: Database.Store, chain: Chain, configuredStart: int, find: DeploymentFinder, left: Option<int>)
    requires Sound(s, chain) && Settled(configured, s) && AllOnFile(ms, configured, s) && AllKnown(ms, s) && configuredStart <= s.ledger.startBlock
    requires IsLeastMissing(ms, CanonicalContracts(s.registry.contracts), s.ledger.cursors, Tip(s.ledger), configuredStart,
                            s.ledger.startBlock, find, left)
    ensures left.None?
  {
    forall i | 0 <= i < |ms|
      ensures MissingStart(ms[i], CanonicalContracts(s.registry.contracts), s.ledger.cursors, Tip(s.ledger), configuredStart,
                           s.ledger.startBlock, find).None?
    {
      assert EntryOnFile(ms[i], configured, s);
      if RequiresManifestHistoryCoverage(ms[i].contract.kind) {
        SettledMissesNothing(ms[i], configured, s, chain, configuredStart, find);
      }
    }
  }

  /** From one configuration to the next: after the backfill and one segment indexed to its end, all
      that the new configuration wants is covered, and if every deployment is known by then, the planner
      finds nothing missing: one rewind and one replay settle it. */
  method BackfillAndPoll(db: Scanner.ScannerDatabase, ms: seq<Entry>, configuredStart: int, find: DeploymentFinder, readings: Readings, rpc: Rpc,
                         settings: Settings, observedHead: nat, ghost before: Overlay)
    returns (outcome: PollOutcome, left: Option<int>)
    requires WellRead(readings, readings.node.world) && HonestRpc(readings.node, rpc) && NoGenesisCode(readings.node, settings.configured)
    requires settings.rangeSize > 0
    requires observedHead < |readings.node.headers| && configuredStart <= db.startBlock
    requires InOperation(db, readings.node.world, before) && before.Keys <= settings.configured.Keys
    requires ClaimsKept(before, settings.configured, db.Snapshot()) && ConfiguredSeeded(db.Snapshot(), settings.configured)
    requires AllOnFile(ms, settings.configured, db.Snapshot())
    requires forall a :: a in settings.configured ==> exists i :: 0 <= i < |ms| && ms[i].contract.address == a
    modifies db
    ensures outcome.CaughtUp? || outcome.Behind? ==>
              && InOperation(db, readings.node.world, settings.configured)
              && (IsPrefix(db.chain, readings.node.headers) || IsPrefix(db.chain, readings.first.headers))
    ensures (outcome.CaughtUp? || outcome.Behind?) && (forall n :: !settings.aborted(n)) && AllKnown(ms, db.Snapshot()) ==> left.None?
  {
    left := None;
    EntriesCoverOverlay(ms, settings.configured, db.Snapshot());
    ghost var s := db.Snapshot();
    var replayStart, error := Reconfigure(db, ms, configuredStart, find, readings.node.world, before, settings.configured);
    if error.Some? {
      return PollFailed, left;
    }
    EntriesStay(ms, settings.configured, s, db.Snapshot());
    ghost var t := db.Snapshot();
    outcome := Poll(db, readings, rpc, settings, observedHead);
    EntriesStay(ms, settings.configured, t, db.Snapshot());
    var checkpoint := db.Checkpoint();
    if checkpoint.Some? && configuredStart <= db.startBlock {
      left := PlanManifestBackfill(ms, CanonicalContracts(db.contracts), db.cursors, checkpoint.value.number, configuredStart, find, db.startBlock);
      if Settled(settings.configured, db.Snapshot()) && AllKnown(ms, db.Snapshot()) {
        NothingLeft(ms, settings.configured, db.Snapshot(), db.chain, configuredStart, find, left);
      }
    }
  }
}
