/** The indexer in operation: from a new database on, any sequence of polls against whatever branch the
    node is on, backfills, deployment checks, start advances and restarts. */
module IndexerRuns {
  import opened Records
  import opened LedgerProofs
  import opened Runs
  import opened World
  import opened Node
  import opened Coverage
  import opened CoverageProofs
  import opened ClaimProofs
  import opened PollBlocks
  import opened PollSegments
  import opened Readiness
  import Backfill
  import Database
  import DeploymentCheck
  import Indexer
  import LogScan
  import Reorg
  import SeedProofs
  import Scanner = ScannerDatabase

  datatype Action =
    | Restart(startBlock: nat, manifest: seq<ManifestContract>)
    | Backfilling(entries: seq<Backfill.Entry>, configuredStart: int, find: Backfill.DeploymentFinder)
    | Polling(readings: Indexer.Readings, rpc: Rpc, settings: Settings, observedHead: nat)
    | Checking(codeAt: (Address, nat) -> LogScan.CodeRead, unavailable: set<Address>)
    | Advancing(startBlock: nat)

  /** Every manifest lists the contracts with a configured deployment; and every node is on some branch of
      the one world and answers truly, if it answers. */
  ghost predicate Admissible(w: World, configured: Overlay, action: Action) {
    match action
    case Restart(_, manifest) => forall a :: a in configured ==> SeedProofs.Configured(manifest, a)
    case Polling(readings, rpc, settings, observedHead) =>
      && Indexer.WellRead(readings, w) && HonestRpc(readings.node, rpc) && NoGenesisCode(readings.node, configured)
      && settings.configured == configured && settings.rangeSize > 0 && observedHead < |readings.node.headers|
    case _ => true
  }

  /** A step taken keeps the database in operation. */
  lemma StepStaysInOperation(w: World, configured: Overlay, s0: Database.Store, steps: seq<Step>, s: Database.Store, chain: Chain, step: Step)
    requires Ready(s, chain, w, configured) && ReadyStep(w, configured, s, step)
    requires s == Run(s0, steps) && CompleteRun(w, configured, s0, steps)
    ensures Ready(Apply(s, step), NextChain(s, chain, step), w, configured)
    ensures CompleteRun(w, configured, s0, steps + [step])
  {
    StepKeepsReady(w, configured, s, chain, step);
    CompleteExtends(w, configured, s0, steps, step);
  }

  method Check(db: Scanner.ScannerDatabase, codeAt: (Address, nat) -> LogScan.CodeRead, unavailable: set<Address>, ghost w: World, ghost configured: Overlay)
    requires InOperation(db, w, configured) && AllComplete(db, w, configured)
    modifies db
    ensures InOperation(db, w, configured) && AllComplete(db, w, configured)
  {
    ghost var s, chain, steps := db.Snapshot(), db.chain, db.steps;
    var recorded := DeploymentCheck.RefreshContractDeployment(db, codeAt, unavailable);
    if recorded.Some? {
      StepStaysInOperation(w, configured, Database.Created(db.origin), steps, s, chain, RecordDeployment(recorded.value));
    }
  }

  method GoBack(db: Scanner.ScannerDatabase, entries: seq<Backfill.Entry>, configuredStart: int, find: Backfill.DeploymentFinder,
                ghost w: World, ghost configured: Overlay)
    requires InOperation(db, w, configured) && AllComplete(db, w, configured)
    modifies db
    ensures InOperation(db, w, configured) && AllComplete(db, w, configured)
  {
    ghost var s, chain, steps := db.Snapshot(), db.chain, db.steps;
    var replayStart, error := Backfill.ReconcileManifestBackfill(db, entries, configuredStart, find);
    MaybeRewoundStaysReady(s, chain, w, configured, db.Snapshot(), db.chain);
    RewindsStayComplete(w, configured, Database.Created(db.origin), steps, db.steps);
  }

  method SeedAgain(db: Scanner.ScannerDatabase, startBlock: nat, manifest: seq<ManifestContract>, ghost w: World, ghost configured: Overlay)
    requires InOperation(db, w, configured) && AllComplete(db, w, configured)
    requires forall a :: a in configured ==> SeedProofs.Configured(manifest, a)
    modifies db
    ensures InOperation(db, w, configured) && AllComplete(db, w, configured)
  {
    StepStaysInOperation(w, configured, Database.Created(db.origin), db.steps, db.Snapshot(), db.chain, SeedManifest(startBlock, manifest));
    var error := db.SeedNetwork(startBlock, manifest);
  }

  method AdvanceTo(db: Scanner.ScannerDatabase, startBlock: nat, ghost w: World, ghost configured: Overlay)
    requires InOperation(db, w, configured) && AllComplete(db, w, configured)
    modifies db
    ensures InOperation(db, w, configured) && AllComplete(db, w, configured)
  {
    StepStaysInOperation(w, configured, Database.Created(db.origin), db.steps, db.Snapshot(), db.chain, Advance(startBlock));
    var advanced := db.AdvanceNetworkStartBlock(startBlock);
  }

  method Act(db: Scanner.ScannerDatabase, action: Action, ghost w: World, ghost configured: Overlay)
    requires InOperation(db, w, configured) && AllComplete(db, w, configured) && Admissible(w, configured, action)
    modifies db
    ensures InOperation(db, w, configured) && AllComplete(db, w, configured)
  {
    match action
    case Restart(startBlock, manifest) => SeedAgain(db, startBlock, manifest, w, configured);
    case Backfilling(entries, configuredStart, find) => GoBack(db, entries, configuredStart, find, w, configured);
    case Polling(readings, rpc, settings, observedHead) =>
      var outcome := Indexer.Poll(db, readings, rpc, settings, observedHead);
    case Checking(codeAt, unavailable) => Check(db, codeAt, unavailable, w, configured);
    case Advancing(startBlock) => AdvanceTo(db, startBlock, w, configured);
  }

  /** From the first seeding on, whatever happens, the database stays in operation. */
  method Operate(ghost w: World, ghost configured: Overlay, startBlock: nat, manifest: seq<ManifestContract>, actions: seq<Action>)
    returns (db: Scanner.ScannerDatabase)
    requires forall a :: a in configured ==> SeedProofs.Configured(manifest, a)
    requires forall i :: 0 <= i < |actions| ==> Admissible(w, configured, actions[i])
    ensures fresh(db) && db.origin == startBlock && InOperation(db, w, configured) && AllComplete(db, w, configured)
  {
    db := Begin(w, configured, startBlock, manifest);
    for i := 0 to |actions|
      invariant fresh(db) && db.origin == startBlock && InOperation(db, w, configured) && AllComplete(db, w, configured)
    {
      Act(db, actions[i], w, configured);
    }
  }

  method Begin(ghost w: World, ghost configured: Overlay, startBlock: nat, manifest: seq<ManifestContract>) returns (db: Scanner.ScannerDatabase)
    requires forall a :: a in configured ==> SeedProofs.Configured(manifest, a)
    ensures fresh(db) && db.origin == startBlock && InOperation(db, w, configured) && AllComplete(db, w, configured)
  {
    db := new Scanner.ScannerDatabase(startBlock);
    var error := db.SeedNetwork(startBlock, manifest);
    SeededIsReady(w, configured, startBlock, manifest);
    CompleteExtends(w, configured, Database.Created(startBlock), [], SeedManifest(startBlock, manifest));
  }

  // ---------------------------------------------------------------- catching up

  /** A node that stays on its branch and answers whatever it is asked is caught up with, from whatever is
      on file that can be reconciled with it: polls follow one another until the head is reached. */
  method CatchUp(db: Scanner.ScannerDatabase, node: Node, rpc: Rpc, settings: Settings, observedHead: nat)
    requires WellBehaved(node) && HonestRpc(node, rpc) && NoGenesisCode(node, settings.configured)
    requires settings.rangeSize > 0 && observedHead < |node.headers| && InOperation(db, node.world, settings.configured)
    requires Indexer.Serves(rpc, settings) && forall n :: !settings.aborted(n)
    requires !Indexer.CannotReconcile(db.Snapshot(), db.chain, node)
    modifies db
    ensures InOperation(db, node.world, settings.configured)
    ensures Next(db.Snapshot().ledger) > observedHead && IsPrefix(db.chain, node.headers)
  {
    var readings := Indexer.Readings(node, node, node);
    var outcome := Indexer.Poll(db, readings, rpc, settings, observedHead);
    while outcome.Behind?
      invariant InOperation(db, node.world, settings.configured)
      invariant !outcome.PollFailed? && !outcome.Discontinued? && IsPrefix(db.chain, node.headers)
      invariant outcome.Behind? <==> Next(db.Snapshot().ledger) <= observedHead
      decreases observedHead + 1 - Next(db.Snapshot().ledger)
    {
      PrefixReconciles(db, node);
      outcome := Indexer.Poll(db, readings, rpc, settings, observedHead);
    }
  }

  lemma PrefixReconciles(db: Scanner.ScannerDatabase, node: Node)
    requires db.Valid() && IsPrefix(db.chain, node.headers) && node.headers != []
    ensures !Indexer.CannotReconcile(db.Snapshot(), db.chain, node)
  {
    if db.indexedBlock.Some? {
      assert Tip(db.Snapshot().ledger) in db.chain;
      assert Reorg.Agree(db.chain, node.headers, Tip(db.Snapshot().ledger));
    }
  }

  // ---------------------------------------------------------------- what that means

  /** In every reachable state, every log that a followed contract emits from its effective start through
      the checkpoint is on file as a canonical row. */
  lemma EveryLogOnFile(db: Scanner.ScannerDatabase, w: World, configured: Overlay, a: Address, n: int, i: nat)
    requires InOperation(db, w, configured)
    requires a in db.contracts && Followed(db.contracts[a])
    requires db.startBlock <= n <= Tip(db.Snapshot().ledger)
    requires if a in configured then configured[a] <= n
             else db.contracts[a].discovery.Some? ==> db.contracts[a].discovery.value.block <= n
    ensures n in db.chain
    ensures Emits(w, a, db.chain[n].hash, i) ==>
              var k := EvidenceKey(Logs, db.chain[n].hash, i);
              k in db.evidence && db.evidence[k].canonical && db.evidence[k].number == n
  {
    FollowedLogsOnFile(w, configured, db.Snapshot(), db.chain, a, n, i);
  }

  /** So is every transaction in which it emits something, with what the world says of it. */
  lemma EveryTransactionOnFile(db: Scanner.ScannerDatabase, w: World, configured: Overlay, a: Address, n: int, t: Hash)
    requires InOperation(db, w, configured)
    requires a in db.contracts && Followed(db.contracts[a])
    requires db.startBlock <= n <= Tip(db.Snapshot().ledger)
    requires if a in configured then configured[a] <= n
             else db.contracts[a].discovery.Some? ==> db.contracts[a].discovery.value.block <= n
    ensures n in db.chain
    ensures EmitsWithin(w, a, db.chain[n].hash, t) ==>
              var k := EvidenceKey(Transactions, db.chain[n].hash, t);
              k in db.evidence && db.evidence[k].canonical && db.evidence[k].number == n && db.evidence[k].data == w.payload(k)
  {
    FollowedTransactionsOnFile(w, configured, db.Snapshot(), db.chain, a, n, t);
    var k := EvidenceKey(Transactions, db.chain[n].hash, t);
    assert k in db.evidence ==> PayloadAgrees(w, k, db.evidence[k].data);
  }

  /** And nothing else is: every row of a log or a transaction, canonical or not, is one of a known contract
      or of a transaction in which one emits something. */
  lemma NothingMadeUp(db: Scanner.ScannerDatabase, w: World, configured: Overlay, h: Hash, p: nat)
    requires InOperation(db, w, configured)
    ensures EvidenceKey(Logs, h, p) in db.evidence ==> exists a :: a in db.contracts && Emits(w, a, h, p)
    ensures EvidenceKey(Transactions, h, p) in db.evidence ==> exists a :: a in db.contracts && EmitsWithin(w, a, h, p)
  {
    var s := db.Snapshot();
    assert EvidenceKey(Logs, h, p) in s.ledger.evidence ==> Witnessed(w, s.registry.contracts.Keys, EvidenceKey(Logs, h, p));
    assert EvidenceKey(Transactions, h, p) in s.ledger.evidence ==>
        Witnessed(w, s.registry.contracts.Keys, EvidenceKey(Transactions, h, p));
  }

  /** And for a contract whose deployment was never recorded before its announcement, so is every log
      between the two ends of its cursor. */
  lemma CursorIsTrue(db: Scanner.ScannerDatabase, w: World, configured: Overlay, a: Address, n: int, i: nat)
    requires InOperation(db, w, configured) && AllComplete(db, w, configured)
    requires OrderKept(configured, Database.Created(db.origin), db.steps, a)
    requires a in db.cursors && db.cursors[a].startBlock <= n <= db.cursors[a].lastRetrievedBlock
    ensures n in db.chain && a in db.contracts
    ensures Followed(db.contracts[a]) && Emits(w, a, db.chain[n].hash, i) ==>
              var k := EvidenceKey(Logs, db.chain[n].hash, i);
              k in db.evidence && db.evidence[k].canonical && db.evidence[k].number == n
  {
    RunCursorsClaimOnlyCovered(w, configured, db.origin, db.steps, a, n, i);
  }
}
