/** One poll: reconcile, plan and fetch the next segment, and store its blocks one by one. A stop
    signal may end it after any block. */
module PollSegments {
  import opened Records
  import opened LedgerProofs
  import opened Runs
  import opened World
  import opened Rules
  import opened Node
  import opened Planner
  import opened Segments
  import opened LogsByBlock
  import opened Discovery
  import opened Indexing
  import opened Coverage
  import opened CoverageProofs
  import opened Cursors
  import opened PollBlocks
  import opened Readiness
  import Database
  import Registry
  import Reorg
  import Finality
  import Scanner = ScannerDatabase

  datatype Settings = Settings(
    configured: Overlay,
    confirmationDepth: nat,
    rangeSize: nat,
    historicalCodeUnavailable: set<Address>,
    describe: EvidenceKey -> Json,
    tokensReadAt: int -> seq<TokenMetadata>,
    aborted: int -> bool)

  datatype StoreOutcome = Stored | Discontinuous | LogsMissing | StoreRefused(error: Database.DatabaseError)

  ghost predicate IsPrefix(chain: Chain, headers: Remote) {
    forall n :: n in chain ==> Reorg.Agree(chain, headers, n)
  }

  /** What holds inside a segment: the next block is `next`, the table in memory is current, and the
      logs of the rest of the segment have been found. */
  ghost predicate InSegment(s: Database.Store, chain: Chain, node: Node, configured: Overlay, table: Contracts, lists: LogsByBlock, plan: Plan,
                            next: int, end: int)
  {
    && next == Next(s.ledger)
    && Mirrors(s, configured, table)
    && SourcedLists(node, table.Keys, lists)
    && Tidy(lists) && LogsReady(node, s.ledger.startBlock, configured, table, lists, next, end)
    && PlanFits(s.ledger.startBlock, configured, table, plan) && ObservedAt(end, plan.observations)
  }

  /** The hash of the checkpoint, if there is one. */
  ghost predicate IsParent(s: Database.Store, chain: Chain, parent: Option<Hash>) {
    && (parent.Some? <==> s.ledger.indexedBlock.Some?)
    && (parent.Some? ==> Tip(s.ledger) in chain && parent.value == chain[Tip(s.ledger)].hash)
  }

  /** Token metadata is read at the block it comes with. */
  ghost predicate TokensFit(settings: Settings) {
    forall n, i {:trigger settings.tokensReadAt(n)[i]} :: 0 <= i < |settings.tokensReadAt(n)| ==> settings.tokensReadAt(n)[i].readBlock == n
  }

  method ParentHash(db: Scanner.ScannerDatabase) returns (parent: Option<Hash>)
    requires db.Valid()
    ensures IsParent(db.Snapshot(), db.chain, parent)
  {
    var checkpoint := db.Checkpoint();
    parent := if checkpoint.Some? then Some(checkpoint.value.hash) else None;
  }

  predicate DistinctCursors(cs: seq<LogScanCursor>) {
    forall i, j :: 0 <= i < j < |cs| ==> cs[i].contractAddress != cs[j].contractAddress
  }

  /** Block `n` of a segment: the last one says what the whole segment allows to claim, the others claim nothing. */
  ghost predicate EndsAsPlanned(observations: seq<DeploymentObservation>, cursors: seq<LogScanCursor>, n: nat, end: int, startBlock: nat,
                                table: Contracts, plan: Plan, batchStart: int)
  {
    if n == end then
      && observations == plan.observations && DistinctCursors(cursors)
      && forall c :: c in cursors <==> IsCursor(table, plan.inputs, n, startBlock, batchStart, c)
    else observations == [] && cursors == []
  }

  method EndOf(startBlock: nat, n: nat, end: int, indexed: Indexed, plan: Plan, batchStart: int) returns (carried: SegmentEnd)
    ensures EndsAsPlanned(carried.observations, carried.cursors, n, end, startBlock, indexed.contracts, plan, batchStart)
  {
    if n == end {
      var cursors := LogScanCursorUpdates(indexed.contracts, plan.inputs, end, startBlock, batchStart);
      return SegmentEnd(plan.observations, cursors);
    }
    carried := SegmentEnd([], []);
  }

  lemma TableKeepsFit(node: Node, h: Hash, n: nat, startBlock: nat, configured: Overlay, current: Contracts, table: Contracts,
                      ds: seq<DiscoveredContract>, plan: Plan)
    requires PlanFits(startBlock, configured, current, plan) && Consistent(node.world, h, n, current, table, ds)
    ensures PlanFits(startBlock, configured, table, plan)
  {
    forall a | a in current
      ensures a in table && table[a] == current[a]
    {
      TableKeys(current, ds, a);
    }
    forall i | 0 <= i < |plan.observations|
      ensures Observable(table, plan.observations[i])
    {
      assert Observable(current, plan.observations[i]);
    }
  }

  lemma TableKeepsReady(node: Node, n: nat, startBlock: nat, configured: Overlay, current: Contracts, parent: Option<Hash>,
                        lists: LogsByBlock, end: int, indexed: Indexed)
    requires n < |node.headers| && IsIndexed(node, n, end, current, parent, lists, indexed)
    requires LogsReady(node, startBlock, configured, current, lists, n, end)
    ensures LogsReady(node, startBlock, configured, indexed.contracts, indexed.lists, n + 1, end)
  {
    var table := indexed.contracts;
    forall a, m | a in table && Followed(table[a]) && n + 1 <= m <= end && EffectiveStart(startBlock, configured, a, table[a]) <= m
      ensures FoundFor(node, At(indexed.lists, m), a, m)
    {
      TableKeys(current, indexed.discovered, a);
      if i :| 0 <= i < |indexed.discovered| && indexed.discovered[i].address == a {
        TableRow(current, indexed.discovered, i);
        assert FoundThrough(node, indexed.lists, a, n + 1, end);
      } else {
        assert FoundFor(node, At(lists, m), a, m);
        KeptFinds(node, lists, indexed.lists, a, m);
      }
    }
  }

  /** The block at `n`, built from what was indexed. */
  ghost predicate Built(node: Node, n: nat, end: int, table: Contracts, lists: LogsByBlock, indexed: Indexed, b: IndexedBlock) {
    && n < |node.headers| && (exists parent :: IsIndexed(node, n, end, table, parent, lists, indexed))
    && b.number == n && b.hash == node.headers[n].hash
  }

  /** What the block does to the store and to the table in memory, if it is accepted. */
  ghost predicate LeadsOn(s: Database.Store, w: World, configured: Overlay, indexed: Indexed, b: IndexedBlock, plan: Plan) {
    && ReadyStep(w, configured, s, Append(b)) && Genuine(s, Append(b))
    && (Database.StoreBlock(s, b).Success? ==> Mirrors(Database.StoreBlock(s, b).value, configured, indexed.contracts))
    && PlanFits(s.ledger.startBlock, configured, indexed.contracts, plan)
  }

  /** One block of the segment has been stored. */
  ghost predicate IsStored(before: Database.Store, after: Database.Store, node: Node, settings: Settings, observedHead: nat, table: Contracts,
                           lists: LogsByBlock, plan: Plan, batchStart: int, n: nat, end: int, next: NextBlock)
  {
    && Database.StoreBlock(before, next.block) == Success(after)
    && IsNext(before, node, settings.configured, table, lists, plan, batchStart, n, end, next)
    && SaysBesides(next.block, if observedHead > settings.confirmationDepth then observedHead - settings.confirmationDepth else 0,
                   settings.tokensReadAt(n), settings.describe)
  }

  datatype NextBlock = NextBlock(indexed: Indexed, block: IndexedBlock)

  /** Block `n` of the segment as it is to be stored next. */
  ghost predicate IsNext(s: Database.Store, node: Node, configured: Overlay, table: Contracts, lists: LogsByBlock, plan: Plan,
                         batchStart: int, n: nat, end: int, next: NextBlock)
  {
    && Built(node, n, end, table, lists, next.indexed, next.block)
    && LeadsOn(s, node.world, configured, next.indexed, next.block, plan)
    && EndsAsPlanned(next.block.observations, next.block.logScanCursors, n, end, s.ledger.startBlock, next.indexed.contracts, plan, batchStart)
  }

  /** What is on file agrees with the node, because both agree with the world. */
  lemma StoreKnowsHeaders(s: Database.Store, chain: Chain, node: Node)
    requires IsBranch(node.world, node.headers) && Sound(s, chain) && AgreesWithWorld(node.world, s)
    ensures Reorg.SameWorld(chain, node.headers)
  {
    forall n, m | n in chain && 0 <= m < |node.headers| && chain[n].hash == node.headers[m].hash
      ensures n == m && chain[n].parentHash == node.headers[m].parentHash
    {
      assert HasBlock(s.ledger.blocks, n, chain[n]);
      assert HeaderAgrees(node.world, chain[n].hash, s.ledger.blocks[chain[n].hash]);
    }
  }

  /** The next block of the node's chain goes on from the checkpoint exactly if the stored chain is part of
      the node's. */
  lemma NextFitsExactly(s: Database.Store, chain: Chain, node: Node, parent: Option<Hash>, n: nat)
    requires IsBranch(node.world, node.headers) && Sound(s, chain) && AgreesWithWorld(node.world, s) && IsParent(s, chain, parent)
    requires n == Next(s.ledger) < |node.headers|
    ensures (parent.Some? ==> node.headers[n].parentHash == parent.value) <==> IsPrefix(chain, node.headers)
  {
    StoreKnowsHeaders(s, chain, node);
    if parent.Some? {
      assert IsPrefix(chain, node.headers) ==> Reorg.Agree(chain, node.headers, n - 1);
      if node.headers[n].parentHash == parent.value {
        forall m | m in chain
          ensures Reorg.Agree(chain, node.headers, m)
        {
          Reorg.AgreeBelow(s.ledger, chain, node.headers, m, n - 1);
        }
      }
    }
  }

  lemma PrefixGrows(chain: Chain, headers: Remote, n: nat, b: IndexedBlock)
    requires IsPrefix(chain, headers) && n < |headers| && b.hash == headers[n].hash
    ensures IsPrefix(chain[n := b], headers)
  {
    var longer := chain[n := b];
    forall m | m in longer
      ensures Reorg.Agree(longer, headers, m)
    {
      assert m != n ==> Reorg.Agree(chain, headers, m);
    }
  }

  /** What becomes of an indexed block. */
  lemma BuiltIsNext(s: Database.Store, chain: Chain, parent: Option<Hash>, node: Node, settings: Settings, finalizedThrough: nat, table: Contracts,
                    lists: LogsByBlock, plan: Plan, batchStart: nat, n: nat, end: int, indexed: Indexed, carried: SegmentEnd)
    requires WellBehaved(node) && Ready(s, chain, node.world, settings.configured)
    requires InSegment(s, chain, node, settings.configured, table, lists, plan, n, end)
    requires n <= end < |node.headers| && IsParent(s, chain, parent) && (parent.Some? ==> node.headers[n].parentHash == parent.value)
    requires IsIndexed(node, n, end, table, parent, lists, indexed)
    requires EndsAsPlanned(carried.observations, carried.cursors, n, end, s.ledger.startBlock, indexed.contracts, plan, batchStart)
    ensures var b := BlockOf(node, n, finalizedThrough, indexed, settings.tokensReadAt(n), carried, settings.describe);
            && IsNext(s, node, settings.configured, table, lists, plan, batchStart, n, end, NextBlock(indexed, b))
            && SaysBesides(b, finalizedThrough, settings.tokensReadAt(n), settings.describe)
            && (TokensFit(settings) ==> Database.StoreBlock(s, b).Success?)
  {
    var tokens := settings.tokensReadAt(n);
    var b := BlockOf(node, n, finalizedThrough, indexed, tokens, carried, settings.describe);
    TableKeepsFit(node, b.hash, n, s.ledger.startBlock, settings.configured, table, indexed.contracts, indexed.discovered, plan);
    BlockIsComplete(node, s, chain, settings.configured, n, end, table, parent, lists, indexed, carried, b,
                    plan.inputs, batchStart, finalizedThrough, tokens, settings.describe);
    BuiltSaysBesides(node, n, indexed, carried, finalizedThrough, tokens, settings.describe);
    if TokensFit(settings) {
      NextIsAccepted(s, chain, node, parent, n, end, table, indexed.contracts, b, plan, batchStart);
    }
  }

  /** Indexes block `n` without storing it; it fails only for a checkpoint that is not on the node's chain,
      or for logs that the node does not serve. */
  method BuildNext(ghost s: Database.Store, ghost chain: Chain, startBlock: nat, parent: Option<Hash>, node: Node, rpc: Rpc, settings: Settings,
                   observedHead: nat, table: Contracts, lists: LogsByBlock, plan: Plan, batchStart: nat, n: nat, end: int)
    returns (result: Result<NextBlock, IndexError>)
    requires WellBehaved(node) && HonestRpc(node, rpc) && settings.rangeSize > 0 && startBlock == s.ledger.startBlock
    requires Ready(s, chain, node.world, settings.configured) && InSegment(s, chain, node, settings.configured, table, lists, plan, n, end)
    requires n <= end < |node.headers| && IsParent(s, chain, parent)
    ensures result.Failure? && result.error.ChainContinuity? <==> !IsPrefix(chain, node.headers)
    ensures result.Failure? && result.error.LogsUnavailable? ==> !Obliging(rpc)
    ensures result.Success? && TokensFit(settings) ==> Database.StoreBlock(s, result.value.block).Success?
    ensures result.Success? ==> IsNext(s, node, settings.configured, table, lists, plan, batchStart, n, end, result.value)
    ensures result.Success? ==> SaysBesides(result.value.block, if observedHead > settings.confirmationDepth then observedHead - settings.confirmationDepth else 0,
                                            settings.tokensReadAt(n), settings.describe)
  {
    NextFitsExactly(s, chain, node, parent, n);
    var read := IndexBlock(node, rpc, n, end, table, parent, settings.rangeSize, lists);
    if read.Failure? {
      return Failure(read.error);
    }
    var indexed := read.value;
    var carried := EndOf(startBlock, n, end, indexed, plan, batchStart);
    var finalizedThrough := Finality.FinalizedThrough(observedHead, settings.confirmationDepth);
    var b := BlockOf(node, n, finalizedThrough, indexed, settings.tokensReadAt(n), carried, settings.describe);
    BuiltIsNext(s, chain, parent, node, settings, finalizedThrough, table, lists, plan, batchStart, n, end, indexed, carried);
    result := Success(NextBlock(indexed, b));
  }

  lemma NextIsAccepted(s: Database.Store, chain: Chain, node: Node, parent: Option<Hash>, n: nat, end: int, table: Contracts, after: Contracts,
                       b: IndexedBlock, plan: Plan, batchStart: int)
    requires Sound(s, chain) && Genuine(s, Append(b)) && IsParent(s, chain, parent)
    requires b.number == n == Next(s.ledger) < |node.headers| && b.parentHash == node.headers[n].parentHash
    requires parent.Some? ==> node.headers[n].parentHash == parent.value
    requires Consistent(node.world, b.hash, n, table, after, b.contracts) && ObservedAt(end, plan.observations)
    requires EndsAsPlanned(b.observations, b.logScanCursors, n, end, s.ledger.startBlock, after, plan, batchStart)
    requires forall i :: 0 <= i < |b.tokenMetadata| ==> b.tokenMetadata[i].readBlock == n
    ensures Database.StoreBlock(s, b).Success?
  {
    BlockIsAccepted(node.world, s, chain, table, after, b, plan.inputs, batchStart);
  }

  lemma StoredStaysInSegment(node: Node, configured: Overlay, s: Database.Store, chain: Chain, n: nat, table: Contracts,
                             lists: LogsByBlock, plan: Plan, end: int, indexed: Indexed, b: IndexedBlock)
    requires Sound(s, chain) && InSegment(s, chain, node, configured, table, lists, plan, n, end)
    requires Built(node, n, end, table, lists, indexed, b) && Database.StoreBlock(s, b).Success?
    requires LeadsOn(s, node.world, configured, indexed, b, plan)
    ensures var after := Database.StoreBlock(s, b).value;
            && InSegment(after, chain[n := b], node, configured, indexed.contracts, indexed.lists, plan, n + 1, end)
            && after.ledger.startBlock == s.ledger.startBlock
  {
    var parent :| IsIndexed(node, n, end, table, parent, lists, indexed);
    TableKeepsReady(node, n, s.ledger.startBlock, configured, table, parent, lists, end, indexed);
    AppendIsWellPlaced(s, chain, b);
  }

  lemma StoredStays(node: Node, configured: Overlay, s: Database.Store, chain: Chain, n: nat, table: Contracts,
                    lists: LogsByBlock, plan: Plan, end: int, indexed: Indexed, b: IndexedBlock)
    requires Ready(s, chain, node.world, configured) && InSegment(s, chain, node, configured, table, lists, plan, n, end)
    requires Built(node, n, end, table, lists, indexed, b) && LeadsOn(s, node.world, configured, indexed, b, plan)
    requires Attempt(s, Append(b)).Success?
    ensures var after, next := Apply(s, Append(b)), NextChain(s, chain, Append(b));
            && Ready(after, next, node.world, configured)
            && InSegment(after, next, node, configured, indexed.contracts, indexed.lists, plan, n + 1, end)
            && after.ledger.startBlock == s.ledger.startBlock
  {
    StepKeepsReady(node.world, configured, s, chain, Append(b));
    StoredStaysInSegment(node, configured, s, chain, n, table, lists, plan, end, indexed, b);
  }

  ghost predicate InOperation(db: Scanner.ScannerDatabase, w: World, configured: Overlay)
    reads db
  {
    db.Valid() && Ready(db.Snapshot(), db.chain, w, configured)
  }

  /** Every transaction so far has been complete. */
  ghost predicate AllComplete(db: Scanner.ScannerDatabase, w: World, configured: Overlay)
    reads db
  {
    CompleteRun(w, configured, Database.Created(db.origin), db.steps)
  }

  lemma StaysComplete(w: World, configured: Overlay, s0: Database.Store, steps: seq<Step>, s: Database.Store, step: Step)
    requires s == Run(s0, steps) && CompleteStep(w, configured, s, step)
    ensures CompleteRun(w, configured, s0, steps) ==> CompleteRun(w, configured, s0, steps + [step])
  {
    if CompleteRun(w, configured, s0, steps) {
      CompleteExtends(w, configured, s0, steps, step);
    }
  }

  method StoreBuilt(db: Scanner.ScannerDatabase, ghost node: Node, ghost configured: Overlay, ghost table: Contracts, ghost lists: LogsByBlock,
                    ghost plan: Plan, ghost batchStart: nat, ghost n: nat, ghost end: int, next: NextBlock)
    returns (outcome: StoreOutcome)
    requires InOperation(db, node.world, configured) && InSegment(db.Snapshot(), db.chain, node, configured, table, lists, plan, n, end)
    requires IsPrefix(db.chain, node.headers)
    requires IsNext(db.Snapshot(), node, configured, table, lists, plan, batchStart, n, end, next)
    modifies db
    ensures InOperation(db, node.world, configured) && db.startBlock == old(db.startBlock)
    ensures ManifestKept(old(db.Snapshot()), db.Snapshot())
    ensures old(AllComplete(db, node.world, configured)) ==> AllComplete(db, node.world, configured)
    ensures outcome.Stored? ==>
      && Database.StoreBlock(old(db.Snapshot()), next.block) == Success(db.Snapshot())
      && InSegment(db.Snapshot(), db.chain, node, configured, next.indexed.contracts, next.indexed.lists, plan, n + 1, end)
      && IsPrefix(db.chain, node.headers)
    ensures !outcome.Stored? ==> outcome.StoreRefused? && Reorg.Unchanged(db, old(db.Snapshot()), old(db.chain))
    ensures outcome.Stored? <==> Database.StoreBlock(old(db.Snapshot()), next.block).Success?
  {
    ghost var s, chain, steps := db.Snapshot(), db.chain, db.steps;
    var refusal := db.StoreBlock(next.block);
    StaysComplete(node.world, configured, Database.Created(db.origin), steps, s, Append(next.block));
    if refusal.Some? {
      return StoreRefused(refusal.value);
    }
    StoredStays(node, configured, s, chain, n, table, lists, plan, end, next.indexed, next.block);
    AppendKeepsManifest(s, next.block);
    PrefixGrows(chain, node.headers, n, next.block);
    outcome := Stored;
  }

  /** Indexes and stores block `n`. */
  method StoreNext(db: Scanner.ScannerDatabase, node: Node, rpc: Rpc, settings: Settings, observedHead: nat, table: Contracts,
                   lists: LogsByBlock, plan: Plan, batchStart: nat, n: nat, end: int)
    returns (outcome: StoreOutcome, table': Contracts, lists': LogsByBlock, ghost stored: Option<NextBlock>)
    requires WellBehaved(node) && HonestRpc(node, rpc) && settings.rangeSize > 0
    requires InOperation(db, node.world, settings.configured)
    requires InSegment(db.Snapshot(), db.chain, node, settings.configured, table, lists, plan, n, end)
    requires n <= end < |node.headers|
    modifies db
    ensures InOperation(db, node.world, settings.configured) && db.startBlock == old(db.startBlock)
    ensures ManifestKept(old(db.Snapshot()), db.Snapshot())
    ensures old(AllComplete(db, node.world, settings.configured)) ==> AllComplete(db, node.world, settings.configured)
    ensures outcome.Stored? ==> InSegment(db.Snapshot(), db.chain, node, settings.configured, table', lists', plan, n + 1, end)
                                && IsPrefix(db.chain, node.headers)
    ensures !outcome.Stored? ==> Reorg.Unchanged(db, old(db.Snapshot()), old(db.chain))
    ensures outcome.Discontinuous? <==> !old(IsPrefix(db.chain, node.headers))
    ensures (outcome.LogsMissing? ==> !Obliging(rpc)) && (outcome.StoreRefused? ==> !TokensFit(settings))
    ensures outcome.Stored? ==>
      && stored.Some? && stored.value.indexed.contracts == table'
      && IsStored(old(db.Snapshot()), db.Snapshot(), node, settings, observedHead, table, lists, plan, batchStart, n, end, stored.value)
  {
    var parent := ParentHash(db);
    var result := BuildNext(db.Snapshot(), db.chain, db.startBlock, parent, node, rpc, settings, observedHead, table, lists, plan, batchStart, n, end);
    if result.Failure? {
      return if result.error.ChainContinuity? then Discontinuous else LogsMissing, table, lists, None;
    }
    outcome := StoreBuilt(db, node, settings.configured, table, lists, plan, batchStart, n, end, result.value);
    table', lists', stored := result.value.indexed.contracts, result.value.indexed.lists, Some(result.value);
  }

  // ---------------------------------------------------------------- the table in memory and the segment

  function WithManifestDeploymentBlock(configured: Overlay, a: Address, row: Registry.ContractRow): Registry.ContractRow {
    if a in configured then row.(deployment := Some(Deployment(configured[a], true))) else row
  }

  /** The canonical contract rows, the configured deployments laid over them. */
  function TableInMemory(contracts: Contracts, configured: Overlay): Contracts {
    map a | a in contracts && contracts[a].canonical :: WithManifestDeploymentBlock(configured, a, contracts[a])
  }

  function ObservedInMemory(table: Contracts, os: seq<DeploymentObservation>): Contracts {
    if os == [] then table
    else
      var before, o := ObservedInMemory(table, os[..|os| - 1]), os[|os| - 1];
      if o.contractAddress !in before then before
      else
        var row := before[o.contractAddress];
        before[o.contractAddress := row.(checkedBlock := Some(o.checkedBlock),
                                         deployment := if o.deployment.Some? then o.deployment else row.deployment)]
  }

  /** An observation in memory touches only the deployments of contracts without an announcement. */
  lemma {:induction false} ObservedTable(startBlock: nat, configured: Overlay, table: Contracts, os: seq<DeploymentObservation>, a: Address)
    requires forall i :: 0 <= i < |os| && os[i].contractAddress == a && a in table ==> table[a].discovery.None? && a !in configured
    ensures var after := ObservedInMemory(table, os);
            && (a in after <==> a in table)
            && (a in table && (forall i :: 0 <= i < |os| ==> os[i].contractAddress != a) ==> after[a] == table[a])
            && (a in table ==> SameTracking(table[a], after[a])
                               && (InMemory(startBlock, configured, a, table[a]) <==> InMemory(startBlock, configured, a, after[a])))
  {
    if os != [] {
      assert forall i :: 0 <= i < |os| - 1 ==> os[..|os| - 1][i] == os[i];
      ObservedTable(startBlock, configured, table, os[..|os| - 1], a);
    }
  }

  /** The table in memory shows a contract whose deployment was looked for as it will be on file once the
      segment's end is stored. */
  lemma {:induction false} MemoryShowsWhatIsStored(contracts: Contracts, table: Contracts, n: nat, os: seq<DeploymentObservation>, a: Address)
    requires Registry.StoreObservations(contracts, n, os).Success?
    requires a in contracts && contracts[a].canonical && contracts[a].deployment.None? && a in table && table[a] == contracts[a]
    requires forall i, j :: 0 <= i < j < |os| ==> os[i].contractAddress != os[j].contractAddress
    ensures var stored := Registry.StoreObservations(contracts, n, os).value;
            a in stored && a in ObservedInMemory(table, os) && ObservedInMemory(table, os)[a] == stored[a]
    ensures (forall i :: 0 <= i < |os| ==> os[i].contractAddress != a) ==> ObservedInMemory(table, os)[a] == contracts[a]
    ensures forall i :: 0 <= i < |os| && os[i].contractAddress == a ==>
              ObservedInMemory(table, os)[a] == contracts[a].(deployment := os[i].deployment, checkedBlock := Some(os[i].checkedBlock))
  {
    if os != [] {
      var front := os[..|os| - 1];
      assert forall i :: 0 <= i < |front| ==> front[i] == os[i];
      MemoryShowsWhatIsStored(contracts, table, n, front, a);
    }
  }

  lemma TableMirrors(s: Database.Store, chain: Chain, configured: Overlay)
    requires Sound(s, chain)
    ensures Mirrors(s, configured, TableInMemory(s.registry.contracts, configured))
  {
  }

  /** The sources are the followed contracts of the table. */
  predicate Sources(table: Contracts, cs: seq<Source>) {
    && (forall i :: 0 <= i < |cs| ==> cs[i].address in table && cs[i].row == table[cs[i].address] && Followed(cs[i].row))
    && (forall a :: a in table && Followed(table[a]) ==> Source(a, table[a]) in cs)
  }

  method LogSources(table: Contracts) returns (cs: seq<Source>)
    ensures Sources(table, cs)
  {
    cs := [];
    var rest := table.Keys;
    while rest != {}
      invariant rest <= table.Keys
      invariant forall i :: 0 <= i < |cs| ==> cs[i].address in table && cs[i].row == table[cs[i].address] && Followed(cs[i].row)
      invariant forall a :: a in table && a !in rest && Followed(table[a]) ==> Source(a, table[a]) in cs
      decreases |rest|
    {
      var a :| a in rest;
      rest := rest - {a};
      if Followed(table[a]) {
        cs := cs + [Source(a, table[a])];
      }
    }
  }

  /** Nothing is deployed in block 0 that is not configured. */
  ghost predicate NoGenesisCode(node: Node, configured: Overlay) {
    node.headers != [] ==> forall a :: node.world.hasCode(a, node.headers[0].hash) ==> a in configured
  }

  predicate RowReady(startBlock: nat, configured: Overlay, next: int, a: Address, row: Registry.ContractRow) {
    && (a in configured ==> InMemory(startBlock, configured, a, row))
    && (a !in configured && row.deployment.Some? ==> row.deployment.value.block < next)
    && (row.checkedBlock.Some? ==> 0 <= row.checkedBlock.value < next)
  }

  /** Whatever lies at or above the effective start is wanted. */
  lemma EffectiveIsWanted(startBlock: nat, configured: Overlay, next: int, c: Source, m: int)
    requires RowReady(startBlock, configured, next, c.address, c.row) && next <= m
    requires EffectiveStart(startBlock, configured, c.address, c.row) <= m
    ensures WantedFrom(c, startBlock) <= m
  {
  }

  lemma NoGenesisSource(node: Node, rpc: Rpc, configured: Overlay, next: int, c: Source, toBlock: nat, startBlock: nat, unavailable: set<Address>)
    requires HonestRpc(node, rpc) && NoGenesisCode(node, configured) && toBlock < |node.headers|
    requires RowReady(startBlock, configured, next, c.address, c.row)
    ensures !GenesisCode(c, toBlock, startBlock, rpc.codeAt, unavailable)
  {
  }
}
