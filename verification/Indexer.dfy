/** The indexer's poll from end to end. */
module Indexer {
  import opened Records
  import opened LedgerProofs
  import opened Runs
  import opened World
  import opened Rules
  import opened Node
  import opened Planner
  import opened Segments
  import opened LogsByBlock
  import opened Coverage
  import opened Cursors
  import opened PollBlocks
  import opened PollSegments
  import opened Readiness
  import opened Settling
  import Database
  import Discovery
  import Indexing
  import LogScan
  import Queries
  import Registry
  import Reorg
  import Tokens
  import Scanner = ScannerDatabase

  // ---------------------------------------------------------------- a freshly fetched segment

  /** `segment` is the planned and answered range from `next` on. */
  ghost predicate IsSegment(rpc: Rpc, cs: seq<Source>, startBlock: nat, unavailable: set<Address>, next: nat, segment: LogSegment) {
    && next <= segment.toBlock && Checkable(cs)
    && PlanLogScan(cs, next, segment.toBlock, startBlock, rpc.codeAt, unavailable) == Success(segment.plan)
    && Queries.QueryLogs(rpc, segment.toBlock, segment.plan.inputs) == LogScan.Items(segment.logs)
  }

  ghost predicate AllRowsReady(startBlock: nat, configured: Overlay, next: int, table: Contracts) {
    forall a :: a in table ==> RowReady(startBlock, configured, next, a, table[a])
  }

  lemma SourceFound(node: Node, rpc: Rpc, configured: Overlay, table: Contracts, cs: seq<Source>, startBlock: nat, unavailable: set<Address>,
                    next: nat, segment: LogSegment, a: Address, m: int)
    requires WellBehaved(node) && HonestRpc(node, rpc) && NoGenesisCode(node, configured)
    requires Sources(table, cs) && AllRowsReady(startBlock, configured, next, table)
    requires IsSegment(rpc, cs, startBlock, unavailable, next, segment) && segment.toBlock < |node.headers| && startBlock <= next
    requires a in table && Followed(table[a]) && next <= m <= segment.toBlock && EffectiveStart(startBlock, configured, a, table[a]) <= m
    ensures FoundFor(node, segment.logs, a, m)
  {
    var i :| 0 <= i < |cs| && cs[i] == Source(a, table[a]);
    forall k | 0 <= k < |cs|
      ensures cs[k].row.checkedBlock.Some? ==> 0 <= cs[k].row.checkedBlock.value < next
    {
      assert RowReady(startBlock, configured, next, cs[k].address, table[cs[k].address]);
    }
    EffectiveIsWanted(startBlock, configured, next, cs[i], m);
    NoGenesisSource(node, rpc, configured, next, cs[i], segment.toBlock, startBlock, unavailable);
    SegmentFinds(node, rpc, cs, next, segment.toBlock, startBlock, unavailable, i, m);
  }

  /** What one source contributes to the plan is about itself and in keeping with its row. */
  lemma PartFits(configured: Overlay, c: Source, startBlock: nat, next: nat, toBlock: nat, codeAt: (Address, nat) -> LogScan.CodeRead,
                 unavailable: set<Address>)
    requires RowReady(startBlock, configured, next, c.address, c.row) && startBlock <= next <= toBlock
    requires PlanContract(c, next, toBlock, startBlock, codeAt, unavailable).Success?
    ensures var part := PlanContract(c, next, toBlock, startBlock, codeAt, unavailable).value;
            && (forall input :: input in part.inputs ==>
                  && input.address == c.address
                  && (InMemory(startBlock, configured, c.address, c.row) ==>
                        EffectiveStart(startBlock, configured, c.address, c.row) <= input.startBlock))
            && (forall o :: o in part.observations ==>
                  o.contractAddress == c.address && c.row.discovery.None? && c.address !in configured)
  {
  }

  lemma FreshSegmentFits(rpc: Rpc, configured: Overlay, table: Contracts, cs: seq<Source>, startBlock: nat, unavailable: set<Address>,
                         next: nat, segment: LogSegment)
    requires Sources(table, cs) && AllRowsReady(startBlock, configured, next, table)
    requires IsSegment(rpc, cs, startBlock, unavailable, next, segment) && startBlock <= next
    ensures PlanFits(startBlock, configured, table, segment.plan)
    ensures forall i :: 0 <= i < |segment.plan.observations| ==> segment.plan.observations[i].contractAddress !in configured
  {
    var plan := segment.plan;
    PlanIsParts(cs, next, segment.toBlock, startBlock, rpc.codeAt, unavailable);
    assert forall i :: 0 <= i < |cs| ==> RowReady(startBlock, configured, next, cs[i].address, cs[i].row);
    forall k | 0 <= k < |plan.inputs|
      ensures var a := plan.inputs[k].address;
              a in table && (InMemory(startBlock, configured, a, table[a]) ==>
                EffectiveStart(startBlock, configured, a, table[a]) <= plan.inputs[k].startBlock)
    {
      var i :| 0 <= i < |cs| && FromContract(cs[i], next, segment.toBlock, startBlock, rpc.codeAt, unavailable, plan.inputs[k]);
      PartFits(configured, cs[i], startBlock, next, segment.toBlock, rpc.codeAt, unavailable);
    }
    forall k | 0 <= k < |plan.observations|
      ensures Observable(table, plan.observations[k])
      ensures plan.observations[k].contractAddress !in configured
    {
      var i :| 0 <= i < |cs| && ObservedFor(cs[i], next, segment.toBlock, startBlock, rpc.codeAt, unavailable, plan.observations[k]);
      PartFits(configured, cs[i], startBlock, next, segment.toBlock, rpc.codeAt, unavailable);
    }
  }

  /** Observations change deployments only, so everything known about the segment stays. */
  lemma ObservedSegmentFits(startBlock: nat, configured: Overlay, table: Contracts, plan: Plan)
    requires PlanFits(startBlock, configured, table, plan)
    requires forall i :: 0 <= i < |plan.observations| ==> plan.observations[i].contractAddress !in configured
    ensures var after := ObservedInMemory(table, plan.observations);
            && PlanFits(startBlock, configured, after, plan)
            && (forall a :: a in after <==> a in table)
            && (forall a :: a in table ==> SameInMemory(startBlock, configured, a, table[a], after[a]))
  {
    var after := ObservedInMemory(table, plan.observations);
    forall a: Address
      ensures (a in after <==> a in table) && (a in table ==> SameInMemory(startBlock, configured, a, table[a], after[a]))
    {
      forall i | 0 <= i < |plan.observations| && plan.observations[i].contractAddress == a
        ensures a in table && table[a].discovery.None?
      {
        assert Observable(table, plan.observations[i]);
      }
      ObservedTable(startBlock, configured, table, plan.observations, a);
    }
    forall i | 0 <= i < |plan.inputs|
      ensures var a := plan.inputs[i].address;
              a in after && (InMemory(startBlock, configured, a, after[a]) ==>
                EffectiveStart(startBlock, configured, a, after[a]) <= plan.inputs[i].startBlock)
    {
      var a := plan.inputs[i].address;
      assert SameInMemory(startBlock, configured, a, table[a], after[a]);
    }
    forall i | 0 <= i < |plan.observations|
      ensures Observable(after, plan.observations[i])
    {
      var a := plan.observations[i].contractAddress;
      assert Observable(table, plan.observations[i]) && SameInMemory(startBlock, configured, a, table[a], after[a]);
    }
  }

  predicate SameInMemory(startBlock: nat, configured: Overlay, a: Address, before: Registry.ContractRow, after: Registry.ContractRow) {
    SameTracking(before, after) && (InMemory(startBlock, configured, a, before) <==> InMemory(startBlock, configured, a, after))
  }

  lemma TableIsReady(s: Database.Store, chain: Chain, configured: Overlay)
    requires Sound(s, chain)
    ensures s.ledger.startBlock <= Next(s.ledger)
    ensures AllRowsReady(s.ledger.startBlock, configured, Next(s.ledger), TableInMemory(s.registry.contracts, configured))
    ensures Mirrors(s, configured, TableInMemory(s.registry.contracts, configured))
  {
    TableMirrors(s, chain, configured);
  }

  lemma SegmentLogsReady(node: Node, rpc: Rpc, configured: Overlay, table: Contracts, cs: seq<Source>, startBlock: nat, unavailable: set<Address>,
                         next: nat, segment: LogSegment, lists: LogsByBlock, after: Contracts)
    requires WellBehaved(node) && HonestRpc(node, rpc) && NoGenesisCode(node, configured)
    requires Sources(table, cs) && AllRowsReady(startBlock, configured, next, table)
    requires IsSegment(rpc, cs, startBlock, unavailable, next, segment) && segment.toBlock < |node.headers| && startBlock <= next
    requires Merged(map[], segment.logs, lists)
    requires forall a :: a in after ==> a in table && SameTracking(table[a], after[a])
    ensures LogsReady(node, startBlock, configured, after, lists, next, segment.toBlock)
  {
    forall a, m | a in after && Followed(after[a]) && next <= m <= segment.toBlock && EffectiveStart(startBlock, configured, a, after[a]) <= m
      ensures FoundFor(node, At(lists, m), a, m)
    {
      SourceFound(node, rpc, configured, table, cs, startBlock, unavailable, next, segment, a, m);
      Indexing.MergedFinds(node, map[], segment.logs, lists, a, m);
    }
  }

  /** What the plan does to the table in memory, and what has been found then. */
  lemma PlannedTable(node: Node, rpc: Rpc, configured: Overlay, unavailable: set<Address>, cs: seq<Source>, segment: LogSegment,
                     startBlock: nat, next: nat, table: Contracts, lists: LogsByBlock)
    requires WellBehaved(node) && HonestRpc(node, rpc) && NoGenesisCode(node, configured)
    requires Sources(table, cs) && AllRowsReady(startBlock, configured, next, table)
    requires IsSegment(rpc, cs, startBlock, unavailable, next, segment) && segment.toBlock < |node.headers| && startBlock <= next
    requires Merged(map[], segment.logs, lists)
    ensures var after := ObservedInMemory(table, segment.plan.observations);
            && PlanFits(startBlock, configured, after, segment.plan)
            && LogsReady(node, startBlock, configured, after, lists, next, segment.toBlock)
            && (forall a :: a in after <==> a in table)
            && (forall a :: a in table ==> SameInMemory(startBlock, configured, a, table[a], after[a]))
  {
    var after := ObservedInMemory(table, segment.plan.observations);
    FreshSegmentFits(rpc, configured, table, cs, startBlock, unavailable, next, segment);
    ObservedSegmentFits(startBlock, configured, table, segment.plan);
    SegmentLogsReady(node, rpc, configured, table, cs, startBlock, unavailable, next, segment, lists, after);
  }

  lemma FreshSegmentObserved(rpc: Rpc, cs: seq<Source>, startBlock: nat, unavailable: set<Address>, next: nat, segment: LogSegment)
    requires Scannable(cs, next, startBlock) && IsSegment(rpc, cs, startBlock, unavailable, next, segment)
    ensures ObservedAt(segment.toBlock, segment.plan.observations)
  {
    PlanIsParts(cs, next, segment.toBlock, startBlock, rpc.codeAt, unavailable);
    forall k | 0 <= k < |segment.plan.observations|
      ensures ObservedAt(segment.toBlock, [segment.plan.observations[k]])
    {
      var o := segment.plan.observations[k];
      var i :| 0 <= i < |cs| && ObservedFor(cs[i], next, segment.toBlock, startBlock, rpc.codeAt, unavailable, o);
      InputInSegment(cs[i], next, segment.toBlock, startBlock, rpc.codeAt, unavailable);
    }
    forall k | 0 <= k < |segment.plan.observations|
      ensures var o := segment.plan.observations[k];
              o.checkedBlock == segment.toBlock && (o.deployment.Some? ==> 0 <= o.deployment.value.block <= segment.toBlock)
    {
      assert [segment.plan.observations[k]][0] == segment.plan.observations[k];
    }
  }

  /** What a fresh segment holds are logs of the contracts it was planned for. */
  lemma FreshSegmentSourced(node: Node, rpc: Rpc, configured: Overlay, cs: seq<Source>, startBlock: nat, unavailable: set<Address>, next: nat,
                            table: Contracts, segment: LogSegment)
    requires HonestRpc(node, rpc) && Scannable(cs, next, startBlock)
    requires IsSegment(rpc, cs, startBlock, unavailable, next, segment)
    requires PlanFits(startBlock, configured, table, segment.plan)
    ensures Indexing.Sourced(node, table.Keys, segment.logs)
  {
    PlanBounded(cs, next, segment.toBlock, startBlock, rpc.codeAt, unavailable);
    Indexing.AnswerSourced(node, rpc, table.Keys, segment.toBlock, segment.plan.inputs);
  }

  /** Once a segment is planned, fetched and sorted into blocks, its first block can be indexed. */
  lemma SegmentBegins(s: Database.Store, chain: Chain, node: Node, rpc: Rpc, configured: Overlay, unavailable: set<Address>,
                      cs: seq<Source>, segment: LogSegment, lists: LogsByBlock, table: Contracts)
    requires WellBehaved(node) && HonestRpc(node, rpc) && NoGenesisCode(node, configured)
    requires Sound(s, chain)
    requires table == TableInMemory(s.registry.contracts, configured) && Sources(table, cs)
    requires IsSegment(rpc, cs, s.ledger.startBlock, unavailable, Next(s.ledger), segment) && segment.toBlock < |node.headers|
    requires Merged(map[], segment.logs, lists) && Scannable(cs, Next(s.ledger), s.ledger.startBlock)
    ensures InSegment(s, chain, node, configured, ObservedInMemory(table, segment.plan.observations),
                      lists, segment.plan, Next(s.ledger), segment.toBlock)
  {
    var start, next := s.ledger.startBlock, Next(s.ledger);
    TableIsReady(s, chain, configured);
    PlannedTable(node, rpc, configured, unavailable, cs, segment, start, next, table, lists);
    var after := ObservedInMemory(table, segment.plan.observations);
    MirrorsObserved(s, configured, table, after);
    FreshSegmentSourced(node, rpc, configured, cs, start, unavailable, next, after, segment);
    Indexing.MergedSourced(node, after.Keys, segment.logs, lists);
    FreshSegmentObserved(rpc, cs, start, unavailable, next, segment);
  }

  lemma MirrorsObserved(s: Database.Store, configured: Overlay, table: Contracts, after: Contracts)
    requires Mirrors(s, configured, table)
    requires forall a :: a in after <==> a in table
    requires forall a :: a in table ==> SameInMemory(s.ledger.startBlock, configured, a, table[a], after[a])
    ensures Mirrors(s, configured, after)
  {
    forall a | a in after
      ensures Mirrored(s.ledger.startBlock, configured, a, s.registry.contracts[a], after[a])
    {
      assert Mirrored(s.ledger.startBlock, configured, a, s.registry.contracts[a], table[a]);
    }
  }

  // ---------------------------------------------------------------- reconciling

  /** The node is behind the checkpoint; or the checkpoint is off its chain, and token metadata on file is
      not current. */
  ghost predicate CannotReconcile(s: Database.Store, chain: Chain, node: Node) {
    s.ledger.indexedBlock.Some? &&
    (|| Tip(s.ledger) >= |node.headers|
     || (!Reorg.Agree(chain, node.headers, Tip(s.ledger)) && !Tokens.Current(s.tokens, chain)))
  }

  method Reconcile(db: Scanner.ScannerDatabase, node: Node, settings: Settings) returns (error: Option<Reorg.ReorgError>)
    requires WellBehaved(node) && InOperation(db, node.world, settings.configured)
    modifies db
    ensures InOperation(db, node.world, settings.configured)
    ensures old(AllComplete(db, node.world, settings.configured)) ==> AllComplete(db, node.world, settings.configured)
    ensures ManifestKept(old(db.Snapshot()), db.Snapshot())
    ensures error.None? ==> IsPrefix(db.chain, node.headers) && db.startBlock == old(db.startBlock)
    ensures error.None? && old(IsPrefix(db.chain, node.headers)) ==> Next(db.Snapshot().ledger) == old(Next(db.Snapshot().ledger))
    ensures error.Some? ==> Reorg.Unchanged(db, old(db.Snapshot()), old(db.chain))
    ensures error.Some? ==> CannotReconcile(old(db.Snapshot()), old(db.chain), node)
  {
    ghost var s, chain, steps := db.Snapshot(), db.chain, db.steps;
    StoreKnowsHeaders(s, chain, node);
    error := Reorg.ReconcileReorg(db, node.headers, settings.confirmationDepth);
    assert MaybeRewound(s, chain, db.Snapshot(), db.chain);
    MaybeRewoundStaysReady(s, chain, node.world, settings.configured, db.Snapshot(), db.chain);
    RewindKeepsManifest(s, chain, db.Snapshot(), db.chain);
    RewindsStayComplete(node.world, settings.configured, Database.Created(db.origin), steps, db.steps);
    if error.None? && IsPrefix(chain, node.headers) {
      PrefixIsKept(s, chain, node.headers, settings.confirmationDepth, db.Snapshot(), db.chain);
    }
  }

  /** A stored chain that is a prefix of the node's is left alone. */
  lemma PrefixIsKept(s: Database.Store, chain: Chain, headers: Remote, confirmationDepth: nat, t: Database.Store, after: Chain)
    requires Sound(s, chain) && Sound(t, after) && t.ledger.startBlock == s.ledger.startBlock
    requires IsPrefix(chain, headers) && Reorg.Reconciled(s.ledger, chain, headers, confirmationDepth, after)
    ensures Next(t.ledger) == Next(s.ledger)
  {
    if s.ledger.indexedBlock.Some? {
      assert Reorg.Agree(chain, headers, Tip(s.ledger));
      assert Reorg.CommonInWindow(s.ledger, chain, headers, confirmationDepth);
      assert Tip(s.ledger) in after;
    }
    assert t.ledger.indexedBlock.Some? ==> Tip(t.ledger) in after;
  }

  // ---------------------------------------------------------------- the poll

  /** A poll ends with nothing new to index, with the head reached, with blocks left to fetch, with the
      chain found broken, or in failure. */
  datatype PollOutcome = NothingNew | CaughtUp | Behind | Discontinued | PollFailed

  /** Nothing the node or the token reader does can make a poll fail. */
  ghost predicate Serves(rpc: Rpc, settings: Settings) {
    Obliging(rpc) && TokensFit(settings)
  }

  /** What storing a block does to what the segment will claim. */
  lemma StoredGoesOn(s: Database.Store, chain: Chain, node: Node, configured: Overlay, table: Contracts, lists: LogsByBlock, plan: Plan,
                     batchStart: int, n: nat, end: int, next: NextBlock)
    requires Sound(s, chain) && AllWillClaim(s, configured, table, plan, end, batchStart)
    requires IsNext(s, node, configured, table, lists, plan, batchStart, n, end, next) && Database.StoreBlock(s, next.block).Success?
    ensures n < end ==> AllWillClaim(Database.StoreBlock(s, next.block).value, configured, next.indexed.contracts, plan, end, batchStart)
    ensures n == end ==> Settled(configured, Database.StoreBlock(s, next.block).value)
  {
    var parent :| Indexing.IsIndexed(node, n, end, table, parent, lists, next.indexed);
    forall a | a in table
      ensures a in next.indexed.contracts && next.indexed.contracts[a] == table[a]
    {
      Discovery.TableKeys(table, next.indexed.discovered, a);
    }
    if n < end {
      StoredWillClaim(s, chain, configured, next.block, table, next.indexed.contracts, plan, end, batchStart);
    } else if n == end {
      StoredSettles(s, chain, configured, next.block, table, next.indexed.contracts, plan, batchStart);
    }
  }

  /** The segment from `batchStart` on has been stored up to block `n`. */
  ghost predicate Underway(s: Database.Store, chain: Chain, node: Node, configured: Overlay, table: Contracts, lists: LogsByBlock, plan: Plan,
                           batchStart: int, n: int, end: int)
  {
    && InSegment(s, chain, node, configured, table, lists, plan, n, end)
    && (n <= end ==> AllWillClaim(s, configured, table, plan, end, batchStart))
    && (n == end + 1 ==> Settled(configured, s))
    && (n > batchStart ==> IsPrefix(chain, node.headers))
  }

  /** Stores one block of a segment, and with the last one what the segment claims. */
  method StoreAndClaim(db: Scanner.ScannerDatabase, node: Node, rpc: Rpc, settings: Settings, observedHead: nat, table: Contracts,
                       lists: LogsByBlock, plan: Plan, batchStart: nat, n: nat, end: int)
    returns (outcome: StoreOutcome, table': Contracts, lists': LogsByBlock)
    requires WellBehaved(node) && HonestRpc(node, rpc) && settings.rangeSize > 0
    requires InOperation(db, node.world, settings.configured)
    requires Underway(db.Snapshot(), db.chain, node, settings.configured, table, lists, plan, batchStart, n, end)
    requires batchStart <= n <= end < |node.headers|
    modifies db
    ensures InOperation(db, node.world, settings.configured) && db.startBlock == old(db.startBlock)
    ensures ManifestKept(old(db.Snapshot()), db.Snapshot())
    ensures old(AllComplete(db, node.world, settings.configured)) ==> AllComplete(db, node.world, settings.configured)
    ensures outcome.Stored? ==> Underway(db.Snapshot(), db.chain, node, settings.configured, table', lists', plan, batchStart, n + 1, end)
    ensures !outcome.Stored? ==> Reorg.Unchanged(db, old(db.Snapshot()), old(db.chain))
    ensures outcome.Discontinuous? <==> !old(IsPrefix(db.chain, node.headers))
    ensures Serves(rpc, settings) ==> outcome.Stored? || outcome.Discontinuous?
  {
    ghost var s, chain, stored := db.Snapshot(), db.chain, None;
    outcome, table', lists', stored := StoreNext(db, node, rpc, settings, observedHead, table, lists, plan, batchStart, n, end);
    if outcome.Stored? {
      StoredGoesOn(s, chain, node, settings.configured, table, lists, plan, batchStart, n, end, stored.value);
    }
  }

  /** Stores the blocks of a segment until it is done, the stop signal comes, or something fails. */
  method StoreSegment(db: Scanner.ScannerDatabase, node: Node, rpc: Rpc, settings: Settings, observedHead: nat, table: Contracts,
                      lists: LogsByBlock, plan: Plan, next: nat, end: int)
    returns (outcome: StoreOutcome)
    requires WellBehaved(node) && HonestRpc(node, rpc) && settings.rangeSize > 0
    requires InOperation(db, node.world, settings.configured)
    requires Underway(db.Snapshot(), db.chain, node, settings.configured, table, lists, plan, next, next, end)
    requires next <= end < |node.headers|
    modifies db
    ensures InOperation(db, node.world, settings.configured)
    ensures old(AllComplete(db, node.world, settings.configured)) ==> AllComplete(db, node.world, settings.configured)
    ensures ManifestKept(old(db.Snapshot()), db.Snapshot())
    ensures db.startBlock == old(db.startBlock)
    ensures outcome.Discontinuous? <==> !settings.aborted(next) && !old(IsPrefix(db.chain, node.headers))
    ensures if settings.aborted(next) || outcome.Discontinuous? then db.chain == old(db.chain) else IsPrefix(db.chain, node.headers)
    ensures outcome.Stored? && (forall n :: !settings.aborted(n)) ==>
              Next(db.Snapshot().ledger) == end + 1 && Settled(settings.configured, db.Snapshot())
    ensures Next(db.Snapshot().ledger) <= end + 1
    ensures Serves(rpc, settings) ==> outcome.Stored? || outcome.Discontinuous?
  {
    ghost var fits := IsPrefix(db.chain, node.headers);
    var n, contracts, byBlock: LogsByBlock := next, table, lists;
    while n <= end && !settings.aborted(n)
      invariant next <= n <= end + 1
      invariant if n == next then db.chain == old(db.chain) else fits && !settings.aborted(next)
      invariant InOperation(db, node.world, settings.configured) && db.startBlock == old(db.startBlock)
      invariant old(AllComplete(db, node.world, settings.configured)) ==> AllComplete(db, node.world, settings.configured)
      invariant ManifestKept(old(db.Snapshot()), db.Snapshot())
      invariant Underway(db.Snapshot(), db.chain, node, settings.configured, contracts, byBlock, plan, next, n, end)
      decreases end - n
    {
      outcome, contracts, byBlock := StoreAndClaim(db, node, rpc, settings, observedHead, contracts, byBlock, plan, next, n, end);
      if !outcome.Stored? {
        return;
      }
      n := n + 1;
    }
    outcome := Stored;
  }

  /** The branches the node is on while a poll reads it: when the stored chain is reconciled, when the
      segment is fetched, and when the stored chain is reconciled once more. */
  datatype Readings = Readings(first: Node, node: Node, later: Node)

  ghost predicate WellRead(readings: Readings, w: World) {
    && WellBehaved(readings.first) && WellBehaved(readings.node) && WellBehaved(readings.later)
    && readings.first.world == w && readings.node.world == w && readings.later.world == w
  }

  /** Whatever the node refuses, whatever branches it is on and wherever the stop signal falls, a poll
      leaves every table in agreement with the canonical chain and every followed contract covered through
      the checkpoint; unless it fails, the stored chain is then part of one of the node's. A segment indexed
      to its end leaves no known history of a manifest contract unclaimed. A node that stays on its branch
      and answers whatever it is asked makes a poll succeed, unless its chain cannot be reconciled with
      what is on file. */
  method Poll(db: Scanner.ScannerDatabase, readings: Readings, rpc: Rpc, settings: Settings, observedHead: nat) returns (outcome: PollOutcome)
    requires WellRead(readings, readings.node.world) && HonestRpc(readings.node, rpc) && NoGenesisCode(readings.node, settings.configured)
    requires settings.rangeSize > 0 && observedHead < |readings.node.headers|
    requires InOperation(db, readings.node.world, settings.configured)
    modifies db
    ensures InOperation(db, readings.node.world, settings.configured)
    ensures old(AllComplete(db, readings.node.world, settings.configured)) ==> AllComplete(db, readings.node.world, settings.configured)
    ensures ManifestKept(old(db.Snapshot()), db.Snapshot())
    ensures !outcome.PollFailed? ==> db.startBlock == old(db.startBlock)
    ensures outcome.NothingNew? ==> Next(db.Snapshot().ledger) > observedHead && IsPrefix(db.chain, readings.first.headers)
    ensures outcome.Discontinued? ==> readings.node != readings.first && IsPrefix(db.chain, readings.later.headers)
    ensures outcome.CaughtUp? || outcome.Behind? ==> IsPrefix(db.chain, readings.node.headers) || IsPrefix(db.chain, readings.first.headers)
    ensures outcome.CaughtUp? && (forall n :: !settings.aborted(n)) ==> Next(db.Snapshot().ledger) > observedHead
    ensures outcome.Behind? && (forall n :: !settings.aborted(n)) && old(IsPrefix(db.chain, readings.first.headers)) ==>
              Next(db.Snapshot().ledger) > old(Next(db.Snapshot().ledger))
    ensures outcome.Behind? ==> Next(db.Snapshot().ledger) <= observedHead
    ensures outcome.PollFailed? && Serves(rpc, settings) ==>
              readings.node != readings.first || CannotReconcile(old(db.Snapshot()), old(db.chain), readings.first)
    ensures (outcome.CaughtUp? || outcome.Behind?) && (forall n :: !settings.aborted(n)) ==>
              Settled(settings.configured, db.Snapshot()) && IsPrefix(db.chain, readings.node.headers)
  {
    var error := Reconcile(db, readings.first, settings);
    if error.Some? {
      return PollFailed;
    }
    var checkpoint := db.Checkpoint();
    var next: nat := if checkpoint.None? then db.startBlock else checkpoint.value.number + 1;
    CheckpointIsNext(db, checkpoint);
    if next > observedHead {
      return NothingNew;
    }
    outcome := IndexSegment(db, readings.node, readings.later, rpc, settings, observedHead, next);
  }

  lemma CheckpointIsNext(db: Scanner.ScannerDatabase, checkpoint: Option<BlockRef>)
    requires db.Valid()
    requires checkpoint.None? <==> db.chain == map[]
    requires checkpoint.Some? ==> checkpoint.value.number == Tip(db.Snapshot().ledger) && checkpoint.value.number in db.chain
    ensures Next(db.Snapshot().ledger) == if checkpoint.None? then db.startBlock else checkpoint.value.number + 1
  {
  }

  /** The rest of a poll: the next segment is fetched and stored. */
  method IndexSegment(db: Scanner.ScannerDatabase, node: Node, later: Node, rpc: Rpc, settings: Settings, observedHead: nat, next: nat)
    returns (outcome: PollOutcome)
    requires WellBehaved(node) && HonestRpc(node, rpc) && NoGenesisCode(node, settings.configured) && settings.rangeSize > 0
    requires WellBehaved(later) && later.world == node.world
    requires next <= observedHead < |node.headers| && next == Next(db.Snapshot().ledger)
    requires InOperation(db, node.world, settings.configured)
    modifies db
    ensures InOperation(db, node.world, settings.configured) && !outcome.NothingNew?
    ensures old(AllComplete(db, node.world, settings.configured)) ==> AllComplete(db, node.world, settings.configured)
    ensures ManifestKept(old(db.Snapshot()), db.Snapshot())
    ensures !outcome.PollFailed? ==> db.startBlock == old(db.startBlock)
    ensures outcome.Discontinued? ==> !old(IsPrefix(db.chain, node.headers)) && IsPrefix(db.chain, later.headers)
    ensures outcome.CaughtUp? || outcome.Behind? ==> IsPrefix(db.chain, node.headers) || db.chain == old(db.chain)
    ensures outcome.CaughtUp? && (forall n :: !settings.aborted(n)) ==> Next(db.Snapshot().ledger) > observedHead
    ensures outcome.Behind? && (forall n :: !settings.aborted(n)) ==> Next(db.Snapshot().ledger) > next
    ensures outcome.Behind? ==> Next(db.Snapshot().ledger) <= observedHead
    ensures outcome.PollFailed? ==> !Serves(rpc, settings) || !old(IsPrefix(db.chain, node.headers))
    ensures (outcome.CaughtUp? || outcome.Behind?) && (forall n :: !settings.aborted(n)) ==>
              Settled(settings.configured, db.Snapshot()) && IsPrefix(db.chain, node.headers)
  {
    var segment, table, lists := FetchSegment(db.contracts, db.startBlock, node, rpc, settings, observedHead, next, db.Snapshot(), db.chain);
    if segment.None? {
      return PollFailed;
    }
    var end := segment.value.toBlock;
    var stored := StoreSegment(db, node, rpc, settings, observedHead, table, lists, segment.value.plan, next, end);
    if stored.Discontinuous? {
      var error := Reconcile(db, later, settings);
      return if error.Some? then PollFailed else Discontinued;
    }
    if !stored.Stored? {
      return PollFailed;
    }
    outcome := if end >= observedHead then CaughtUp else Behind;
  }

  /** Plans and fetches the next segment. */
  method FetchSegment(contracts: Contracts, startBlock: nat, node: Node, rpc: Rpc, settings: Settings, observedHead: nat, next: nat,
                      ghost s: Database.Store, ghost chain: Chain)
    returns (segment: Option<LogSegment>, table: Contracts, lists: LogsByBlock)
    requires WellBehaved(node) && HonestRpc(node, rpc) && NoGenesisCode(node, settings.configured) && settings.rangeSize > 0
    requires contracts == s.registry.contracts && startBlock == s.ledger.startBlock
    requires next <= observedHead < |node.headers| && next == Next(s.ledger)
    requires Sound(s, chain)
    ensures segment.None? ==> !Obliging(rpc)
    ensures segment.Some? ==>
      && next <= segment.value.toBlock <= observedHead
      && Underway(s, chain, node, settings.configured, table, lists, segment.value.plan, next, next, segment.value.toBlock)
  {
    table, lists := TableInMemory(contracts, settings.configured), map[];
    var sources := LogSources(table);
    TableIsReady(s, chain, settings.configured);
    SourcesScannable(startBlock, next, settings.configured, table, sources);
    if Obliging(rpc) {
      NeverStuck(node, rpc, sources, next, observedHead, startBlock, settings.historicalCodeUnavailable);
    }
    segment := GetNextLogSegment(rpc, sources, next, observedHead, startBlock, settings.historicalCodeUnavailable, settings.rangeSize);
    if segment.None? {
      return;
    }
    lists := MergeLogs(map[], segment.value.logs);
    FetchedIsReady(s, chain, node, rpc, settings.configured, settings.historicalCodeUnavailable, sources, segment.value, lists, next);
    table := ObservedInMemory(table, segment.value.plan.observations);
  }

  lemma FetchedIsReady(s: Database.Store, chain: Chain, node: Node, rpc: Rpc, configured: Overlay, unavailable: set<Address>,
                       cs: seq<Source>, segment: LogSegment, lists: LogsByBlock, next: nat)
    requires WellBehaved(node) && HonestRpc(node, rpc) && NoGenesisCode(node, configured)
    requires Sound(s, chain) && next == Next(s.ledger)
    requires Sources(TableInMemory(s.registry.contracts, configured), cs)
    requires IsSegment(rpc, cs, s.ledger.startBlock, unavailable, next, segment) && segment.toBlock < |node.headers|
    requires Merged(map[], segment.logs, lists)
    ensures var table := ObservedInMemory(TableInMemory(s.registry.contracts, configured), segment.plan.observations);
            && InSegment(s, chain, node, configured, table, lists, segment.plan, next, segment.toBlock)
            && AllWillClaim(s, configured, table, segment.plan, segment.toBlock, next)
  {
    var table := TableInMemory(s.registry.contracts, configured);
    TableIsReady(s, chain, configured);
    SourcesScannable(s.ledger.startBlock, next, configured, table, cs);
    SegmentBegins(s, chain, node, rpc, configured, unavailable, cs, segment, lists, table);
    SegmentWillClaim(s, chain, configured, cs, next, segment.toBlock, rpc.codeAt, unavailable, segment.plan);
  }

  lemma SourcesScannable(startBlock: nat, next: nat, configured: Overlay, table: Contracts, cs: seq<Source>)
    requires AllRowsReady(startBlock, configured, next, table) && Sources(table, cs) && startBlock <= next
    ensures Scannable(cs, next, startBlock) && Checkable(cs)
    ensures forall k, end :: 0 <= k < |cs| && next <= end ==> Plannable(cs[k], next, end, startBlock)
  {
    forall k | 0 <= k < |cs|
      ensures cs[k].row.checkedBlock.Some? ==> 0 <= cs[k].row.checkedBlock.value < next
    {
      assert RowReady(startBlock, configured, next, cs[k].address, table[cs[k].address]);
    }
  }
}
