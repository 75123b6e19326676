/** The blocks a poll stores: genuine, and complete in what they say about followed contracts. */
module PollBlocks {
  import opened Records
  import opened LedgerProofs
  import opened Runs
  import opened World
  import opened Rules
  import opened Node
  import opened Planner
  import opened Segments
  import opened LogsByBlock
  import opened Discovery
  import opened Indexing
  import opened Coverage
  import opened CoverageProofs
  import opened Cursors
  import opened Readiness
  import Database
  import Registry
  import RegistryProofs

  // ---------------------------------------------------------------- what is assumed of the chain

  /** A transaction announces an address as one kind of contract. */
  ghost predicate KindsFixed(w: World) {
    && (forall h, table, c :: EventJustifies(w, h, table, c) ==> KindFixed(w, h, c))
    && (forall h, ds, c :: CoordinatorJustifies(w, h, ds, c) && c.position.Some? ==> KindFixed(w, h, c))
    && (forall h, t, a :: !w.identity(h, t, a).provenance.Manifest?)
  }

  predicate KindFixed(w: World, h: Hash, c: DiscoveredContract)
  {
    c.position.Some? ==> c.identity.kind == w.identity(h, c.position.value.txHash, c.address).kind
  }

  ghost predicate WellBehaved(node: Node) {
    && IsBranch(node.world, node.headers)
    && TransactionsOnce(node) && DecodesWords(node.world) && KindsFixed(node.world)
    && forall a :: CodeStays(node, a) && QuietWithoutCode(node, a)
  }

  // ---------------------------------------------------------------- the contracts in memory

  /** The row in memory is about the same contract, and its deployment is in order if that on file is. */
  predicate Mirrored(startBlock: nat, configured: Overlay, a: Address, stored: Registry.ContractRow, row: Registry.ContractRow) {
    && SameTracking(stored, row)
    && (a in configured || InOrder(startBlock, stored) ==> InMemory(startBlock, configured, a, row))
  }

  /** The table in memory shows the canonical contract rows. */
  ghost predicate Mirrors(s: Database.Store, configured: Overlay, table: Contracts) {
    && (forall a :: a in table <==> a in s.registry.contracts && s.registry.contracts[a].canonical)
    && (forall a {:trigger Mirrored(s.ledger.startBlock, configured, a, s.registry.contracts[a], table[a])} :: a in table ==>
          Mirrored(s.ledger.startBlock, configured, a, s.registry.contracts[a], table[a]))
  }

  /** For the rest of the segment, the logs of every followed contract have been found. */
  ghost predicate LogsReady(node: Node, startBlock: nat, configured: Overlay, table: Contracts, lists: LogsByBlock, from: int, to: int) {
    forall a, m :: a in table && Followed(table[a]) && from <= m <= to && EffectiveStart(startBlock, configured, a, table[a]) <= m ==>
      FoundFor(node, At(lists, m), a, m)
  }

  /** The plan's inputs and observations are about contracts in the table, and in keeping with them. */
  ghost predicate PlanFits(startBlock: nat, configured: Overlay, table: Contracts, plan: Plan) {
    && (forall i :: 0 <= i < |plan.inputs| ==> plan.inputs[i].address in table)
    && InputsInOrder(startBlock, configured, table, plan.inputs)
    && (forall i :: 0 <= i < |plan.observations| ==> Observable(table, plan.observations[i]))
  }

  /** Deployments are only looked for where no announcement is known. */
  predicate Observable(table: Contracts, o: DeploymentObservation) {
    o.contractAddress in table && table[o.contractAddress].discovery.None?
  }

  // ---------------------------------------------------------------- the block

  function LogKeys(h: Hash, receipts: seq<Receipt>, table: Contracts): set<EvidenceKey> {
    set r, l | 0 <= r < |receipts| && 0 <= l < |receipts[r].logs| && receipts[r].logs[l].emitter in table ::
      EvidenceKey(Logs, h, receipts[r].logs[l].index)
  }

  function TransactionKeys(h: Hash, receipts: seq<Receipt>): set<EvidenceKey> {
    set r | 0 <= r < |receipts| :: EvidenceKey(Transactions, h, receipts[r].txHash)
  }

  /** The transactions of the fetched receipts, and their logs by known contracts, as decoded. */
  function EvidenceOf(w: World, h: Hash, receipts: seq<Receipt>, table: Contracts, describe: EvidenceKey -> Json): map<EvidenceKey, Json> {
    map k | k in LogKeys(h, receipts, table) + TransactionKeys(h, receipts) :: if KeepsPayload(k.table) then w.payload(k) else describe(k)
  }

  /** What the segment's last block carries in addition. */
  datatype SegmentEnd = SegmentEnd(observations: seq<DeploymentObservation>, cursors: seq<LogScanCursor>)

  function BlockOf(node: Node, n: nat, finalizedThrough: nat, indexed: Indexed, tokens: seq<TokenMetadata>, end: SegmentEnd,
                   describe: EvidenceKey -> Json): IndexedBlock
    requires n < |node.headers|
  {
    var header := node.headers[n];
    IndexedBlock(n, header.hash, header.parentHash, finalizedThrough,
                 EvidenceOf(node.world, header.hash, indexed.receipts, indexed.contracts, describe),
                 indexed.discovered, end.observations, tokens, end.cursors)
  }

  lemma FetchedIsStored(node: Node, b: IndexedBlock, receipts: seq<Receipt>, table: Contracts, describe: EvidenceKey -> Json, a: Address)
    requires AllFetched(node.world, b.hash, receipts, a) && a in table
    requires b.evidence == EvidenceOf(node.world, b.hash, receipts, table, describe)
    ensures EvidenceStored(node.world, a, b)
  {
    forall t | EmitsWithin(node.world, a, b.hash, t)
      ensures EvidenceKey(Transactions, b.hash, t) in b.evidence
    {
      var r, l :| EmitsWithinAt(node.world, a, b.hash, t, r, l);
      assert Mentions(node.world.receipts(b.hash)[r], a);
      var k :| 0 <= k < |receipts| && receipts[k] == node.world.receipts(b.hash)[r];
      assert EvidenceKey(Transactions, b.hash, receipts[k].txHash) in TransactionKeys(b.hash, receipts);
    }
    forall i | Emits(node.world, a, b.hash, i)
      ensures EvidenceKey(Logs, b.hash, i) in b.evidence
    {
      var r, l :| EmitsAt(node.world, a, b.hash, i, r, l);
      var receipt := node.world.receipts(b.hash)[r];
      assert Mentions(receipt, a);
      var k :| 0 <= k < |receipts| && receipts[k] == receipt;
      assert EvidenceKey(Logs, b.hash, receipts[k].logs[l].index) in LogKeys(b.hash, receipts, table);
    }
  }

  /** And nothing is stored but for the sake of a contract of the table. */
  lemma StoredIsWitnessed(w: World, h: Hash, receipts: seq<Receipt>, table: Contracts, describe: EvidenceKey -> Json)
    requires FromBlock(w, h, receipts) && AllSelected(w, h, table.Keys, receipts)
    ensures AllWitnessed(w, table.Keys, EvidenceOf(w, h, receipts, table, describe).Keys)
  {
    forall k | k in EvidenceOf(w, h, receipts, table, describe)
      ensures Witnessed(w, table.Keys, k)
    {
      if k in LogKeys(h, receipts, table) {
        LogIsWitnessed(w, h, receipts, table, k);
      } else {
        var i :| 0 <= i < |receipts| && k == EvidenceKey(Transactions, h, receipts[i].txHash);
        assert SelectedBy(w, h, table.Keys, receipts[i].txHash);
      }
    }
  }

  lemma LogIsWitnessed(w: World, h: Hash, receipts: seq<Receipt>, table: Contracts, k: EvidenceKey)
    requires FromBlock(w, h, receipts) && k in LogKeys(h, receipts, table)
    ensures Witnessed(w, table.Keys, k)
  {
    var i, l :| 0 <= i < |receipts| && 0 <= l < |receipts[i].logs| && receipts[i].logs[l].emitter in table
                && k == EvidenceKey(Logs, h, receipts[i].logs[l].index);
    assert receipts[i] in w.receipts(h);
    var r :| 0 <= r < |w.receipts(h)| && w.receipts(h)[r] == receipts[i];
    assert EmitsAt(w, receipts[i].logs[l].emitter, h, k.position, r, l);
    assert Emits(w, receipts[i].logs[l].emitter, h, k.position);
  }

  /** The table is what is on file and what the block announces. */
  lemma TableIsKnown(s: Database.Store, configured: Overlay, current: Contracts, indexed: Indexed, b: IndexedBlock)
    requires Mirrors(s, configured, current) && indexed.contracts == Table(current, indexed.discovered) && b.contracts == indexed.discovered
    ensures indexed.contracts.Keys <= s.registry.contracts.Keys + RegistryProofs.Addresses(b.contracts)
  {
    forall a | a in indexed.contracts
      ensures a in s.registry.contracts.Keys + RegistryProofs.Addresses(b.contracts)
    {
      TableKeys(current, indexed.discovered, a);
    }
  }

  /** What else the block says: how far the chain counts as final, the token readings, and how the rows are
      described whose description may change. */
  ghost predicate SaysBesides(b: IndexedBlock, finalizedThrough: nat, tokens: seq<TokenMetadata>, describe: EvidenceKey -> Json) {
    && b.finalizedThrough == finalizedThrough && b.tokenMetadata == tokens
    && forall k :: k in b.evidence && !KeepsPayload(k.table) ==> b.evidence[k] == describe(k)
  }

  // ---------------------------------------------------------------- it is genuine

  lemma DiscoveryIdentity(w: World, h: Hash, current: Contracts, ds: seq<DiscoveredContract>, i: nat)
    requires KindsFixed(w) && AllJustified(w, h, current, ds) && i < |ds|
    ensures ds[i].position.Some? && ds[i].identity == w.identity(h, ds[i].position.value.txHash, ds[i].address)
  {
    assert Justified(w, h, current, ds, i);
    assert KindFixed(w, h, ds[i]);
  }

  lemma BlockIsTrue(node: Node, n: nat, segmentEnd: int, current: Contracts, parent: Option<Hash>, lists: LogsByBlock,
                    indexed: Indexed, b: IndexedBlock, describe: EvidenceKey -> Json)
    requires n < |node.headers| && WellBehaved(node)
    requires IsIndexed(node, n, segmentEnd, current, parent, lists, indexed)
    requires b.number == n && b.hash == node.headers[n].hash && b.parentHash == node.headers[n].parentHash
    requires b.evidence == EvidenceOf(node.world, b.hash, indexed.receipts, indexed.contracts, describe) && b.contracts == indexed.discovered
    ensures TrueBlock(node.world, b)
  {
    forall i | 0 <= i < |b.contracts|
      ensures AnnouncementAgrees(node.world, b.hash, b.contracts[i])
    {
      DiscoveryIdentity(node.world, b.hash, current, indexed.discovered, i);
    }
    assert Distinct(current, indexed.discovered);
    forall k | k in b.evidence
      ensures PayloadAgrees(node.world, k, b.evidence[k])
    {
    }
  }

  // ---------------------------------------------------------------- it is complete

  /** After the block, the canonical rows are those of the closed table. */
  lemma StoredMirrors(w: World, s: Database.Store, chain: Chain, configured: Overlay, n: nat, current: Contracts, indexed: Indexed, b: IndexedBlock)
    requires Sound(s, chain) && Genuine(s, Append(b)) && Database.StoreBlock(s, b).Success?
    requires Mirrors(s, configured, current) && AnnouncesNew(configured, s, b) && ObservesKnown(current, b)
    requires Consistent(w, b.hash, n, current, indexed.contracts, indexed.discovered)
    requires b.number == n && b.contracts == indexed.discovered
    ensures Mirrors(Database.StoreBlock(s, b).value, configured, indexed.contracts)
  {
    var after := Database.StoreBlock(s, b).value;
    AppendIsWellPlaced(s, chain, b);
    forall a
      ensures a in indexed.contracts <==> a in after.registry.contracts && after.registry.contracts[a].canonical
      ensures a in indexed.contracts ==>
                Mirrored(after.ledger.startBlock, configured, a, after.registry.contracts[a], indexed.contracts[a])
    {
      RowMirrors(s, chain, configured, current, indexed, b, a);
    }
  }

  ghost predicate ObservesKnown(current: Contracts, b: IndexedBlock) {
    forall i :: 0 <= i < |b.observations| ==> Observable(current, b.observations[i])
  }

  lemma RowMirrors(s: Database.Store, chain: Chain, configured: Overlay, current: Contracts, indexed: Indexed, b: IndexedBlock, a: Address)
    requires Sound(s, chain) && Genuine(s, Append(b)) && Database.StoreBlock(s, b).Success?
    requires Mirrors(s, configured, current) && AnnouncesNew(configured, s, b) && ObservesKnown(current, b)
    requires indexed.contracts == Table(current, indexed.discovered) && Distinct(current, indexed.discovered)
    requires b.contracts == indexed.discovered
    ensures var after := Database.StoreBlock(s, b).value;
            && (a in indexed.contracts <==> a in after.registry.contracts && after.registry.contracts[a].canonical)
            && (a in indexed.contracts ==> Mirrored(s.ledger.startBlock, configured, a, after.registry.contracts[a], indexed.contracts[a]))
  {
    TableKeys(current, indexed.discovered, a);
    StoredRowIs(s, chain, configured, b, a);
    if i :| 0 <= i < |b.contracts| && b.contracts[i].address == a {
      TableRow(current, indexed.discovered, i);
      NewRowIs(s, chain, configured, b, i);
    } else {
      assert a !in RegistryProofs.Addresses(b.contracts);
      if a in current {
        KnownRowMirrors(s, configured, current, b, a);
      }
    }
  }

  /** A row that was there before keeps its deployment, unless it is observed, and then it has no announcement. */
  lemma KnownRowMirrors(s: Database.Store, configured: Overlay, current: Contracts, b: IndexedBlock, a: Address)
    requires Database.StoreBlock(s, b).Success? && RegistryProofs.DistinctAddresses(b.contracts)
    requires Mirrors(s, configured, current) && ObservesKnown(current, b)
    requires a in current && a !in RegistryProofs.Addresses(b.contracts)
    ensures var after := Database.StoreBlock(s, b).value;
            a in after.registry.contracts && Mirrored(s.ledger.startBlock, configured, a, after.registry.contracts[a], current[a])
  {
    FoundRow(s.registry, b.number, b.hash, b.contracts, a);
    var found := Registry.StoreContracts(s.registry, b.number, b.hash, b.contracts).value;
    ObservedRow(found.contracts, b.number, b.observations, a);
    assert Mirrored(s.ledger.startBlock, configured, a, s.registry.contracts[a], current[a]);
    forall i | 0 <= i < |b.observations| && b.observations[i].contractAddress == a
      ensures current[a].discovery.None?
    {
      assert Observable(current, b.observations[i]);
    }
  }

  /** The row of a new contract is the one its announcement gives. */
  lemma NewRowIs(s: Database.Store, chain: Chain, configured: Overlay, b: IndexedBlock, i: nat)
    requires Sound(s, chain) && Genuine(s, Append(b)) && Database.StoreBlock(s, b).Success? && i < |b.contracts|
    requires AnnouncesNew(configured, s, b)
    ensures var a, after := b.contracts[i].address, Database.StoreBlock(s, b).value.registry.contracts;
            a in after && SameTracking(after[a], RowOf(b.contracts[i]))
  {
    var a := b.contracts[i].address;
    FoundRow(s.registry, b.number, b.hash, b.contracts, a);
    var found := Registry.StoreContracts(s.registry, b.number, b.hash, b.contracts).value;
    ObservedRow(found.contracts, b.number, b.observations, a);
    assert found.contracts[a] == Registry.UpsertContract(s.registry.contracts, b.contracts[i], b.number)[a];
    assert a in s.registry.contracts ==>
        RegistryProofs.RowOk(s.registry.discoveries, s.ledger.startBlock, a, s.registry.contracts[a]);
  }

  lemma BlockBringsLogs(node: Node, configured: Overlay, n: nat, segmentEnd: int, current: Contracts,
                        parent: Option<Hash>, lists: LogsByBlock, indexed: Indexed, b: IndexedBlock, after: Database.Store, describe: EvidenceKey -> Json)
    requires n <= segmentEnd && n < |node.headers| && IsIndexed(node, n, segmentEnd, current, parent, lists, indexed)
    requires b.number == n && b.hash == node.headers[n].hash
    requires b.evidence == EvidenceOf(node.world, b.hash, indexed.receipts, indexed.contracts, describe)
    requires LogsReady(node, after.ledger.startBlock, configured, current, lists, n, segmentEnd)
    requires Mirrors(after, configured, indexed.contracts)
    ensures BringsLogs(node.world, configured, after, b)
  {
    forall a | a in after.registry.contracts && Followed(after.registry.contracts[a])
               && EffectiveStart(after.ledger.startBlock, configured, a, after.registry.contracts[a]) <= n
      ensures EvidenceStored(node.world, a, b)
    {
      assert a in indexed.contracts
             && Mirrored(after.ledger.startBlock, configured, a, after.registry.contracts[a], indexed.contracts[a]);
      TableKeys(current, indexed.discovered, a);
      if i :| 0 <= i < |indexed.discovered| && indexed.discovered[i].address == a {
        TableRow(current, indexed.discovered, i);
        assert Followed(RowOf(indexed.discovered[i]));
      } else {
        assert FoundFor(node, At(lists, n), a, n);
      }
      FetchedIsStored(node, b, indexed.receipts, indexed.contracts, describe, a);
    }
  }

  lemma BlockBringsCursors(configured: Overlay, after: Database.Store, table: Contracts, b: IndexedBlock, inputs: seq<LogScanInput>, coverageStart: int)
    requires Mirrors(after, configured, table)
    requires InputsInOrder(after.ledger.startBlock, configured, table, inputs)
    requires forall c :: c in b.logScanCursors ==> IsCursor(table, inputs, b.number, after.ledger.startBlock, coverageStart, c)
    ensures BringsCursors(configured, after, b)
  {
    forall i | 0 <= i < |b.logScanCursors|
      ensures CursorFits(after.ledger.startBlock, configured, after.registry.contracts, b.logScanCursors[i])
    {
      var c := b.logScanCursors[i];
      assert IsCursor(table, inputs, b.number, after.ledger.startBlock, coverageStart, c);
      var a := c.contractAddress;
      assert Mirrored(after.ledger.startBlock, configured, a, after.registry.contracts[a], table[a]);
      if a in configured || InOrder(after.ledger.startBlock, after.registry.contracts[a]) {
        ClaimIsCovered(after.ledger.startBlock, configured, table, inputs, b.number, coverageStart, c);
      }
    }
  }

  /** Only the last block of a segment carries observations and cursors; both are then about the
      contracts planned for, or about the closed table. */
  ghost predicate EndFits(startBlock: nat, configured: Overlay, current: Contracts, table: Contracts, end: SegmentEnd, n: nat,
                          inputs: seq<LogScanInput>, coverageStart: int)
  {
    && (forall i :: 0 <= i < |end.observations| ==> Observable(current, end.observations[i]))
    && InputsInOrder(startBlock, configured, table, inputs)
    && (forall c :: c in end.cursors ==> IsCursor(table, inputs, n, startBlock, coverageStart, c))
  }

  lemma IndexedAnnouncesNew(w: World, s: Database.Store, configured: Overlay, n: nat, current: Contracts, indexed: Indexed, b: IndexedBlock)
    requires Mirrors(s, configured, current) && ConfiguredSeeded(s, configured)
    requires Consistent(w, b.hash, n, current, indexed.contracts, indexed.discovered) && b.contracts == indexed.discovered
    ensures AnnouncesNew(configured, s, b)
  {
    forall i | 0 <= i < |b.contracts|
      ensures Unknown(s.registry.contracts, configured, b.contracts[i].address)
    {
      assert b.contracts[i].address !in current;
    }
  }

  /** An observed contract is known and has no announcement its deployment could be before. */
  lemma ObservationsFit(w: World, s: Database.Store, configured: Overlay, n: nat, current: Contracts, indexed: Indexed, b: IndexedBlock)
    requires Mirrors(s, configured, current) && ObservesKnown(current, b)
    requires Consistent(w, b.hash, n, current, indexed.contracts, indexed.discovered) && b.contracts == indexed.discovered
    ensures forall i :: 0 <= i < |b.observations| ==>
              b.observations[i].contractAddress !in RegistryProofs.Addresses(b.contracts) && Observes(s, b.observations[i])
  {
    forall i | 0 <= i < |b.observations|
      ensures b.observations[i].contractAddress !in RegistryProofs.Addresses(b.contracts)
      ensures Observes(s, b.observations[i])
    {
      var a := b.observations[i].contractAddress;
      assert Observable(current, b.observations[i]);
      assert Mirrored(s.ledger.startBlock, configured, a, s.registry.contracts[a], current[a]);
    }
  }

  lemma BlockIsWitnessed(w: World, s: Database.Store, configured: Overlay, current: Contracts, indexed: Indexed, b: IndexedBlock,
                         describe: EvidenceKey -> Json)
    requires FromBlock(w, b.hash, indexed.receipts) && AllSelected(w, b.hash, indexed.contracts.Keys, indexed.receipts)
    requires Mirrors(s, configured, current) && indexed.contracts == Table(current, indexed.discovered) && b.contracts == indexed.discovered
    requires b.evidence == EvidenceOf(w, b.hash, indexed.receipts, indexed.contracts, describe)
    ensures BlockWitnessed(w, s, b)
  {
    StoredIsWitnessed(w, b.hash, indexed.receipts, indexed.contracts, describe);
    TableIsKnown(s, configured, current, indexed, b);
    MoreKnown(w, indexed.contracts.Keys, s.registry.contracts.Keys + RegistryProofs.Addresses(b.contracts), b.evidence.Keys);
  }

  lemma BuiltSaysBesides(node: Node, n: nat, indexed: Indexed, end: SegmentEnd, finalizedThrough: nat, tokens: seq<TokenMetadata>,
                         describe: EvidenceKey -> Json)
    requires n < |node.headers|
    ensures SaysBesides(BlockOf(node, n, finalizedThrough, indexed, tokens, end, describe), finalizedThrough, tokens, describe)
  {
  }

  /** The block a poll builds says what the world says, of contracts that are known, and announces new ones only. */
  lemma BlockFits(node: Node, s: Database.Store, configured: Overlay, n: nat, segmentEnd: int, current: Contracts, parent: Option<Hash>,
                  lists: LogsByBlock, indexed: Indexed, b: IndexedBlock, describe: EvidenceKey -> Json)
    requires n < |node.headers| && WellBehaved(node) && AgreesWithWorld(node.world, s)
    requires Mirrors(s, configured, current) && ConfiguredSeeded(s, configured)
    requires IsIndexed(node, n, segmentEnd, current, parent, lists, indexed)
    requires b.number == n && b.hash == node.headers[n].hash && b.parentHash == node.headers[n].parentHash
    requires b.evidence == EvidenceOf(node.world, b.hash, indexed.receipts, indexed.contracts, describe) && b.contracts == indexed.discovered
    requires ObservesKnown(current, b)
    ensures TrueStep(node.world, s, Append(b)) && Genuine(s, Append(b)) && AnnouncesNew(configured, s, b)
    ensures forall i :: 0 <= i < |b.observations| ==>
              b.observations[i].contractAddress !in RegistryProofs.Addresses(b.contracts) && Observes(s, b.observations[i])
  {
    BlockIsTrue(node, n, segmentEnd, current, parent, lists, indexed, b, describe);
    TrueBlockIsGenuine(node.world, s, b);
    BlockIsWitnessed(node.world, s, configured, current, indexed, b, describe);
    IndexedAnnouncesNew(node.world, s, configured, n, current, indexed, b);
    ObservationsFit(node.world, s, configured, n, current, indexed, b);
  }

  /** Once stored, it has brought along all that is to be on file, and the table it leaves in memory shows
      the contracts on file. */
  lemma StoredIsComplete(node: Node, s: Database.Store, chain: Chain, configured: Overlay, n: nat, segmentEnd: int, current: Contracts,
                         parent: Option<Hash>, lists: LogsByBlock, indexed: Indexed, end: SegmentEnd, b: IndexedBlock,
                         inputs: seq<LogScanInput>, coverageStart: int, describe: EvidenceKey -> Json)
    requires n <= segmentEnd && n < |node.headers| && Sound(s, chain) && Genuine(s, Append(b)) && Database.StoreBlock(s, b).Success?
    requires Mirrors(s, configured, current) && AnnouncesNew(configured, s, b) && ObservesKnown(current, b)
    requires IsIndexed(node, n, segmentEnd, current, parent, lists, indexed)
    requires LogsReady(node, s.ledger.startBlock, configured, current, lists, n, segmentEnd)
    requires EndFits(s.ledger.startBlock, configured, current, indexed.contracts, end, n, inputs, coverageStart)
    requires b.number == n && b.hash == node.headers[n].hash && b.contracts == indexed.discovered && b.logScanCursors == end.cursors
    requires b.evidence == EvidenceOf(node.world, b.hash, indexed.receipts, indexed.contracts, describe)
    ensures var after := Database.StoreBlock(s, b).value;
            && BringsLogs(node.world, configured, after, b) && BringsCursors(configured, after, b)
            && Mirrors(after, configured, indexed.contracts)
  {
    var after := Database.StoreBlock(s, b).value;
    StoredMirrors(node.world, s, chain, configured, n, current, indexed, b);
    AppendIsWellPlaced(s, chain, b);
    BlockBringsLogs(node, configured, n, segmentEnd, current, parent, lists, indexed, b, after, describe);
    BlockBringsCursors(configured, after, indexed.contracts, b, inputs, coverageStart);
  }

  lemma BlockIsComplete(node: Node, s: Database.Store, chain: Chain, configured: Overlay, n: nat, segmentEnd: int, current: Contracts,
                        parent: Option<Hash>, lists: LogsByBlock, indexed: Indexed, end: SegmentEnd, b: IndexedBlock,
                        inputs: seq<LogScanInput>, coverageStart: int, finalizedThrough: nat, tokens: seq<TokenMetadata>, describe: EvidenceKey -> Json)
    requires n <= segmentEnd && n < |node.headers| && WellBehaved(node) && AgreesWithWorld(node.world, s)
    requires Sound(s, chain) && Mirrors(s, configured, current) && ConfiguredSeeded(s, configured)
    requires IsIndexed(node, n, segmentEnd, current, parent, lists, indexed)
    requires LogsReady(node, s.ledger.startBlock, configured, current, lists, n, segmentEnd)
    requires EndFits(s.ledger.startBlock, configured, current, indexed.contracts, end, n, inputs, coverageStart)
    requires b == BlockOf(node, n, finalizedThrough, indexed, tokens, end, describe)
    ensures ReadyStep(node.world, configured, s, Append(b)) && Genuine(s, Append(b))
    ensures Database.StoreBlock(s, b).Success? ==> Mirrors(Database.StoreBlock(s, b).value, configured, indexed.contracts)
  {
    BlockFits(node, s, configured, n, segmentEnd, current, parent, lists, indexed, b, describe);
    if Database.StoreBlock(s, b).Success? {
      StoredIsComplete(node, s, chain, configured, n, segmentEnd, current, parent, lists, indexed, end, b, inputs, coverageStart, describe);
    }
  }

  // ---------------------------------------------------------------- it is accepted

  /** Every observation is one of block `n`. */
  predicate ObservedAt(n: int, os: seq<DeploymentObservation>) {
    forall i :: 0 <= i < |os| ==>
      os[i].checkedBlock == n && (os[i].deployment.Some? ==> 0 <= os[i].deployment.value.block <= n)
  }

  /** Nothing keeps the database from taking the block that comes next. */
  lemma BlockIsAccepted(w: World, s: Database.Store, chain: Chain, current: Contracts, table: Contracts, b: IndexedBlock,
                        inputs: seq<LogScanInput>, coverageStart: int)
    requires Sound(s, chain) && Genuine(s, Append(b)) && b.number == Next(s.ledger)
    requires s.ledger.indexedBlock.Some? ==> b.parentHash == chain[s.ledger.indexedBlock.value].hash
    requires Consistent(w, b.hash, b.number, current, table, b.contracts)
    requires ObservedAt(b.number, b.observations)
    requires forall c :: c in b.logScanCursors ==> IsCursor(table, inputs, b.number, s.ledger.startBlock, coverageStart, c)
    requires forall i :: 0 <= i < |b.tokenMetadata| ==> b.tokenMetadata[i].readBlock == b.number
    ensures Database.StoreBlock(s, b).Success?
  {
    forall i | 0 <= i < |b.logScanCursors|
      ensures 0 <= b.logScanCursors[i].startBlock <= b.logScanCursors[i].lastRetrievedBlock == b.number
    {
      assert IsCursor(table, inputs, b.number, s.ledger.startBlock, coverageStart, b.logScanCursors[i]);
    }
    StoreAcceptsExactly(s.ledger, chain, b);
    assert Registry.Store(s.registry, b).Success?;
  }
}
