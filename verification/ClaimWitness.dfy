/** A run of the indexer after which a cursor claims a block whose logs are not on file: a contract is
    found, taken into the manifest, and kept from its announcement on; then a deployment is recorded
    that lies before the announcement. */
module ClaimWitness {
  import opened Records
  import opened Database
  import opened LedgerProofs
  import opened Runs
  import opened World
  import opened Coverage
  import opened CoverageProofs
  import opened ClaimProofs
  import opened Cursors
  import opened Planner
  import opened Readiness
  import opened Node
  import opened PollBlocks
  import opened PollSegments
  import Discovery
  import Ledger
  import LogScan
  import Registry
  import Rules
  import SeedProofs

  // ---------------------------------------------------------------- the chain

  const FACTORY: Address := 4
  const POOL: Address := 5

  const FACTORY_ENTRY := ManifestContract(FACTORY, "factory", "securityPoolFactory")
  const POOL_ENTRY := ManifestContract(POOL, "pool", "securityPool")

  /** The pool emits something in block 1; the factory announces it in block 2. */
  function ReceiptsAt(h: Hash): seq<Receipt> {
    if h == 11 then [Receipt(21, [Log(POOL, 0, 0, [])])]
    else if h == 12 then [Receipt(22, [Log(FACTORY, 0, 0, [POOL])])]
    else []
  }

  function Decode(log: Log): Decoded {
    if log.words == [POOL] then Decoded("DeploySecurityPool", map["securityPool" := AddressArgument(POOL)]) else Undecoded
  }

  function Place(h: Hash): nat {
    if h > 10 then h - 10 else 0
  }

  function PoolIdentity(): Identity {
    Identity("pool", "securityPool", Discovered("event"))
  }

  /** Block `n` has hash 10 + n. */
  function TheWorld(): World {
    World((h: Hash) => Place(h), (h: Hash) => if h > 0 then h - 1 else 0, (h: Hash) => ReceiptsAt(h),
          (a: Address, h: Hash) => h >= 11, (kind: string, log: Log) => Decode(log), (a: Address, h: Hash) => 0,
          (h: Hash, t: Hash, a: Address) => Described(a), (k: EvidenceKey) => 0)
  }

  /** Every address names address 0 as its registry. */
  function Described(a: Address): Identity {
    if a == 0 then Identity("registry", "liquidationApprovalRegistry", Discovered("coordinator")) else PoolIdentity()
  }

  function TheNode(): Node {
    Node(TheWorld(), seq(4, n requires 0 <= n < 4 => Header(n + 10, n + 9)))
  }

  function Configuration(): Overlay {
    map[FACTORY := 1]
  }

  function Block(n: nat, evidence: map<EvidenceKey, Json>, contracts: seq<DiscoveredContract>, cursors: seq<LogScanCursor>): IndexedBlock {
    IndexedBlock(n, n + 10, n + 9, 0, evidence, contracts, [], [], cursors)
  }

  function Announcement(): seq<DiscoveredContract> {
    [DiscoveredContract(POOL, PoolIdentity(), Some(Position(2, 22)))]
  }

  function Evidence(): map<EvidenceKey, Json> {
    map[EvidenceKey(Transactions, 12, 22) := 0, EvidenceKey(Logs, 12, 0) := 0]
  }

  function First(): IndexedBlock {
    Block(1, map[], [], [])
  }

  function Second(contracts: seq<DiscoveredContract>): IndexedBlock {
    Block(2, Evidence(), contracts, [])
  }

  function Third(): IndexedBlock {
    Block(3, map[], [], [LogScanCursor(FACTORY, 1, 3), LogScanCursor(POOL, 1, 3)])
  }

  const EARLIER := DeploymentObservation(POOL, 2, Some(Deployment(1, false)))

  /** Blocks 1 and 2 are stored, the stop signal comes, the pool is put into the manifest, which discards
      all canonical history, blocks 1 and 2 are stored again, the stop signal comes again, the deployment
      check finds code at block 1, and a segment that is block 3 is indexed to its end. */
  function EarlyRun(): seq<Step> {
    [SeedManifest(1, [FACTORY_ENTRY]), Append(First()), Append(Second(Announcement())),
     SeedManifest(1, [FACTORY_ENTRY, POOL_ENTRY]), Append(First()), Append(Second([])),
     RecordDeployment(EARLIER), Append(Third())]
  }

  // ---------------------------------------------------------------- the stages of the run

  /** `tip` blocks are stored; `pool` is the row of the pool, if there is one. */
  predicate Stage(s: Store, tip: nat, pool: Option<Registry.ContractRow>) {
    && s.ledger.startBlock == 1 && s.ledger.cursors == map[] && s.tokens == map[]
    && s.ledger.indexedBlock == (if tip == 0 then None else Some(tip))
    && s.ledger.indexedHash == (if tip == 0 then None else Some(tip + 10))
    && (forall k :: k in s.ledger.evidence ==> k.blockHash == 12)
    && (forall a :: a in s.registry.contracts ==> a == FACTORY || a == POOL)
    && FACTORY in s.registry.contracts && s.registry.contracts[FACTORY].identity == Registry.ManifestIdentity(FACTORY_ENTRY)
    && s.registry.contracts[FACTORY].canonical
    && (POOL in s.registry.contracts <==> pool.Some?)
    && (pool.Some? ==> s.registry.contracts[POOL] == pool.value)
  }

  lemma EmitsOnly(a: Address, h: Hash, i: nat)
    ensures Emits(TheWorld(), a, h, i) <==> i == 0 && ((a == POOL && h == 11) || (a == FACTORY && h == 12))
  {
    if h == 11 {
      assert EmitsAt(TheWorld(), POOL, 11, 0, 0, 0);
    } else if h == 12 {
      assert EmitsAt(TheWorld(), FACTORY, 12, 0, 0, 0);
    }
  }

  /** Only the factory announces anything, and only the pool. */
  lemma OnlyThePool(h: Hash, table: Rules.Contracts, c: DiscoveredContract)
    requires Discovery.EventJustifies(TheWorld(), h, table, c)
    ensures c.address == POOL && c.identity.kind == "securityPool"
  {
    var r, l :| 0 <= r < |TheWorld().receipts(h)| && Discovery.AnnouncedBy(TheWorld(), table, TheWorld().receipts(h)[r], l, Rules.Candidate(c.address, c.identity.kind));
    var log := TheWorld().receipts(h)[r].logs[l];
    Rules.FoundExactly(Decode(log), table, Rules.Candidate(c.address, c.identity.kind));
  }

  lemma KindsAreFixed()
    ensures KindsFixed(TheWorld()) && Discovery.DecodesWords(TheWorld())
  {
    forall h, table, c | Discovery.EventJustifies(TheWorld(), h, table, c)
      ensures KindFixed(TheWorld(), h, c)
    {
      OnlyThePool(h, table, c);
    }
  }

  lemma OnNodeIs(x: FetchedLog)
    requires OnNode(TheNode(), x)
    ensures (x.number == 1 && x.transactionHash == 21) || (x.number == 2 && x.transactionHash == 22)
  {
  }

  lemma EachTransactionOnce()
    ensures TransactionsOnce(TheNode())
  {
    forall x | OnNode(TheNode(), x)
      ensures (x.number == 1 && x.transactionHash == 21) || (x.number == 2 && x.transactionHash == 22)
    {
      OnNodeIs(x);
    }
  }

  lemma CodeIsThere(a: Address)
    ensures CodeStays(TheNode(), a) && QuietWithoutCode(TheNode(), a)
  {
    forall h, i | Emits(TheWorld(), a, h, i)
      ensures h >= 11
    {
      EmitsOnly(a, h, i);
    }
  }

  /** The four blocks of the run are a chain that a node may be on. */
  lemma NodeIsWellBehaved()
    ensures WellBehaved(TheNode()) && NoGenesisCode(TheNode(), Configuration())
  {
    KindsAreFixed();
    EachTransactionOnce();
    forall a
      ensures CodeStays(TheNode(), a) && QuietWithoutCode(TheNode(), a)
    {
      CodeIsThere(a);
    }
  }

  lemma EmitsOnlyWithin(a: Address, h: Hash, t: Hash)
    ensures EmitsWithin(TheWorld(), a, h, t) <==> (a == POOL && h == 11 && t == 21) || (a == FACTORY && h == 12 && t == 22)
  {
    if h == 11 {
      assert EmitsWithinAt(TheWorld(), POOL, 11, 21, 0, 0);
    } else if h == 12 {
      assert EmitsWithinAt(TheWorld(), FACTORY, 12, 22, 0, 0);
    }
  }

  lemma EvidenceOf(a: Address, b: IndexedBlock)
    requires b.hash == 12 ==> b.evidence == Evidence()
    ensures (a == POOL && b.hash == 11) || EvidenceStored(TheWorld(), a, b)
  {
    forall t
      ensures EmitsWithin(TheWorld(), a, b.hash, t) <==> (a == POOL && b.hash == 11 && t == 21) || (a == FACTORY && b.hash == 12 && t == 22)
    {
      EmitsOnlyWithin(a, b.hash, t);
    }
    forall i: nat
      ensures Emits(TheWorld(), a, b.hash, i) <==> i == 0 && ((a == POOL && b.hash == 11) || (a == FACTORY && b.hash == 12))
    {
      EmitsOnly(a, b.hash, i);
    }
  }

  lemma BlocksAreTrue()
    ensures TrueBlock(TheWorld(), First()) && TrueBlock(TheWorld(), Third())
    ensures TrueBlock(TheWorld(), Second([])) && TrueBlock(TheWorld(), Second(Announcement()))
  {
  }

  /** Both rows of the second block are the factory's. */
  lemma EvidenceIsWitnessed(s: Store, b: IndexedBlock)
    requires FACTORY in s.registry.contracts && (b.evidence == map[] || (b.hash == 12 && b.evidence == Evidence()))
    ensures BlockWitnessed(TheWorld(), s, b)
  {
    EmitsOnly(FACTORY, 12, 0);
    EmitsOnlyWithin(FACTORY, 12, 22);
  }

  predicate Plain(b: IndexedBlock) {
    b.contracts == [] && b.observations == [] && b.tokenMetadata == []
  }

  /** A block without announcements is accepted and changes neither contract. */
  lemma PlainBlockAccepted(s: Store, chain: Chain, b: IndexedBlock, tip: nat, pool: Option<Registry.ContractRow>)
    requires Sound(s, chain) && Stage(s, tip, pool) && Genuine(s, Append(b)) && Plain(b)
    requires b.number == tip + 1 && b.hash == tip + 11 && b.parentHash == tip + 10
    requires Ledger.FirstCursorError(b.number, b.logScanCursors).None?
    ensures StoreBlock(s, b).Success?
    ensures var t := StoreBlock(s, b).value;
            && t.registry == s.registry && t.tokens == map[]
            && t.ledger.startBlock == 1 && t.ledger.indexedBlock == Some(tip + 1) && t.ledger.indexedHash == Some(tip + 11)
            && t.ledger.evidence.Keys == s.ledger.evidence.Keys + b.evidence.Keys
            && t.ledger.cursors == Ledger.UpsertCursors(map[], b.logScanCursors)
  {
    assert s.ledger.indexedBlock.Some? ==> chain[tip].hash == tip + 10;
    StoreAcceptsExactly(s.ledger, chain, b);
  }

  lemma PlainStage(s: Store, chain: Chain, b: IndexedBlock, tip: nat, pool: Option<Registry.ContractRow>)
    requires Sound(s, chain) && Stage(s, tip, pool) && Genuine(s, Append(b)) && Plain(b) && b.logScanCursors == []
    requires b.number == tip + 1 && b.hash == tip + 11 && b.parentHash == tip + 10
    requires forall k :: k in b.evidence ==> k.blockHash == 12
    ensures StoreBlock(s, b).Success? && Stage(StoreBlock(s, b).value, tip + 1, pool)
  {
    PlainBlockAccepted(s, chain, b, tip, pool);
  }

  lemma PlainIsReady(s: Store, b: IndexedBlock)
    requires AgreesWithWorld(TheWorld(), s) && TrueBlock(TheWorld(), b) && Plain(b) && StoreBlock(s, b).Success?
    requires FACTORY in s.registry.contracts && (b.evidence == map[] || (b.hash == 12 && b.evidence == Evidence()))
    requires BringsLogs(TheWorld(), Configuration(), StoreBlock(s, b).value, b)
    requires BringsCursors(Configuration(), StoreBlock(s, b).value, b)
    ensures ReadyStep(TheWorld(), Configuration(), s, Append(b))
  {
    EvidenceIsWitnessed(s, b);
  }

  /** The row of the pool while it is followed from its announcement. */
  function Found(): Registry.ContractRow {
    Registry.ContractRow(PoolIdentity(), Some(Position(2, 22)), true, Some(Deployment(2, true)), Some(2))
  }

  function Promoted(deployment: Option<Deployment>, checkedBlock: Option<int>): Registry.ContractRow {
    Registry.ContractRow(Registry.ManifestIdentity(POOL_ENTRY), Some(Position(2, 22)), true, deployment, checkedBlock)
  }

  predicate Waits(pool: Option<Registry.ContractRow>) {
    pool.Some? ==> pool.value.discovery == Some(Position(2, 22))
  }

  ghost predicate Steps(s: Store, chain: Chain, step: Step, t: Store, after: Chain) {
    && ReadyStep(TheWorld(), Configuration(), s, step) && Attempt(s, step).Success?
    && t == Apply(s, step) && after == NextChain(s, chain, step)
    && Ready(t, after, TheWorld(), Configuration())
  }

  lemma StepsOn(s: Store, chain: Chain, step: Step)
    requires Ready(s, chain, TheWorld(), Configuration()) && ReadyStep(TheWorld(), Configuration(), s, step) && Attempt(s, step).Success?
    ensures Steps(s, chain, step, Apply(s, step), NextChain(s, chain, step))
  {
    StepKeepsReady(TheWorld(), Configuration(), s, chain, step);
  }

  /** The pool's logs in block 1 are not asked for: it is followed from block 2 on. */
  lemma FirstBringsLogs(s: Store, pool: Option<Registry.ContractRow>)
    requires Stage(s, 1, pool) && Waits(pool)
    ensures BringsLogs(TheWorld(), Configuration(), s, First())
  {
    forall a | a in s.registry.contracts && Followed(s.registry.contracts[a])
               && EffectiveStart(s.ledger.startBlock, Configuration(), a, s.registry.contracts[a]) <= 1
      ensures EvidenceStored(TheWorld(), a, First())
    {
      EvidenceOf(a, First());
    }
  }

  lemma LaterBringsLogs(s: Store, b: IndexedBlock)
    requires b.hash > 11 && (b.hash == 12 ==> b.evidence == Evidence())
    ensures BringsLogs(TheWorld(), Configuration(), s, b)
  {
    forall a
      ensures EvidenceStored(TheWorld(), a, b)
    {
      EvidenceOf(a, b);
    }
  }

  lemma StoreFirst(s: Store, chain: Chain, pool: Option<Registry.ContractRow>)
    requires Ready(s, chain, TheWorld(), Configuration()) && Stage(s, 0, pool) && Waits(pool)
    ensures Steps(s, chain, Append(First()), Apply(s, Append(First())), chain[1 := First()])
    ensures Stage(Apply(s, Append(First())), 1, pool)
  {
    BlocksAreTrue();
    TrueBlockIsGenuine(TheWorld(), s, First());
    PlainStage(s, chain, First(), 0, pool);
    FirstBringsLogs(StoreBlock(s, First()).value, pool);
    PlainIsReady(s, First());
    StepsOn(s, chain, Append(First()));
  }

  lemma StoreSecondAgain(s: Store, chain: Chain, pool: Option<Registry.ContractRow>)
    requires Ready(s, chain, TheWorld(), Configuration()) && Stage(s, 1, pool)
    ensures Steps(s, chain, Append(Second([])), Apply(s, Append(Second([]))), chain[2 := Second([])])
    ensures Stage(Apply(s, Append(Second([]))), 2, pool)
  {
    BlocksAreTrue();
    TrueBlockIsGenuine(TheWorld(), s, Second([]));
    PlainStage(s, chain, Second([]), 1, pool);
    LaterBringsLogs(StoreBlock(s, Second([])).value, Second([]));
    PlainIsReady(s, Second([]));
    StepsOn(s, chain, Append(Second([])));
  }

  // ---------------------------------------------------------------- finding the pool

  lemma AnnouncingStored(s: Store)
    requires Stage(s, 1, None)
    ensures var stored := Registry.Store(s.registry, Second(Announcement()));
            && stored.Success?
            && stored.value.contracts == s.registry.contracts[POOL := Found()]
  {
    var b := Second(Announcement());
    var cs := b.contracts;
    assert cs[..0] == [];
    assert Registry.StoreContracts(s.registry, 2, 12, cs[..0]) == Success(s.registry);
    assert cs[|cs| - 1] == Announcement()[0];
    assert Registry.StoreContracts(s.registry, 2, 12, cs).Success?;
  }

  lemma AnnouncingStage(s: Store, chain: Chain)
    requires Sound(s, chain) && Stage(s, 1, None) && Genuine(s, Append(Second(Announcement())))
    ensures StoreBlock(s, Second(Announcement())).Success? && Stage(StoreBlock(s, Second(Announcement())).value, 2, Some(Found()))
  {
    var b := Second(Announcement());
    AnnouncingStored(s);
    assert chain[1].hash == 11;
    StoreAcceptsExactly(s.ledger, chain, b);
    assert Ledger.UpsertCursors(map[], []) == map[];
  }

  lemma StoreSecond(s: Store, chain: Chain)
    requires Ready(s, chain, TheWorld(), Configuration()) && Stage(s, 1, None)
    ensures var step := Append(Second(Announcement()));
            Steps(s, chain, step, Apply(s, step), chain[2 := Second(Announcement())]) && Stage(Apply(s, step), 2, Some(Found()))
  {
    var b := Second(Announcement());
    BlocksAreTrue();
    TrueBlockIsGenuine(TheWorld(), s, b);
    AnnouncingStage(s, chain);
    LaterBringsLogs(StoreBlock(s, b).value, b);
    AnnouncingIsReady(s);
    StepsOn(s, chain, Append(b));
  }

  lemma AnnouncingIsReady(s: Store)
    requires TrueBlock(TheWorld(), Second(Announcement())) && Stage(s, 1, None) && StoreBlock(s, Second(Announcement())).Success?
    requires BringsLogs(TheWorld(), Configuration(), StoreBlock(s, Second(Announcement())).value, Second(Announcement()))
    ensures ReadyStep(TheWorld(), Configuration(), s, Append(Second(Announcement())))
  {
    EvidenceIsWitnessed(s, Second(Announcement()));
    assert AnnouncesNew(Configuration(), s, Second(Announcement()));
    assert BringsCursors(Configuration(), StoreBlock(s, Second(Announcement())).value, Second(Announcement()));
  }

  // ---------------------------------------------------------------- the manifest

  lemma FactoryRow(a: Address)
    ensures var after := Registry.Seed(Registry.EMPTY, 1, [FACTORY_ENTRY]).contracts;
            && (a in after <==> a == FACTORY)
            && (a == FACTORY ==> after[a].canonical && after[a].identity == Registry.ManifestIdentity(FACTORY_ENTRY))
  {
    var manifest := [FACTORY_ENTRY];
    EmptyHolds(1);
    SeedProofs.SeededRow(Registry.EMPTY, 1, -1, map[], manifest, a);
    assert SeedProofs.Configured(manifest, a) <==> a == FACTORY by {
      assert manifest[0].address == FACTORY;
    }
  }

  lemma FactorySeeded()
    ensures Seed(Created(1), 1, [FACTORY_ENTRY]).Success?
    ensures Stage(Seed(Created(1), 1, [FACTORY_ENTRY]).value, 0, None)
  {
    forall a
      ensures var after := Registry.Seed(Registry.EMPTY, 1, [FACTORY_ENTRY]).contracts;
              && (a in after <==> a == FACTORY)
              && (a == FACTORY ==> after[a].canonical && after[a].identity == Registry.ManifestIdentity(FACTORY_ENTRY))
    {
      FactoryRow(a);
    }
    SeedStep(Created(1), map[], 1, [FACTORY_ENTRY]);
  }

  lemma SeedFactory()
    ensures var step := SeedManifest(1, [FACTORY_ENTRY]);
            && ReadyStep(TheWorld(), Configuration(), Created(1), step)
            && Ready(Apply(Created(1), step), map[], TheWorld(), Configuration())
            && NextChain(Created(1), map[], step) == map[]
  {
    var manifest := [FACTORY_ENTRY];
    assert manifest[0].address == FACTORY && SeedProofs.Configured(manifest, FACTORY);
    SeededIsReady(TheWorld(), Configuration(), 1, manifest);
  }

  const LONGER := [FACTORY_ENTRY, POOL_ENTRY]

  lemma LongerRows(s: Store, chain: Chain, a: Address)
    requires Sound(s, chain) && Stage(s, 2, Some(Found()))
    ensures var after := Registry.Seed(s.registry, 1, LONGER).contracts;
            && (a in after <==> a == FACTORY || a == POOL)
            && (a == FACTORY ==> after[a].canonical && after[a].identity == Registry.ManifestIdentity(FACTORY_ENTRY))
            && (a == POOL ==> after[a].canonical && after[a].identity == Registry.ManifestIdentity(POOL_ENTRY)
                              && after[a].discovery == Some(Position(2, 22)))
  {
    SeedProofs.SeededRow(s.registry, 1, Tip(s.ledger), chain, LONGER, a);
    LongerLists(a);
  }

  lemma LongerLists(a: Address)
    ensures SeedProofs.Configured(LONGER, a) <==> a == FACTORY || a == POOL
    ensures forall i :: SeedProofs.LastFor(LONGER, FACTORY, i) ==> i == 0
    ensures forall i :: SeedProofs.LastFor(LONGER, POOL, i) ==> i == 1
  {
    assert LONGER[0].address == FACTORY && LONGER[1].address == POOL;
  }

  lemma PoolIsNew(s: Store)
    requires Stage(s, 2, Some(Found()))
    ensures Registry.ManifestChanged(s.registry, LONGER)
  {
    assert POOL_ENTRY !in Registry.StoredManifest(s.registry);
    assert LONGER[1] in multiset(LONGER);
  }

  lemma PromotedStage(s: Store, chain: Chain)
    requires Sound(s, chain) && Stage(s, 2, Some(Found()))
    ensures Attempt(s, SeedManifest(1, LONGER)).Success? && NextChain(s, chain, SeedManifest(1, LONGER)) == map[]
    ensures Stage(Apply(s, SeedManifest(1, LONGER)), 0, Some(Promoted(None, None)))
  {
    PoolIsNew(s);
    forall a
      ensures var after := Registry.Seed(s.registry, 1, LONGER).contracts;
              && (a in after <==> a == FACTORY || a == POOL)
              && (a == FACTORY ==> after[a].canonical && after[a].identity == Registry.ManifestIdentity(FACTORY_ENTRY))
              && (a == POOL ==> after[a].canonical && after[a].identity == Registry.ManifestIdentity(POOL_ENTRY)
                                && after[a].discovery == Some(Position(2, 22)))
    {
      LongerRows(s, chain, a);
    }
    SeedStep(s, chain, 1, LONGER);
  }

  lemma Promote(s: Store, chain: Chain)
    requires Ready(s, chain, TheWorld(), Configuration()) && Stage(s, 2, Some(Found()))
    ensures var step := SeedManifest(1, LONGER);
            Steps(s, chain, step, Apply(s, step), map[]) && Stage(Apply(s, step), 0, Some(Promoted(None, None)))
  {
    PromotedStage(s, chain);
    LongerHasFactory(s);
    StepsOn(s, chain, SeedManifest(1, LONGER));
  }

  lemma LongerHasFactory(s: Store)
    ensures ReadyStep(TheWorld(), Configuration(), s, SeedManifest(1, LONGER))
  {
    assert LONGER[0].address == FACTORY && SeedProofs.Configured(LONGER, FACTORY);
  }

  // ---------------------------------------------------------------- the deployment check and the claim

  function PoolCode(): nat -> LogScan.CodeRead {
    (n: nat) => LogScan.Code(TheWorld().hasCode(POOL, n + 10))
  }

  /** The check finds code where the search starts, so that is what it records. */
  lemma CheckFindsEarlier()
    ensures LogScan.DeploymentSearch(1, 2, PoolCode(), false) == LogScan.Found(EARLIER.deployment.value)
  {
    assert TheWorld().hasCode(POOL, 11);
    assert PoolCode()(1) == LogScan.Code(TheWorld().hasCode(POOL, 11));
    assert PoolCode()(2) == LogScan.Code(true);
  }

  lemma RecordEarlier(s: Store, chain: Chain)
    requires Ready(s, chain, TheWorld(), Configuration()) && Stage(s, 2, Some(Promoted(None, None)))
    ensures var step := RecordDeployment(EARLIER);
            && Steps(s, chain, step, Apply(s, step), chain) && Stage(Apply(s, step), 2, Some(Promoted(EARLIER.deployment, Some(2))))
            && !Observes(s, EARLIER)
  {
    StepsOn(s, chain, RecordDeployment(EARLIER));
  }

  lemma ThirdAccepted(s: Store, chain: Chain)
    requires Sound(s, chain) && Stage(s, 2, Some(Promoted(EARLIER.deployment, Some(2)))) && Genuine(s, Append(Third()))
    ensures StoreBlock(s, Third()).Success?
    ensures var t := StoreBlock(s, Third()).value;
            && t.registry == s.registry && t.ledger.startBlock == 1
            && t.ledger.evidence.Keys == s.ledger.evidence.Keys
            && POOL in t.ledger.cursors && t.ledger.cursors[POOL] == Ledger.CursorRow(1, 3)
  {
    PlainBlockAccepted(s, chain, Third(), 2, Some(Promoted(EARLIER.deployment, Some(2))));
    var cs := Third().logScanCursors;
    assert cs[..1] == [cs[0]] && cs[..1][..0] == [];
    assert Ledger.UpsertCursors(map[], cs[..1]) == map[FACTORY := Ledger.CursorRow(1, 3)];
    assert Ledger.UpsertCursors(map[], cs) == map[FACTORY := Ledger.CursorRow(1, 3), POOL := Ledger.CursorRow(1, 3)];
  }

  /** The factory's cursor starts at its configured deployment; the pool's deployment being out of order,
      nothing is asked of its cursor. */
  lemma ThirdBringsCursors(s: Store, t: Store)
    requires Stage(s, 2, Some(Promoted(EARLIER.deployment, Some(2)))) && t.registry == s.registry && t.ledger.startBlock == 1
    ensures BringsCursors(Configuration(), t, Third())
  {
  }

  lemma StoreThird(s: Store, chain: Chain)
    requires Ready(s, chain, TheWorld(), Configuration()) && Stage(s, 2, Some(Promoted(EARLIER.deployment, Some(2))))
    ensures Steps(s, chain, Append(Third()), Apply(s, Append(Third())), chain[3 := Third()])
    ensures var t := Apply(s, Append(Third()));
            && t.registry == s.registry && t.ledger.startBlock == 1
            && t.ledger.evidence.Keys == s.ledger.evidence.Keys
            && POOL in t.ledger.cursors && t.ledger.cursors[POOL] == Ledger.CursorRow(1, 3)
  {
    BlocksAreTrue();
    TrueBlockIsGenuine(TheWorld(), s, Third());
    ThirdAccepted(s, chain);
    LaterBringsLogs(StoreBlock(s, Third()).value, Third());
    ThirdBringsCursors(s, StoreBlock(s, Third()).value);
    PlainIsReady(s, Third());
    StepsOn(s, chain, Append(Third()));
  }

  /** That cursor is the one the indexer writes: the plan for block 3 asks for the pool's logs from its
      recorded deployment on, and the cursor starts there. */
  lemma ThirdClaimsAsPlanned(codeAt: (Address, nat) -> LogScan.CodeRead)
    ensures var row := Promoted(EARLIER.deployment, Some(2));
            var plan := Plan([LogScanInput(POOL, 3, 1)], []);
            && PlanContract(Source(POOL, row), 3, 3, 1, codeAt, {}) == Success(plan)
            && CursorFor(POOL, row, plan.inputs, 3, 1, 3) == Some(Third().logScanCursors[1])
  {
  }

  // ---------------------------------------------------------------- the whole run

  ghost predicate Reached(steps: seq<Step>, s: Store, chain: Chain) {
    && Traced(1, steps, s, chain)
    && CompleteRun(TheWorld(), Configuration(), Created(1), steps)
    && Ready(s, chain, TheWorld(), Configuration())
  }

  lemma Reaches(steps: seq<Step>, s: Store, chain: Chain, step: Step, t: Store, after: Chain)
    requires Reached(steps, s, chain) && Steps(s, chain, step, t, after)
    ensures Reached(steps + [step], t, after)
  {
    TrueStepIsGenuine(TheWorld(), s, step);
    TraceExtends(1, steps, s, chain, step);
    CompleteExtends(TheWorld(), Configuration(), Created(1), steps, step);
  }

  ghost predicate Milestone(steps: seq<Step>, tip: nat, pool: Option<Registry.ContractRow>, chain: Chain) {
    exists s :: Reached(steps, s, chain) && Stage(s, tip, pool)
  }

  lemma FirstStepReaches(step: Step)
    requires Genuine(Created(1), step) && CompleteStep(TheWorld(), Configuration(), Created(1), step)
    ensures Traced(1, [step], Apply(Created(1), step), NextChain(Created(1), map[], step))
    ensures CompleteRun(TheWorld(), Configuration(), Created(1), [step])
  {
    TraceExtends(1, [], Created(1), map[], step);
    CompleteExtends(TheWorld(), Configuration(), Created(1), [], step);
    assert [] + [step] == [step];
  }

  lemma GoSeed()
    ensures Milestone([SeedManifest(1, [FACTORY_ENTRY])], 0, None, map[])
  {
    var step := SeedManifest(1, [FACTORY_ENTRY]);
    SeedFactory();
    FactorySeeded();
    FirstStepReaches(step);
    assert Reached([step], Apply(Created(1), step), map[]);
  }

  lemma GoFirst(steps: seq<Step>, pool: Option<Registry.ContractRow>)
    requires Milestone(steps, 0, pool, map[]) && Waits(pool)
    ensures Milestone(steps + [Append(First())], 1, pool, map[1 := First()])
  {
    var s :| Reached(steps, s, map[]) && Stage(s, 0, pool);
    StoreFirst(s, map[], pool);
    Reaches(steps, s, map[], Append(First()), Apply(s, Append(First())), map[1 := First()]);
  }

  lemma GoSecond(steps: seq<Step>)
    requires Milestone(steps, 1, None, map[1 := First()])
    ensures Milestone(steps + [Append(Second(Announcement()))], 2, Some(Found()), map[1 := First(), 2 := Second(Announcement())])
  {
    var chain, step := map[1 := First()], Append(Second(Announcement()));
    var s :| Reached(steps, s, chain) && Stage(s, 1, None);
    StoreSecond(s, chain);
    Reaches(steps, s, chain, step, Apply(s, step), chain[2 := Second(Announcement())]);
  }

  lemma GoPromote(steps: seq<Step>, chain: Chain)
    requires Milestone(steps, 2, Some(Found()), chain)
    ensures Milestone(steps + [SeedManifest(1, LONGER)], 0, Some(Promoted(None, None)), map[])
  {
    var step := SeedManifest(1, LONGER);
    var s :| Reached(steps, s, chain) && Stage(s, 2, Some(Found()));
    Promote(s, chain);
    Reaches(steps, s, chain, step, Apply(s, step), map[]);
  }

  lemma GoSecondAgain(steps: seq<Step>, pool: Option<Registry.ContractRow>)
    requires Milestone(steps, 1, pool, map[1 := First()])
    ensures Milestone(steps + [Append(Second([]))], 2, pool, map[1 := First(), 2 := Second([])])
  {
    var chain, step := map[1 := First()], Append(Second([]));
    var s :| Reached(steps, s, chain) && Stage(s, 1, pool);
    StoreSecondAgain(s, chain, pool);
    Reaches(steps, s, chain, step, Apply(s, step), chain[2 := Second([])]);
  }

  lemma GoRecord(steps: seq<Step>, chain: Chain)
    requires Milestone(steps, 2, Some(Promoted(None, None)), chain)
    ensures Milestone(steps + [RecordDeployment(EARLIER)], 2, Some(Promoted(EARLIER.deployment, Some(2))), chain)
  {
    var step := RecordDeployment(EARLIER);
    var s :| Reached(steps, s, chain) && Stage(s, 2, Some(Promoted(None, None)));
    RecordEarlier(s, chain);
    Reaches(steps, s, chain, step, Apply(s, step), chain);
  }

  /** A store in which the pool's cursor claims block 1, which is on the chain, but not its log. */
  predicate ClaimsTooMuch(s: Store, chain: Chain) {
    && POOL in s.registry.contracts && Followed(s.registry.contracts[POOL])
    && POOL in s.ledger.cursors && s.ledger.cursors[POOL] == Ledger.CursorRow(1, 3)
    && 1 in chain && chain[1] == First() && EvidenceKey(Logs, 11, 0) !in s.ledger.evidence
  }

  lemma ThirdClaims(s: Store, t: Store, chain: Chain)
    requires Stage(s, 2, Some(Promoted(EARLIER.deployment, Some(2)))) && 1 in chain && chain[1] == First()
    requires t.registry == s.registry && t.ledger.evidence.Keys == s.ledger.evidence.Keys
    requires POOL in t.ledger.cursors && t.ledger.cursors[POOL] == Ledger.CursorRow(1, 3)
    ensures ClaimsTooMuch(t, chain[3 := Third()])
  {
  }

  ghost predicate End(steps: seq<Step>, chain: Chain) {
    exists t :: Reached(steps, t, chain) && ClaimsTooMuch(t, chain)
  }

  lemma GoThird(steps: seq<Step>, chain: Chain)
    requires Milestone(steps, 2, Some(Promoted(EARLIER.deployment, Some(2))), chain) && 1 in chain && chain[1] == First()
    ensures End(steps + [Append(Third())], chain[3 := Third()])
  {
    var s :| Reached(steps, s, chain) && Stage(s, 2, Some(Promoted(EARLIER.deployment, Some(2))));
    var t := Apply(s, Append(Third()));
    StoreThird(s, chain);
    Reaches(steps, s, chain, Append(Third()), t, chain[3 := Third()]);
    ThirdClaims(s, t, chain);
  }

  function Beginning(): seq<Step> {
    [SeedManifest(1, [FACTORY_ENTRY])] + [Append(First())] + [Append(Second(Announcement()))] + [SeedManifest(1, LONGER)]
  }

  lemma FirstHalf()
    ensures Milestone(Beginning(), 0, Some(Promoted(None, None)), map[])
  {
    GoSeed();
    GoFirst([SeedManifest(1, [FACTORY_ENTRY])], None);
    GoSecond([SeedManifest(1, [FACTORY_ENTRY])] + [Append(First())]);
    GoPromote([SeedManifest(1, [FACTORY_ENTRY])] + [Append(First())] + [Append(Second(Announcement()))],
              map[1 := First(), 2 := Second(Announcement())]);
  }

  function Middle(): seq<Step> {
    Beginning() + [Append(First())] + [Append(Second([]))] + [RecordDeployment(EARLIER)]
  }

  lemma SecondHalf()
    ensures Milestone(Middle(), 2, Some(Promoted(EARLIER.deployment, Some(2))), map[1 := First(), 2 := Second([])])
  {
    FirstHalf();
    GoFirst(Beginning(), Some(Promoted(None, None)));
    GoSecondAgain(Beginning() + [Append(First())], Some(Promoted(None, None)));
    GoRecord(Beginning() + [Append(First())] + [Append(Second([]))], map[1 := First(), 2 := Second([])]);
  }

  lemma EarlyRunEnds()
    ensures End(EarlyRun(), map[1 := First(), 2 := Second([])][3 := Third()])
  {
    SecondHalf();
    GoThird(Middle(), map[1 := First(), 2 := Second([])]);
    Pieces();
  }

  lemma Pieces()
    ensures Middle() + [Append(Third())] == EarlyRun()
  {
  }

  /** The pool emits something in block 1, which its cursor claims and which is not on file; the run is
      genuine and complete, and only the recorded deployment is out of order. */
  lemma CursorClaimsTooMuch()
    ensures GenuineRun(Created(1), EarlyRun()) && CompleteRun(TheWorld(), Configuration(), Created(1), EarlyRun())
    ensures var s, chain := Run(Created(1), EarlyRun()), History(Created(1), EarlyRun());
            ClaimsTooMuch(s, chain) && Emits(TheWorld(), POOL, chain[1].hash, 0)
    ensures !OrderKept(Configuration(), Created(1), EarlyRun(), POOL)
  {
    EarlyRunEnds();
    var chain := map[1 := First(), 2 := Second([])][3 := Third()];
    var t :| Reached(EarlyRun(), t, chain) && ClaimsTooMuch(t, chain);
    EmitsOnly(POOL, 11, 0);
    OnlyOrderIsBroken(EarlyRun(), t, chain);
  }

  lemma OnlyOrderIsBroken(steps: seq<Step>, t: Store, chain: Chain)
    requires Reached(steps, t, chain) && ClaimsTooMuch(t, chain)
    ensures !OrderKept(Configuration(), Created(1), steps, POOL)
  {
    EmitsOnly(POOL, 11, 0);
    if OrderKept(Configuration(), Created(1), steps, POOL) {
      RunCursorsClaimOnlyCovered(TheWorld(), Configuration(), 1, steps, POOL, 1, 0);
      assert false;
    }
  }
}
