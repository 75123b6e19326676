/** Which logs the stored chain has to contain, and the invariant that it does: every contract the
    scanner follows has all its logs on file from its effective start through the checkpoint. */
module Coverage {
  import opened Records
  import opened Database
  import opened LedgerProofs
  import opened Runs
  import opened World
  import Registry
  import RegistryProofs
  import Rules

  // ---------------------------------------------------------------- what is followed, and from where

  predicate IsProtocolActivitySource(kind: string) {
    kind != "weth" && kind != "usdc" && kind != "reputationToken" && kind != "multicall3"
    && kind != "proxyDeployer" && kind != "scalarOutcomes"
  }

  predicate IsLogSource(kind: string) {
    IsProtocolActivitySource(kind) || kind == "reputationToken"
  }

  /** The external exchange contracts, of whose logs only a selection is asked for. */
  predicate QueriedByFilter(kind: string) {
    kind == "uniswapV2Factory" || kind == "uniswapV3Factory" || kind == "uniswapV4PoolManager"
  }

  /** A contract all of whose logs are asked for. */
  predicate Followed(row: Registry.ContractRow) {
    row.canonical && IsLogSource(row.identity.kind) && !QueriedByFilter(row.identity.kind)
  }

  /** Which kinds those are. */
  lemma FollowedExactly(row: Registry.ContractRow)
    ensures Followed(row) <==>
              row.canonical && row.identity.kind !in {"weth", "usdc", "multicall3", "proxyDeployer", "scalarOutcomes",
                                                      "uniswapV2Factory", "uniswapV3Factory", "uniswapV4PoolManager"}
  {
  }

  /** Whatever a log announces is followed from then on. */
  lemma AnnouncedIsFollowed(decoded: Decoded, contracts: Rules.Contracts, c: Rules.Candidate, row: Registry.ContractRow)
    requires c in Rules.DiscoveriesFrom(decoded, contracts) && row.canonical && row.identity.kind == c.kind
    ensures Followed(row)
  {
    Rules.FoundExactly(decoded, contracts, c);
  }

  /** The configured deployment blocks of manifest contracts. */
  type Overlay = map<Address, int>

  /** The block from which on a contract's logs have to be there. */
  function EffectiveStart(startBlock: nat, configured: Overlay, a: Address, row: Registry.ContractRow): int {
    Max(startBlock,
        if a in configured then configured[a]
        else if row.discovery.Some? then row.discovery.value.block
        else startBlock)
  }

  // ---------------------------------------------------------------- the invariant

  ghost predicate CoveredFrom(w: World, from: int, a: Address, chain: Chain) {
    forall n :: n in chain && from <= n ==> EvidenceStored(w, a, chain[n])
  }

  ghost predicate Covered(w: World, configured: Overlay, s: Store, chain: Chain) {
    forall a :: a in s.registry.contracts && Followed(s.registry.contracts[a]) ==>
      CoveredFrom(w, EffectiveStart(s.ledger.startBlock, configured, a, s.registry.contracts[a]), a, chain)
  }

  /** A cursor belongs to a known contract and starts no earlier than what is covered. */
  predicate CursorBelongs(startBlock: nat, configured: Overlay, contracts: map<Address, Registry.ContractRow>,
                          a: Address, cursorStart: int)
  {
    && a in contracts && contracts[a].canonical
    && EffectiveStart(startBlock, configured, a, contracts[a]) <= cursorStart
  }

  /** A recorded deployment is not before the block that announced the contract. */
  predicate InOrder(startBlock: nat, row: Registry.ContractRow) {
    row.deployment.Some? && row.discovery.Some? && row.discovery.value.block >= startBlock ==>
      row.discovery.value.block <= row.deployment.value.block
  }

  /** Deployments are configured for manifest contracts only. */
  ghost predicate OverlayIsManifest(configured: Overlay, contracts: map<Address, Registry.ContractRow>) {
    forall a :: a in configured && a in contracts ==> contracts[a].identity.provenance.Manifest?
  }

  /** No contract is announced twice along the canonical chain. */
  ghost predicate AnnouncedOnce(d: map<Registry.DiscoveryKey, Registry.DiscoveryRow>) {
    forall j, k :: j in d && k in d && d[j].canonical && d[k].canonical && j.address == k.address ==>
      d[j].number == d[k].number
  }

  /** Every followed contract is covered, and what that rests on. */
  ghost predicate Tracking(w: World, configured: Overlay, s: Store, chain: Chain) {
    && Covered(w, configured, s, chain)
    && OverlayIsManifest(configured, s.registry.contracts)
    && AnnouncedOnce(s.registry.discoveries)
  }

  /** The cursor of a contract claims no more than is covered, and the deployment on file, unless a
      configured one replaces it, gives no occasion to. */
  predicate ClaimKept(configured: Overlay, s: Store, a: Address) {
    && (a in s.ledger.cursors ==>
          CursorBelongs(s.ledger.startBlock, configured, s.registry.contracts, a, s.ledger.cursors[a].startBlock))
    && (a in s.registry.contracts && a !in configured ==> DeploymentInOrder(s.ledger.startBlock, s.registry.contracts[a]))
  }

  predicate DeploymentInOrder(startBlock: nat, row: Registry.ContractRow) {
    InOrder(startBlock, row) && (!row.canonical ==> row.deployment.None?)
  }

  /** There is a canonical row for it, filed under block `n`. */
  predicate RowOnFile(s: Store, n: int, k: EvidenceKey) {
    k in s.ledger.evidence && s.ledger.evidence[k].canonical && s.ledger.evidence[k].number == n
  }

  /** What a cursor says: every log of its contract between its two ends is on file. */
  lemma CursorsClaimOnlyCovered(w: World, configured: Overlay, s: Store, chain: Chain, a: Address, n: int, i: nat)
    requires Sound(s, chain) && Tracking(w, configured, s, chain) && ClaimKept(configured, s, a)
    requires a in s.ledger.cursors && s.ledger.cursors[a].startBlock <= n <= s.ledger.cursors[a].lastRetrievedBlock
    ensures n in chain && a in s.registry.contracts
    ensures Followed(s.registry.contracts[a]) && Emits(w, a, chain[n].hash, i) ==> RowOnFile(s, n, EvidenceKey(Logs, chain[n].hash, i))
  {
    assert s.ledger.indexedBlock.Some? && n in chain;
    if Followed(s.registry.contracts[a]) {
      FollowedLogsOnFile(w, configured, s, chain, a, n, i);
    }
  }

  /** Every log of a followed contract, from its effective start through the checkpoint, is stored as
      a canonical row. */
  lemma FollowedLogsOnFile(w: World, configured: Overlay, s: Store, chain: Chain, a: Address, n: int, i: nat)
    requires Sound(s, chain) && Tracking(w, configured, s, chain)
    requires a in s.registry.contracts && Followed(s.registry.contracts[a])
    requires EffectiveStart(s.ledger.startBlock, configured, a, s.registry.contracts[a]) <= n <= Tip(s.ledger)
    ensures n in chain
    ensures Emits(w, a, chain[n].hash, i) ==> RowOnFile(s, n, EvidenceKey(Logs, chain[n].hash, i))
  {
    assert s.ledger.indexedBlock.Some? && n in chain;
    if Emits(w, a, chain[n].hash, i) {
      assert EvidenceStored(w, a, chain[n]);
      BroughtIsOnFile(s, chain, n, EvidenceKey(Logs, chain[n].hash, i));
    }
  }

  /** So is every transaction in which it emits something. */
  lemma FollowedTransactionsOnFile(w: World, configured: Overlay, s: Store, chain: Chain, a: Address, n: int, t: Hash)
    requires Sound(s, chain) && Tracking(w, configured, s, chain)
    requires a in s.registry.contracts && Followed(s.registry.contracts[a])
    requires EffectiveStart(s.ledger.startBlock, configured, a, s.registry.contracts[a]) <= n <= Tip(s.ledger)
    ensures n in chain
    ensures EmitsWithin(w, a, chain[n].hash, t) ==> RowOnFile(s, n, EvidenceKey(Transactions, chain[n].hash, t))
  {
    assert s.ledger.indexedBlock.Some? && n in chain;
    if EmitsWithin(w, a, chain[n].hash, t) {
      assert EvidenceStored(w, a, chain[n]);
      BroughtIsOnFile(s, chain, n, EvidenceKey(Transactions, chain[n].hash, t));
    }
  }

  /** What a block of the chain has brought along is on file. */
  lemma BroughtIsOnFile(s: Store, chain: Chain, n: int, k: EvidenceKey)
    requires Sound(s, chain) && n in chain && k in chain[n].evidence
    ensures RowOnFile(s, n, k) && s.ledger.evidence[k].data == chain[n].evidence[k]
  {
    assert HasRow(s.ledger.evidence, k, chain[n].evidence[k]) && Acceptable(n, chain[n]);
    assert RowFiled(s.ledger.blocks, k, s.ledger.evidence[k]) && HasBlock(s.ledger.blocks, n, chain[n]);
  }

  // ---------------------------------------------------------------- storing a block

  predicate SameTracking(before: Registry.ContractRow, after: Registry.ContractRow) {
    before.identity == after.identity && before.discovery == after.discovery && before.canonical == after.canonical
  }

  /** The contract rows after the discoveries of a block. */
  lemma {:induction false} FoundRow(r: Registry.Registry, n: nat, hash: Hash, cs: seq<DiscoveredContract>, a: Address)
    requires Registry.StoreContracts(r, n, hash, cs).Success? && RegistryProofs.DistinctAddresses(cs)
    ensures var after := Registry.StoreContracts(r, n, hash, cs).value.contracts;
            && (a !in RegistryProofs.Addresses(cs) ==>
                  (a in after <==> a in r.contracts) && (a in r.contracts ==> after[a] == r.contracts[a]))
            && (forall i :: 0 <= i < |cs| && cs[i].address == a ==>
                  a in after && after[a] == Registry.UpsertContract(r.contracts, cs[i], n)[a])
  {
    if cs != [] {
      var front, last := cs[..|cs| - 1], cs[|cs| - 1];
      assert forall i :: 0 <= i < |front| ==> front[i] == cs[i];
      FoundRow(r, n, hash, front, a);
      if a == last.address {
        assert a !in RegistryProofs.Addresses(front);
      } else if a !in RegistryProofs.Addresses(cs) {
        assert a !in RegistryProofs.Addresses(front);
      } else {
        forall i | 0 <= i < |cs| && cs[i].address == a
          ensures i < |front|
        {
        }
      }
    }
  }

  /** Deployment observations touch nothing but deployments. */
  lemma {:induction false} ObservedRow(contracts: map<Address, Registry.ContractRow>, n: nat, os: seq<DeploymentObservation>, a: Address)
    requires Registry.StoreObservations(contracts, n, os).Success?
    ensures var after := Registry.StoreObservations(contracts, n, os).value;
            && (a in after <==> a in contracts)
            && (a in contracts ==>
                  && SameTracking(contracts[a], after[a])
                  && (after[a].deployment == contracts[a].deployment
                      || (contracts[a].canonical
                          && exists i :: 0 <= i < |os| && os[i].contractAddress == a && after[a].deployment == os[i].deployment)))
  {
    if os != [] {
      var front, last := os[..|os| - 1], os[|os| - 1];
      assert forall i :: 0 <= i < |front| ==> front[i] == os[i];
      ObservedRow(contracts, n, front, a);
      if a == last.contractAddress {
        assert os[|os| - 1] == last;
      }
    }
  }

  /** An address that no canonical contract row and no configured deployment names. */
  predicate Unknown(contracts: map<Address, Registry.ContractRow>, configured: Overlay, a: Address) {
    a !in configured && (a in contracts ==> !contracts[a].canonical)
  }

  /** A contract row before and after its block was stored. */
  predicate StoredRow(before: map<Address, Registry.ContractRow>, b: IndexedBlock, a: Address, after: Registry.ContractRow) {
    if a in RegistryProofs.Addresses(b.contracts) then
      after.canonical && after.discovery.Some? && after.discovery.value.block == b.number
      && exists i :: 0 <= i < |b.contracts| && b.contracts[i].address == a && after.identity == b.contracts[i].identity
    else a in before && SameTracking(before[a], after)
  }

  lemma StoredRowIs(s: Store, chain: Chain, configured: Overlay, b: IndexedBlock, a: Address)
    requires Sound(s, chain) && Genuine(s, Append(b)) && StoreBlock(s, b).Success?
    requires forall i :: 0 <= i < |b.contracts| ==> Unknown(s.registry.contracts, configured, b.contracts[i].address)
    ensures var after := StoreBlock(s, b).value.registry.contracts;
            && (a in after <==> a in s.registry.contracts || a in RegistryProofs.Addresses(b.contracts))
            && (a in after ==> StoredRow(s.registry.contracts, b, a, after[a]))
  {
    FoundRow(s.registry, b.number, b.hash, b.contracts, a);
    var found := Registry.StoreContracts(s.registry, b.number, b.hash, b.contracts).value;
    ObservedRow(found.contracts, b.number, b.observations, a);
    if a in RegistryProofs.Addresses(b.contracts) {
      var i :| 0 <= i < |b.contracts| && b.contracts[i].address == a;
      assert b.contracts[i].position.Some? && b.contracts[i].position.value.block == b.number;
      assert a in s.registry.contracts ==>
          RegistryProofs.RowOk(s.registry.discoveries, s.ledger.startBlock, a, s.registry.contracts[a]);
    }
  }
}
