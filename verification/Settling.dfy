/** What the end of a segment settles: from then on every manifest contract's history is claimed from
    its deployment through the checkpoint, as far as the deployment is known. */
module Settling {
  import opened Records
  import opened LedgerProofs
  import opened Runs
  import opened Coverage
  import opened CoverageProofs
  import opened Cursors
  import opened Planner
  import opened Rules
  import opened Segments
  import opened PollSegments
  import opened Backfill
  import Database
  import Ledger
  import LogScan
  import Registry
  import RegistryProofs

  // ---------------------------------------------------------------- what is settled

  /** The kinds whose history a backfill would go back for, other than those asked for by filter. */
  predicate TrackedKind(kind: string) {
    RequiresManifestHistoryCoverage(kind) && !QueriedByFilter(kind)
  }

  predicate TrackedManifest(row: Registry.ContractRow) {
    row.identity.provenance.Manifest? && TrackedKind(row.identity.kind)
  }

  /** The configured deployment of a contract, or else the one on file. */
  function KnownFor(configured: Overlay, a: Address, deployment: Option<Deployment>): Option<int> {
    if a in configured then Some(configured[a])
    else if deployment.Some? then Some(deployment.value.block)
    else None
  }

  /** The cursor reaches from the known deployment to the checkpoint. */
  predicate ClaimsHistory(configured: Overlay, s: Database.Store, a: Address)
    requires a in s.registry.contracts
  {
    var known := KnownFor(configured, a, s.registry.contracts[a].deployment);
    known.Some? && Max(known.value, s.ledger.startBlock) <= Tip(s.ledger) ==>
      && a in s.ledger.cursors
      && s.ledger.cursors[a].startBlock <= Max(known.value, s.ledger.startBlock)
      && s.ledger.cursors[a].lastRetrievedBlock == Tip(s.ledger)
  }

  ghost predicate Settled(configured: Overlay, s: Database.Store) {
    forall a :: a in s.registry.contracts && TrackedManifest(s.registry.contracts[a]) ==> ClaimsHistory(configured, s, a)
  }

  // ---------------------------------------------------------------- what a planned segment will claim

  /** The deployment on file once the observations are stored. */
  function DeploymentAfter(deployment: Option<Deployment>, os: seq<DeploymentObservation>, a: Address): Option<Deployment> {
    if os == [] then deployment
    else if os[|os| - 1].contractAddress == a then os[|os| - 1].deployment
    else DeploymentAfter(deployment, os[..|os| - 1], a)
  }

  /** The end of the segment will write a cursor for the contract that starts at its known deployment. */
  predicate WillClaim(startBlock: nat, configured: Overlay, a: Address, stored: Registry.ContractRow, row: Registry.ContractRow, plan: Plan,
                      end: int, batchStart: int)
  {
    var known := KnownFor(configured, a, DeploymentAfter(stored.deployment, plan.observations, a));
    known.Some? && Max(known.value, startBlock) <= end ==>
      CursorFor(a, row, plan.inputs, end, startBlock, batchStart) == Some(LogScanCursor(a, Max(known.value, startBlock), end))
  }

  predicate RowWillClaim(startBlock: nat, configured: Overlay, a: Address, stored: Registry.ContractRow, table: Contracts, plan: Plan,
                         end: int, batchStart: int)
  {
    a in table && WillClaim(startBlock, configured, a, stored, table[a], plan, end, batchStart)
  }

  ghost predicate AllWillClaim(s: Database.Store, configured: Overlay, table: Contracts, plan: Plan, end: int, batchStart: int) {
    forall a {:trigger TrackedManifest(s.registry.contracts[a])} :: a in s.registry.contracts && TrackedManifest(s.registry.contracts[a]) ==>
      RowWillClaim(s.ledger.startBlock, configured, a, s.registry.contracts[a], table, plan, end, batchStart)
  }

  /** A planned range and the sources it is planned for. */
  ghost predicate Planned(table: Contracts, cs: seq<Source>, next: nat, end: nat, startBlock: nat, codeAt: (Address, nat) -> LogScan.CodeRead,
                          unavailable: set<Address>, plan: Plan)
  {
    && Checkable(cs) && Sources(table, cs) && startBlock <= next <= end
    && (forall k :: 0 <= k < |cs| ==> Plannable(cs[k], next, end, startBlock))
    && PlanLogScan(cs, next, end, startBlock, codeAt, unavailable) == Success(plan)
  }

  /** Every input and every observation is that of one source. */
  lemma InputHasSource(table: Contracts, cs: seq<Source>, next: nat, end: nat, startBlock: nat, codeAt: (Address, nat) -> LogScan.CodeRead,
                       unavailable: set<Address>, plan: Plan, k: nat)
    returns (j: nat)
    requires Planned(table, cs, next, end, startBlock, codeAt, unavailable, plan) && k < |plan.inputs|
    ensures j < |cs| && cs[j].address == plan.inputs[k].address
    ensures FromContract(cs[j], next, end, startBlock, codeAt, unavailable, plan.inputs[k])
  {
    PlanIsParts(cs, next, end, startBlock, codeAt, unavailable);
    j :| 0 <= j < |cs| && FromContract(cs[j], next, end, startBlock, codeAt, unavailable, plan.inputs[k]);
    InputInSegment(cs[j], next, end, startBlock, codeAt, unavailable);
  }

  lemma ObservationHasSource(table: Contracts, cs: seq<Source>, next: nat, end: nat, startBlock: nat, codeAt: (Address, nat) -> LogScan.CodeRead,
                             unavailable: set<Address>, plan: Plan, k: nat)
    returns (j: nat)
    requires Planned(table, cs, next, end, startBlock, codeAt, unavailable, plan) && k < |plan.observations|
    ensures j < |cs| && cs[j].address == plan.observations[k].contractAddress
    ensures ObservedFor(cs[j], next, end, startBlock, codeAt, unavailable, plan.observations[k])
  {
    PlanIsParts(cs, next, end, startBlock, codeAt, unavailable);
    j :| 0 <= j < |cs| && ObservedFor(cs[j], next, end, startBlock, codeAt, unavailable, plan.observations[k]);
    InputInSegment(cs[j], next, end, startBlock, codeAt, unavailable);
  }

  lemma {:induction false} DeploymentAfterIs(deployment: Option<Deployment>, os: seq<DeploymentObservation>, a: Address)
    ensures (forall k :: 0 <= k < |os| ==> os[k].contractAddress != a) ==> DeploymentAfter(deployment, os, a) == deployment
    ensures (exists k :: 0 <= k < |os| && os[k].contractAddress == a) ==>
              exists k :: 0 <= k < |os| && os[k].contractAddress == a && DeploymentAfter(deployment, os, a) == os[k].deployment
  {
    if os != [] {
      var front := os[..|os| - 1];
      assert forall k :: 0 <= k < |front| ==> front[k] == os[k];
      DeploymentAfterIs(deployment, front, a);
      if os[|os| - 1].contractAddress == a {
        assert DeploymentAfter(deployment, os, a) == os[|os| - 1].deployment;
      } else if exists k :: 0 <= k < |os| && os[k].contractAddress == a {
        var k :| 0 <= k < |front| && front[k].contractAddress == a && DeploymentAfter(deployment, front, a) == front[k].deployment;
        assert os[k].contractAddress == a;
      }
    }
  }

  /** The part of the plan for one source starts at the deployment that will be known, if one will be. */
  lemma PartStarts(c: Source, next: nat, end: nat, startBlock: nat, configured: Overlay, codeAt: (Address, nat) -> LogScan.CodeRead,
                   unavailable: set<Address>, stored: Option<Deployment>)
    requires Plannable(c, next, end, startBlock) && PlanContract(c, next, end, startBlock, codeAt, unavailable).Success?
    requires c.row.deployment == if c.address in configured then Some(Deployment(configured[c.address], true)) else stored
    ensures var part := PlanContract(c, next, end, startBlock, codeAt, unavailable).value;
            var known := KnownFor(configured, c.address, DeploymentAfter(stored, part.observations, c.address));
            && |part.inputs| <= 1 && |part.observations| <= 1
            && (forall o :: o in part.observations ==> o.contractAddress == c.address)
            && (known.Some? && Max(known.value, startBlock) <= end ==>
                  part.inputs != [] && part.inputs[0].address == c.address && part.inputs[0].startBlock == Max(known.value, startBlock))
  {
    InputInSegment(c, next, end, startBlock, codeAt, unavailable);
    var part := PlanContract(c, next, end, startBlock, codeAt, unavailable).value;
    if part.observations != [] {
      assert part.observations == [part.observations[0]];
      assert DeploymentAfter(stored, part.observations, c.address) == part.observations[0].deployment;
    }
  }

  /** All observations of one source being the same, the order of the plan does not matter. */
  lemma DeploymentAfterPlan(table: Contracts, cs: seq<Source>, next: nat, end: nat, startBlock: nat, codeAt: (Address, nat) -> LogScan.CodeRead,
                            unavailable: set<Address>, plan: Plan, i: nat, stored: Option<Deployment>)
    requires Planned(table, cs, next, end, startBlock, codeAt, unavailable, plan) && i < |cs|
    requires PlanContract(cs[i], next, end, startBlock, codeAt, unavailable).Success?
    requires var part := PlanContract(cs[i], next, end, startBlock, codeAt, unavailable).value;
             && PlansPart(plan, part) && |part.observations| <= 1
             && (forall o :: o in part.observations ==> o.contractAddress == cs[i].address)
    ensures DeploymentAfter(stored, plan.observations, cs[i].address)
            == DeploymentAfter(stored, PlanContract(cs[i], next, end, startBlock, codeAt, unavailable).value.observations, cs[i].address)
  {
    var a, part := cs[i].address, PlanContract(cs[i], next, end, startBlock, codeAt, unavailable).value;
    DeploymentAfterIs(stored, plan.observations, a);
    DeploymentAfterIs(stored, part.observations, a);
    forall k | 0 <= k < |plan.observations| && plan.observations[k].contractAddress == a
      ensures plan.observations[k] in part.observations
    {
      var j := ObservationHasSource(table, cs, next, end, startBlock, codeAt, unavailable, plan, k);
      assert cs[j] == cs[i];
    }
    if part.observations != [] {
      assert part.observations[0] in plan.observations;
    }
  }

  lemma FollowedWillClaim(table: Contracts, cs: seq<Source>, next: nat, end: nat, startBlock: nat, configured: Overlay,
                          codeAt: (Address, nat) -> LogScan.CodeRead, unavailable: set<Address>, plan: Plan, a: Address,
                          stored: Registry.ContractRow, row: Registry.ContractRow, batchStart: int)
    requires Planned(table, cs, next, end, startBlock, codeAt, unavailable, plan)
    requires a in table && Followed(table[a]) && row.identity == table[a].identity
    requires table[a].deployment == if a in configured then Some(Deployment(configured[a], true)) else stored.deployment
    ensures WillClaim(startBlock, configured, a, stored, row, plan, end, batchStart)
  {
    var i :| 0 <= i < |cs| && cs[i] == Source(a, table[a]);
    PlanHasPart(cs, next, end, startBlock, codeAt, unavailable, i);
    PartStarts(cs[i], next, end, startBlock, configured, codeAt, unavailable, stored.deployment);
    DeploymentAfterPlan(table, cs, next, end, startBlock, codeAt, unavailable, plan, i, stored.deployment);
    var part := PlanContract(cs[i], next, end, startBlock, codeAt, unavailable).value;
    if part.inputs != [] && part.inputs[0].address == a {
      InputForIsPart(table, cs, next, end, startBlock, codeAt, unavailable, plan, i);
    }
  }

  lemma InputForIsPart(table: Contracts, cs: seq<Source>, next: nat, end: nat, startBlock: nat, codeAt: (Address, nat) -> LogScan.CodeRead,
                       unavailable: set<Address>, plan: Plan, i: nat)
    requires Planned(table, cs, next, end, startBlock, codeAt, unavailable, plan) && i < |cs|
    requires PlanContract(cs[i], next, end, startBlock, codeAt, unavailable).Success?
    requires var part := PlanContract(cs[i], next, end, startBlock, codeAt, unavailable).value;
             |part.inputs| == 1 && part.inputs[0].address == cs[i].address && PlansPart(plan, part)
    ensures InputFor(plan.inputs, cs[i].address) == Some(PlanContract(cs[i], next, end, startBlock, codeAt, unavailable).value.inputs[0])
  {
    var part := PlanContract(cs[i], next, end, startBlock, codeAt, unavailable).value;
    assert part.inputs[0] in plan.inputs && InputFor(plan.inputs, cs[i].address).Some?;
    var k :| 0 <= k < |plan.inputs| && plan.inputs[k] == InputFor(plan.inputs, cs[i].address).value;
    var j := InputHasSource(table, cs, next, end, startBlock, codeAt, unavailable, plan, k);
    assert cs[j] == cs[i];
  }

  /** Contracts that are not scanned but tracked all the same: wrapped ether and USDC. */
  lemma UnscannedWillClaim(table: Contracts, cs: seq<Source>, next: nat, end: nat, startBlock: nat, configured: Overlay,
                           codeAt: (Address, nat) -> LogScan.CodeRead, unavailable: set<Address>, plan: Plan, a: Address,
                           stored: Registry.ContractRow, batchStart: int)
    requires Planned(table, cs, next, end, startBlock, codeAt, unavailable, plan)
    requires a in table && table[a].canonical && TrackedKind(table[a].identity.kind) && !Followed(table[a])
    requires table[a].deployment == if a in configured then Some(Deployment(configured[a], true)) else stored.deployment
    ensures forall k :: 0 <= k < |plan.observations| ==> plan.observations[k].contractAddress != a
    ensures WillClaim(startBlock, configured, a, stored, table[a], plan, end, batchStart)
  {
    forall k | 0 <= k < |plan.inputs|
      ensures plan.inputs[k].address != a
    {
      var j := InputHasSource(table, cs, next, end, startBlock, codeAt, unavailable, plan, k);
      assert Followed(cs[j].row);
    }
    forall k | 0 <= k < |plan.observations|
      ensures plan.observations[k].contractAddress != a
    {
      var j := ObservationHasSource(table, cs, next, end, startBlock, codeAt, unavailable, plan, k);
      assert Followed(cs[j].row);
    }
    DeploymentAfterIs(stored.deployment, plan.observations, a);
  }

  /** With a segment planned, it is known what its end will claim. */
  lemma SegmentWillClaim(s: Database.Store, chain: Chain, configured: Overlay, cs: seq<Source>, next: nat, end: nat,
                         codeAt: (Address, nat) -> LogScan.CodeRead, unavailable: set<Address>, plan: Plan)
    requires Sound(s, chain)
    requires Planned(TableInMemory(s.registry.contracts, configured), cs, next, end, s.ledger.startBlock, codeAt, unavailable, plan)
    ensures AllWillClaim(s, configured, ObservedInMemory(TableInMemory(s.registry.contracts, configured), plan.observations), plan, end, next)
  {
    var table := TableInMemory(s.registry.contracts, configured);
    var after := ObservedInMemory(table, plan.observations);
    forall a | a in s.registry.contracts && TrackedManifest(s.registry.contracts[a])
      ensures RowWillClaim(s.ledger.startBlock, configured, a, s.registry.contracts[a], after, plan, end, next)
    {
      assert RegistryProofs.RowOk(s.registry.discoveries, s.ledger.startBlock, a, s.registry.contracts[a]);
      SameIdentityObserved(table, plan.observations, a);
      if Followed(table[a]) {
        FollowedWillClaim(table, cs, next, end, s.ledger.startBlock, configured, codeAt, unavailable, plan, a,
                          s.registry.contracts[a], after[a], next);
      } else {
        UnscannedWillClaim(table, cs, next, end, s.ledger.startBlock, configured, codeAt, unavailable, plan, a, s.registry.contracts[a], next);
      }
    }
  }

  lemma {:induction false} SameIdentityObserved(table: Contracts, os: seq<DeploymentObservation>, a: Address)
    ensures var after := ObservedInMemory(table, os);
            && (a in after <==> a in table)
            && (a in table ==> after[a].identity == table[a].identity)
            && (a in table && (forall k :: 0 <= k < |os| ==> os[k].contractAddress != a) ==> after[a] == table[a])
  {
    if os != [] {
      assert forall k :: 0 <= k < |os| - 1 ==> os[..|os| - 1][k] == os[k];
      SameIdentityObserved(table, os[..|os| - 1], a);
    }
  }

  // ---------------------------------------------------------------- storing the segment

  /** A tracked manifest contract is not announced, so its row changes by observations only. */
  lemma ManifestRowStored(s: Database.Store, chain: Chain, configured: Overlay, b: IndexedBlock, a: Address)
    requires Sound(s, chain) && Genuine(s, Append(b)) && Database.StoreBlock(s, b).Success? && AnnouncesNew(configured, s, b)
    requires var t := Database.StoreBlock(s, b).value; a in t.registry.contracts && t.registry.contracts[a].identity.provenance.Manifest?
    ensures a in s.registry.contracts
    ensures var row := Database.StoreBlock(s, b).value.registry.contracts[a];
            && row.identity == s.registry.contracts[a].identity
            && row.deployment == DeploymentAfter(s.registry.contracts[a].deployment, b.observations, a)
  {
    StoredRowIs(s, chain, configured, b, a);
    forall i | 0 <= i < |b.contracts|
      ensures !b.contracts[i].identity.provenance.Manifest?
    {
      assert RegistryProofs.AgreesWithFile(s.registry, b.hash, b.contracts[i]);
    }
    assert a !in RegistryProofs.Addresses(b.contracts);
    FoundRow(s.registry, b.number, b.hash, b.contracts, a);
    assert RegistryProofs.RowOk(s.registry.discoveries, s.ledger.startBlock, a, s.registry.contracts[a]);
    ObservedDeployment(Registry.StoreContracts(s.registry, b.number, b.hash, b.contracts).value.contracts, b.number, b.observations, a);
  }

  lemma {:induction false} ObservedDeployment(contracts: map<Address, Registry.ContractRow>, n: nat, os: seq<DeploymentObservation>, a: Address)
    requires Registry.StoreObservations(contracts, n, os).Success? && a in contracts && contracts[a].canonical
    ensures var after := Registry.StoreObservations(contracts, n, os).value;
            a in after && after[a].canonical && after[a].deployment == DeploymentAfter(contracts[a].deployment, os, a)
  {
    if os != [] {
      ObservedDeployment(contracts, n, os[..|os| - 1], a);
    }
  }

  /** Before its end, the segment changes nothing about what it will claim. */
  lemma StoredWillClaim(s: Database.Store, chain: Chain, configured: Overlay, b: IndexedBlock, table: Contracts, after: Contracts, plan: Plan,
                        end: int, batchStart: int)
    requires Sound(s, chain) && Genuine(s, Append(b)) && Database.StoreBlock(s, b).Success? && AnnouncesNew(configured, s, b)
    requires AllWillClaim(s, configured, table, plan, end, batchStart) && b.observations == []
    requires forall a :: a in table ==> a in after && after[a] == table[a]
    ensures AllWillClaim(Database.StoreBlock(s, b).value, configured, after, plan, end, batchStart)
  {
    var t := Database.StoreBlock(s, b).value;
    forall a | a in t.registry.contracts && TrackedManifest(t.registry.contracts[a])
      ensures RowWillClaim(t.ledger.startBlock, configured, a, t.registry.contracts[a], after, plan, end, batchStart)
    {
      ManifestRowStored(s, chain, configured, b, a);
      assert TrackedManifest(s.registry.contracts[a]);
      assert RowWillClaim(s.ledger.startBlock, configured, a, s.registry.contracts[a], table, plan, end, batchStart);
    }
  }

  /** Its end claims it. */
  lemma StoredSettles(s: Database.Store, chain: Chain, configured: Overlay, b: IndexedBlock, table: Contracts, after: Contracts, plan: Plan,
                      batchStart: int)
    requires Sound(s, chain) && Genuine(s, Append(b)) && Database.StoreBlock(s, b).Success? && AnnouncesNew(configured, s, b)
    requires AllWillClaim(s, configured, table, plan, b.number, batchStart)
    requires EndsAsPlanned(b.observations, b.logScanCursors, b.number, b.number, s.ledger.startBlock, after, plan, batchStart)
    requires forall a :: a in table ==> a in after && after[a] == table[a]
    ensures Settled(configured, Database.StoreBlock(s, b).value)
  {
    var t := Database.StoreBlock(s, b).value;
    AppendIsWellPlaced(s, chain, b);
    forall a | a in t.registry.contracts && TrackedManifest(t.registry.contracts[a])
      ensures ClaimsHistory(configured, t, a)
    {
      ManifestRowStored(s, chain, configured, b, a);
      assert TrackedManifest(s.registry.contracts[a]);
      assert RowWillClaim(s.ledger.startBlock, configured, a, s.registry.contracts[a], table, plan, b.number, batchStart);
      CursorStored(s, chain, configured, b, after, plan, batchStart, a);
    }
  }

  lemma CursorStored(s: Database.Store, chain: Chain, configured: Overlay, b: IndexedBlock, after: Contracts, plan: Plan, batchStart: int, a: Address)
    requires Sound(s, chain) && Genuine(s, Append(b)) && Database.StoreBlock(s, b).Success?
    requires EndsAsPlanned(b.observations, b.logScanCursors, b.number, b.number, s.ledger.startBlock, after, plan, batchStart)
    requires a in after
    ensures var cursor := CursorFor(a, after[a], plan.inputs, b.number, s.ledger.startBlock, batchStart);
            var cursors := Database.StoreBlock(s, b).value.ledger.cursors;
            cursor.Some? ==> a in cursors && cursors[a].startBlock <= cursor.value.startBlock && cursors[a].lastRetrievedBlock == b.number
  {
    var cursor := CursorFor(a, after[a], plan.inputs, b.number, s.ledger.startBlock, batchStart);
    StoreAcceptsExactly(s.ledger, chain, b);
    if cursor.Some? {
      assert IsCursor(after, plan.inputs, b.number, s.ledger.startBlock, batchStart, cursor.value);
      var i :| 0 <= i < |b.logScanCursors| && b.logScanCursors[i] == cursor.value;
      CursorsExtended(s.ledger.cursors, b.logScanCursors, b.number, a);
    }
  }

  predicate AllEndAt(cursors: CursorTable, cs: seq<LogScanCursor>, end: int) {
    && (forall a :: a in cursors ==> cursors[a].lastRetrievedBlock <= end)
    && (forall i :: 0 <= i < |cs| ==> cs[i].lastRetrievedBlock == end)
  }

  /** The cursors of a segment's end extend those on file, in both directions. */
  lemma {:induction false} CursorsExtended(cursors: CursorTable, cs: seq<LogScanCursor>, end: int, a: Address)
    requires DistinctCursors(cs) && AllEndAt(cursors, cs, end)
    ensures var after := Ledger.UpsertCursors(cursors, cs);
            && (forall i :: 0 <= i < |cs| && cs[i].contractAddress == a ==>
                  a in after && after[a] == Ledger.CursorRow(if a in cursors then Min(cursors[a].startBlock, cs[i].startBlock) else cs[i].startBlock, end))
            && ((forall i :: 0 <= i < |cs| ==> cs[i].contractAddress != a) ==>
                  (a in after <==> a in cursors) && (a in cursors ==> after[a] == cursors[a]))
  {
    if cs != [] {
      var front, last := cs[..|cs| - 1], cs[|cs| - 1];
      assert forall i :: 0 <= i < |front| ==> front[i] == cs[i];
      CursorsExtended(cursors, front, end, a);
      CursorsExtended(cursors, front, end, last.contractAddress);
      assert forall i :: 0 <= i < |front| ==> front[i].contractAddress != last.contractAddress;
    }
  }

  // ---------------------------------------------------------------- and so nothing is missing

  /** The manifest entry is the contract on file, and its deployment is configured if the entry gives one. */
  predicate EntryOnFile(m: Entry, configured: Overlay, s: Database.Store) {
    var a := m.contract.address;
    && a in s.registry.contracts
    && s.registry.contracts[a].identity == Registry.ManifestIdentity(m.contract)
    && (if m.deploymentBlock.Some? then a in configured && configured[a] == m.deploymentBlock.value else a !in configured)
  }

  /** For a contract with a known deployment the planner finds nothing missing. */
  lemma SettledMissesNothing(m: Entry, configured: Overlay, s: Database.Store, chain: Chain, configuredStart: int, find: DeploymentFinder)
    requires Sound(s, chain) && Settled(configured, s) && EntryOnFile(m, configured, s) && configuredStart <= s.ledger.startBlock
    requires !QueriedByFilter(m.contract.kind) && KnownDeployment(m, CanonicalContracts(s.registry.contracts)).Some?
    ensures MissingStart(m, CanonicalContracts(s.registry.contracts), s.ledger.cursors, Tip(s.ledger), configuredStart, s.ledger.startBlock, find).None?
  {
    var a := m.contract.address;
    assert RegistryProofs.RowOk(s.registry.discoveries, s.ledger.startBlock, a, s.registry.contracts[a]);
    assert RequiresManifestHistoryCoverage(m.contract.kind) ==> ClaimsHistory(configured, s, a);
  }
}
