/** How far back a backfill goes: whatever a manifest contract emitted that its cursor does not claim is
    replayed, but for two cases of a deployment that is not known. */
module BackfillReach {
  import opened Records
  import opened Node
  import opened Planner
  import opened LogScan
  import opened Rules
  import opened Backfill
  import Registry

  ghost predicate QuietThrough(node: Node, a: Address, n: int) {
    forall m :: m <= n ==> !EmitsIn(node, a, m)
  }

  // ---------------------------------------------------------------- looking for the deployment

  /** The search of a backfill: where old code cannot be read, the contract may be as old as the start. */
  function ManifestDeployment(codeAt: (Address, nat) -> CodeRead, a: Address, from: int, through: int, knownAbsent: bool): Option<Deployment> {
    if from < 0 || through < 0 then None
    else
      match DeploymentSearch(from, through, (n: nat) => codeAt(a, n), knownAbsent)
      case Found(d) => Some(d)
      case Unavailable => Some(Deployment(from, false))
      case _ => None
  }

  /** What a search through the checkpoint comes to: nothing is emitted before what it finds, other than
      in the block where code is said to be absent. */
  ghost predicate Finds(node: Node, a: Address, from: nat, through: int, knownAbsent: bool, found: Option<Deployment>) {
    && (forall n :: EmitsIn(node, a, n) && from <= n <= through && (knownAbsent ==> from < n) ==> found.Some? && found.value.block <= n)
    && (found.Some? ==> if found.value.exact then from < found.value.block <= through else from == found.value.block)
  }

  ghost predicate FindsAll(node: Node, a: Address, through: int, find: DeploymentFinder) {
    forall from: nat, knownAbsent ::
      if from < through then Finds(node, a, from, through, knownAbsent, find(a, from, through, knownAbsent))
      else find(a, from, through, knownAbsent).None?
  }

  ghost predicate CanRead(rpc: Rpc, a: Address) {
    forall n :: !rpc.codeAt(a, n).ReadFailed?
  }

  /** Code is there wherever something is emitted, so a search that can read is true. */
  lemma SearchIsTrue(node: Node, rpc: Rpc, a: Address, from: nat, through: nat, knownAbsent: bool)
    requires HonestRpc(node, rpc) && CanRead(rpc, a) && CodeStays(node, a) && QuietWithoutCode(node, a)
    requires from < through < |node.headers| && !node.world.hasCode(a, node.headers[0].hash)
    ensures Finds(node, a, from, through, knownAbsent, ManifestDeployment(rpc.codeAt, a, from, through, knownAbsent))
  {
    var codeAt := (m: nat) => rpc.codeAt(a, m);
    SearchFinds(from, through, codeAt, knownAbsent);
    SearchFailsFor(from, through, codeAt, knownAbsent);
    var search := DeploymentSearch(from, through, codeAt, knownAbsent);
    forall n | EmitsIn(node, a, n) && from <= n <= through && (knownAbsent ==> from < n)
      ensures !search.NotFound? && (search.Found? ==> search.deployment.block <= n)
    {
      if codeAt(through).Code? {
        EmitterHasCode(node, rpc, a, n, through);
      }
      if search.Found? && search.deployment.exact && Holds(codeAt, search.deployment.block - 1, false) {
        SilentWithoutCode(node, rpc, a, search.deployment.block - 1);
      }
    }
  }

  lemma SearchesAreTrue(node: Node, rpc: Rpc, a: Address, through: nat)
    requires HonestRpc(node, rpc) && CanRead(rpc, a) && CodeStays(node, a) && QuietWithoutCode(node, a)
    requires through < |node.headers| && !node.world.hasCode(a, node.headers[0].hash)
    ensures FindsAll(node, a, through, (b: Address, from: int, to: int, knownAbsent: bool) => ManifestDeployment(rpc.codeAt, b, from, to, knownAbsent))
  {
    forall from: nat, knownAbsent | from < through
      ensures Finds(node, a, from, through, knownAbsent, ManifestDeployment(rpc.codeAt, a, from, through, knownAbsent))
    {
      SearchIsTrue(node, rpc, a, from, through, knownAbsent);
    }
  }

  // ---------------------------------------------------------------- what is on file

  /** Its deployment on file is that of the contract in its present role. */
  predicate Trusted(row: Registry.ContractRow) {
    || (row.deployment.Some? && row.deployment.value.exact)
    || (row.identity.provenance.Manifest? && row.identity.kind !in {"multicall3", "proxyDeployer", "scalarOutcomes"})
  }

  /** Nothing was emitted before a configured deployment, nor before one on file that is trusted, nor while
      the check on file found no code. */
  ghost predicate TrueOnFile(node: Node, m: Entry, contracts: Contracts) {
    var a := m.contract.address;
    && (m.deploymentBlock.Some? ==> QuietThrough(node, a, m.deploymentBlock.value - 1))
    && (a in contracts && Trusted(contracts[a]) ==>
          && (contracts[a].deployment.Some? ==> QuietThrough(node, a, contracts[a].deployment.value.block - 1))
          && (contracts[a].deployment.None? && contracts[a].checkedBlock.Some? ==> QuietThrough(node, a, contracts[a].checkedBlock.value)))
  }

  /** No deployment is configured, and none on file to be relied on. */
  predicate Unknown(m: Entry, contracts: Contracts) {
    && m.deploymentBlock.None?
    && (m.contract.address in contracts ==>
          contracts[m.contract.address].deployment.None? || !Trusted(contracts[m.contract.address]))
  }

  /** Without a known deployment, a cursor that reaches the checkpoint is taken to say all. */
  predicate TakenForGranted(m: Entry, contracts: Contracts, cursors: CursorTable, checkpoint: int) {
    var a := m.contract.address;
    && (a in contracts ==> Trusted(contracts[a]))
    && a in cursors && cursors[a].lastRetrievedBlock >= checkpoint
  }

  /** The last check is of a block before the start, and yet code is taken to be absent at the start; what
      the search finds then is later, if it finds anything. */
  predicate Overtaken(m: Entry, contracts: Contracts, cursors: CursorTable, checkpoint: int, activeStart: nat, find: DeploymentFinder) {
    var a := m.contract.address;
    && a in contracts && Trusted(contracts[a])
    && contracts[a].checkedBlock.Some? && contracts[a].checkedBlock.value < activeStart
    && var found := find(a, activeStart, checkpoint, true);
       found.None? || (found.value.exact && (a in cursors ==> activeStart <= cursors[a].lastRetrievedBlock))
  }

  /** A block through the checkpoint in which a manifest contract emitted something and which its cursor
      does not claim is replayed, exactly unless its deployment is unknown and either the cursor reaches
      the checkpoint all the same, or there is no room to search, or it is the start block and only an
      earlier one was ever checked. */
  lemma ReplayReachesExactly(node: Node, m: Entry, contracts: Contracts, cursors: CursorTable, checkpoint: int, configuredStart: int,
                             activeStart: nat, find: DeploymentFinder, n: int)
    requires FindsAll(node, m.contract.address, checkpoint, find) && TrueOnFile(node, m, contracts)
    requires configuredStart <= activeStart <= n <= checkpoint && EmitsIn(node, m.contract.address, n)
    requires m.contract.kind !in {"multicall3", "proxyDeployer", "scalarOutcomes"}
    requires m.contract.address in cursors ==> cursors[m.contract.address].startBlock <= cursors[m.contract.address].lastRetrievedBlock
    requires var a := m.contract.address; !(a in cursors && cursors[a].startBlock <= n <= cursors[a].lastRetrievedBlock)
    ensures var missing := MissingStart(m, contracts, cursors, checkpoint, configuredStart, activeStart, find);
            missing.Some? && missing.value <= n <==>
              !(Unknown(m, contracts)
                && (|| TakenForGranted(m, contracts, cursors, checkpoint) || activeStart == checkpoint
                    || (n == activeStart && Overtaken(m, contracts, cursors, checkpoint, activeStart, find))))
  {
    var a := m.contract.address;
    var again := a in contracts && !Trusted(contracts[a]) && m.deploymentBlock.None?;
    assert RequiresFreshSearch(m, contracts) == again;
    var checked := CheckedBlock(m, contracts);
    if Unknown(m, contracts) && !TakenForGranted(m, contracts, cursors, checkpoint) {
      SearchReaches(node, m, contracts, checkpoint, configuredStart, activeStart, find, n);
    }
  }

  lemma SearchReaches(node: Node, m: Entry, contracts: Contracts, checkpoint: int, configuredStart: int, activeStart: nat,
                      find: DeploymentFinder, n: int)
    requires FindsAll(node, m.contract.address, checkpoint, find) && TrueOnFile(node, m, contracts)
    requires configuredStart <= activeStart <= n <= checkpoint && EmitsIn(node, m.contract.address, n)
    requires m.contract.kind !in {"multicall3", "proxyDeployer", "scalarOutcomes"} && Unknown(m, contracts)
    ensures var found := SearchedDeployment(m, contracts, checkpoint, configuredStart, activeStart, find);
            var at := find(m.contract.address, activeStart, checkpoint, true);
            && (activeStart == checkpoint ==> found.None?) && (found.Some? ==> found.value <= checkpoint)
            && (activeStart < checkpoint && activeStart < n ==> found.Some? && found.value <= n)
            && (activeStart < checkpoint && activeStart == n ==>
                  var a := m.contract.address;
                  if a in contracts && Trusted(contracts[a]) && contracts[a].checkedBlock.Some? && contracts[a].checkedBlock.value < activeStart
                  then found.Some? == at.Some? && (found.Some? ==> (found.value <= n <==> !at.value.exact))
                  else found.Some? && found.value <= n)
  {
    var a, again, checked := m.contract.address, RequiresFreshSearch(m, contracts), CheckedBlock(m, contracts);
    var from := Max(activeStart, if again || checked.None? then configuredStart else checked.value);
    if from < checkpoint {
      assert Finds(node, a, from, checkpoint, !again && checked.Some?, find(a, from, checkpoint, !again && checked.Some?));
      if !again && checked.Some? && activeStart <= checked.value {
        assert !EmitsIn(node, a, from);
      }
    }
  }

  /** Kinds without a history of their own are never gone back for. */
  lemma NothingToReplay(m: Entry, contracts: Contracts, cursors: CursorTable, checkpoint: int, configuredStart: int, activeStart: int,
                        find: DeploymentFinder)
    requires m.contract.kind in {"multicall3", "proxyDeployer", "scalarOutcomes"}
    ensures MissingStart(m, contracts, cursors, checkpoint, configuredStart, activeStart, find).None?
  {
  }

  /** So does the replay of the whole manifest. */
  lemma ReplayReaches(node: Node, ms: seq<Entry>, contracts: Contracts, cursors: CursorTable, checkpoint: int, configuredStart: int,
                      activeStart: nat, find: DeploymentFinder, replayStart: Option<int>, i: nat, n: int)
    requires IsLeastMissing(ms, contracts, cursors, checkpoint, configuredStart, activeStart, find, replayStart) && i < |ms|
    requires FindsAll(node, ms[i].contract.address, checkpoint, find) && TrueOnFile(node, ms[i], contracts)
    requires configuredStart <= activeStart <= n <= checkpoint && EmitsIn(node, ms[i].contract.address, n)
    requires ms[i].contract.kind !in {"multicall3", "proxyDeployer", "scalarOutcomes"}
    requires ms[i].contract.address in cursors ==>
               cursors[ms[i].contract.address].startBlock <= cursors[ms[i].contract.address].lastRetrievedBlock
    requires var a := ms[i].contract.address; !(a in cursors && cursors[a].startBlock <= n <= cursors[a].lastRetrievedBlock)
    requires !(Unknown(ms[i], contracts)
               && (|| TakenForGranted(ms[i], contracts, cursors, checkpoint) || activeStart == checkpoint
                   || (n == activeStart && Overtaken(ms[i], contracts, cursors, checkpoint, activeStart, find))))
    ensures replayStart.Some? && replayStart.value <= n
  {
    ReplayReachesExactly(node, ms[i], contracts, cursors, checkpoint, configuredStart, activeStart, find, n);
  }
}
