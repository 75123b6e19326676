/** The contract registry of one network: the contracts the scanner knows and the on-chain
    discoveries that introduced them. As in `Ledger`, each function is one transaction's effect. */
module Registry {
  import opened Records

  datatype ContractRow = ContractRow(
    identity: Identity,
    discovery: Option<Position>,
    canonical: bool,
    deployment: Option<Deployment>,
    checkedBlock: Option<int>)

  datatype DiscoveryKey = DiscoveryKey(address: Address, blockHash: Hash, txHash: Hash)

  datatype DiscoveryRow = DiscoveryRow(number: nat, identity: Identity, canonical: bool)

  datatype Registry = Registry(
    contracts: map<Address, ContractRow>,
    discoveries: map<DiscoveryKey, DiscoveryRow>)

  datatype RegistryError = MissingPosition | DiscoveryOffBlock | ObservationNotAtBlock | DeploymentBoundary

  const EMPTY := Registry(map[], map[])

  // ---------------------------------------------------------------- storing a block

  function UpsertDiscovery(discoveries: map<DiscoveryKey, DiscoveryRow>, hash: Hash, c: DiscoveredContract)
    : map<DiscoveryKey, DiscoveryRow>
    requires c.position.Some?
  {
    var k := DiscoveryKey(c.address, hash, c.position.value.txHash);
    discoveries[k := if k in discoveries then discoveries[k].(canonical := true)
                     else DiscoveryRow(c.position.value.block, c.identity, true)]
  }

  function UpsertContract(contracts: map<Address, ContractRow>, c: DiscoveredContract, n: nat): map<Address, ContractRow>
    requires c.position.Some?
  {
    var found := Deployment(c.position.value.block, true);
    contracts[c.address :=
      if c.address !in contracts then ContractRow(c.identity, c.position, true, Some(found), Some(n))
      else
        var row := contracts[c.address];
        row.(identity := if row.identity.provenance.Manifest? then row.identity else c.identity,
             discovery := if row.identity.provenance.Manifest? then row.discovery else c.position,
             canonical := true,
             deployment := if row.deployment.Some? then row.deployment else Some(found),
             checkedBlock := Some(if row.checkedBlock.Some? then Max(row.checkedBlock.value, n) else n))]
  }

  /** The discoveries of block `hash`, number `n`, in order. The foreign key on
      (block hash, block number) ties each discovery to the block it is stored with. */
  function StoreContracts(r: Registry, n: nat, hash: Hash, cs: seq<DiscoveredContract>)
    : (result: Result<Registry, RegistryError>)
    ensures result.Success? <==>
            forall i :: 0 <= i < |cs| ==> cs[i].position.Some? && cs[i].position.value.block == n
  {
    if cs == [] then Success(r)
    else
      var last := cs[|cs| - 1];
      match StoreContracts(r, n, hash, cs[..|cs| - 1])
      case Failure(e) => Failure(e)
      case Success(before) =>
        if last.position.None? then Failure(MissingPosition)
        else if last.position.value.block != n then Failure(DiscoveryOffBlock)
        else Success(Registry(UpsertContract(before.contracts, last, n), UpsertDiscovery(before.discoveries, hash, last)))
  }

  function ObservationError(n: nat, o: DeploymentObservation): Option<RegistryError> {
    if o.checkedBlock != n then Some(ObservationNotAtBlock)
    else if o.deployment.Some? && (o.deployment.value.block < 0 || o.deployment.value.block > o.checkedBlock)
    then Some(DeploymentBoundary)
    else None
  }

  function Observe(contracts: map<Address, ContractRow>, o: DeploymentObservation): map<Address, ContractRow> {
    if o.contractAddress in contracts && contracts[o.contractAddress].canonical then
      contracts[o.contractAddress :=
        contracts[o.contractAddress].(deployment := o.deployment, checkedBlock := Some(o.checkedBlock))]
    else contracts
  }

  function StoreObservations(contracts: map<Address, ContractRow>, n: nat, os: seq<DeploymentObservation>)
    : (result: Result<map<Address, ContractRow>, RegistryError>)
    ensures result.Success? <==> forall i :: 0 <= i < |os| ==> ObservationError(n, os[i]).None?
  {
    if os == [] then Success(contracts)
    else
      match StoreObservations(contracts, n, os[..|os| - 1])
      case Failure(e) => Failure(e)
      case Success(before) =>
        var error := ObservationError(n, os[|os| - 1]);
        if error.Some? then Failure(error.value) else Success(Observe(before, os[|os| - 1]))
  }

  function Store(r: Registry, b: IndexedBlock): Result<Registry, RegistryError> {
    match StoreContracts(r, b.number, b.hash, b.contracts)
    case Failure(e) => Failure(e)
    case Success(found) =>
      match StoreObservations(found.contracts, b.number, b.observations)
      case Failure(e) => Failure(e)
      case Success(contracts) => Success(found.(contracts := contracts))
  }

  // ---------------------------------------------------------------- restoring from discoveries

  predicate CanonicalDiscovery(discoveries: map<DiscoveryKey, DiscoveryRow>, a: Address, k: DiscoveryKey) {
    k in discoveries && discoveries[k].canonical && k.address == a
  }

  ghost predicate HasDiscovery(discoveries: map<DiscoveryKey, DiscoveryRow>, a: Address) {
    exists k :: CanonicalDiscovery(discoveries, a, k)
  }

  /** First in the order "one row per address, highest block first". */
  ghost predicate IsLatest(discoveries: map<DiscoveryKey, DiscoveryRow>, a: Address, k: DiscoveryKey) {
    && CanonicalDiscovery(discoveries, a, k)
    && forall j :: CanonicalDiscovery(discoveries, a, j) ==> discoveries[j].number <= discoveries[k].number
  }

  function FromDiscovery(row: ContractRow, k: DiscoveryKey, found: DiscoveryRow): ContractRow {
    row.(identity := found.identity, discovery := Some(Position(found.number, k.txHash)), canonical := true)
  }

  ghost function RestoredRow(discoveries: map<DiscoveryKey, DiscoveryRow>, a: Address, row: ContractRow): ContractRow {
    if !row.canonical && exists k :: IsLatest(discoveries, a, k) then
      var k :| IsLatest(discoveries, a, k);
      FromDiscovery(row, k, discoveries[k])
    else row
  }

  ghost function Restore(r: Registry): Registry {
    r.(contracts := map a | a in r.contracts :: RestoredRow(r.discoveries, a, r.contracts[a]))
  }

  // ---------------------------------------------------------------- rewinding

  function OrphanDiscoveries(discoveries: map<DiscoveryKey, DiscoveryRow>, ancestor: int): map<DiscoveryKey, DiscoveryRow> {
    map k | k in discoveries ::
      if discoveries[k].number > ancestor && discoveries[k].canonical then discoveries[k].(canonical := false)
      else discoveries[k]
  }

  function ForgetDeployment(row: ContractRow, ancestor: int): ContractRow {
    row.(deployment := if row.deployment.Some? && row.deployment.value.block > ancestor then None else row.deployment,
         checkedBlock := if row.checkedBlock.Some? && row.checkedBlock.value > ancestor then None else row.checkedBlock)
  }

  function OrphanContract(row: ContractRow, startBlock: nat, ancestor: int): ContractRow {
    if && !row.identity.provenance.Manifest?
       && (row.discovery.None? || row.discovery.value.block >= startBlock)
       && (row.discovery.None? || row.discovery.value.block > ancestor)
    then row.(canonical := false)
    else row
  }

  ghost function Rewind(r: Registry, startBlock: nat, ancestor: int): Registry {
    Restore(Registry(
      map a | a in r.contracts :: OrphanContract(ForgetDeployment(r.contracts[a], ancestor), startBlock, ancestor),
      OrphanDiscoveries(r.discoveries, ancestor)))
  }

  // ---------------------------------------------------------------- discarding all canonical history

  function InvalidateContract(row: ContractRow, floor: nat): ContractRow {
    row.(canonical := row.canonical
                      && !(!row.identity.provenance.Manifest?
                           && (row.discovery.None? || row.discovery.value.block >= floor)),
         deployment := None,
         checkedBlock := None)
  }

  function Invalidate(r: Registry, floor: nat): Registry {
    Registry(map a | a in r.contracts :: InvalidateContract(r.contracts[a], floor),
             map k | k in r.discoveries :: r.discoveries[k].(canonical := false))
  }

  // ---------------------------------------------------------------- seeding the manifest

  function ManifestIdentity(m: ManifestContract): Identity {
    Identity(m.displayLabel, m.kind, Manifest)
  }

  function UpsertManifest(contracts: map<Address, ContractRow>, m: ManifestContract): map<Address, ContractRow> {
    contracts[m.address :=
      if m.address !in contracts then ContractRow(ManifestIdentity(m), None, true, None, None)
      else
        var row := contracts[m.address];
        row.(identity := ManifestIdentity(m),
             discovery := if row.canonical || row.identity.provenance.Manifest? then row.discovery else None,
             canonical := true)]
  }

  function UpsertManifests(contracts: map<Address, ContractRow>, ms: seq<ManifestContract>): map<Address, ContractRow> {
    if ms == [] then contracts else UpsertManifest(UpsertManifests(contracts, ms[..|ms| - 1]), ms[|ms| - 1])
  }

  function UnseedManifest(contracts: map<Address, ContractRow>): map<Address, ContractRow> {
    map a | a in contracts ::
      if contracts[a].identity.provenance.Manifest? then contracts[a].(canonical := false) else contracts[a]
  }

  /** A discovery below the start block at the very position the contract row remembers. */
  predicate RetainedBy(r: Registry, startBlock: nat, a: Address, k: DiscoveryKey) {
    && a in r.contracts && k in r.discoveries && k.address == a
    && r.contracts[a].discovery == Some(Position(r.discoveries[k].number, k.txHash))
    && r.discoveries[k].number < startBlock
  }

  /** The order among such discoveries: canonical first, then by block hash. */
  predicate Precedes(r: Registry, j: DiscoveryKey, k: DiscoveryKey)
    requires j in r.discoveries && k in r.discoveries
  {
    if r.discoveries[j].canonical != r.discoveries[k].canonical then r.discoveries[j].canonical
    else j.blockHash < k.blockHash
  }

  ghost predicate FirstRetainedBy(r: Registry, startBlock: nat, a: Address, k: DiscoveryKey) {
    && RetainedBy(r, startBlock, a, k)
    && forall j :: RetainedBy(r, startBlock, a, j) ==> !Precedes(r, j, k)
  }

  ghost function RetainedRow(r: Registry, startBlock: nat, a: Address): ContractRow
    requires a in r.contracts
  {
    var row := r.contracts[a];
    if row.identity.provenance.Manifest? && !row.canonical && exists k :: FirstRetainedBy(r, startBlock, a, k) then
      var k :| FirstRetainedBy(r, startBlock, a, k);
      row.(identity := r.discoveries[k].identity, canonical := true)
    else row
  }

  ghost function RestoreRetained(r: Registry, startBlock: nat): Registry {
    r.(contracts := map a | a in r.contracts :: RetainedRow(r, startBlock, a))
  }

  function RetireManifest(contracts: map<Address, ContractRow>): map<Address, ContractRow> {
    map a | a in contracts ::
      if contracts[a].identity.provenance.Manifest? && !contracts[a].canonical
      then contracts[a].(identity := contracts[a].identity.(provenance := RetiredManifest))
      else contracts[a]
  }

  ghost function Seed(r: Registry, startBlock: nat, ms: seq<ManifestContract>): Registry {
    var upserted := r.(contracts := UpsertManifests(UnseedManifest(r.contracts), ms));
    var restored := RestoreRetained(Restore(upserted), startBlock);
    restored.(contracts := RetireManifest(restored.contracts))
  }

  function StoredManifest(r: Registry): set<ManifestContract> {
    set a | a in r.contracts && r.contracts[a].identity.provenance.Manifest? && r.contracts[a].canonical ::
      ManifestContract(a, r.contracts[a].identity.displayLabel, r.contracts[a].identity.kind)
  }

  /** The configured manifest and the stored one differ as unordered collections. */
  predicate ManifestChanged(r: Registry, ms: seq<ManifestContract>) {
    multiset(ms) != multiset(StoredManifest(r))
  }
}
