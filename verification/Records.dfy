/** The values the scanner's tables and transactions are made of. */
module Records {

  datatype Option<+T> = None | Some(value: T)

  datatype Result<+T, +E> = Success(value: T) | Failure(error: E)

  // A hash and an address are 256-bit and 160-bit numbers that the scanner only ever compares.
  type Hash = nat
  type Address = nat

  // Decoded columns and token metadata are carried along but never inspected.
  type Json = nat

  /** The tables whose rows hang off one block, other than the contract registry and the
      token metadata, which have rules of their own. Decoded payloads are rewritten when their block
      is stored again; those of `kept` projections are not. */
  datatype EvidenceTable = Transactions | Logs | Projection(name: nat, kept: bool)

  /** A row of this table, once on file, keeps its payload: a conflict only sets the canonical flag. */
  predicate KeepsPayload(t: EvidenceTable) {
    t.Transactions? || (t.Projection? && t.kept)
  }

  /** The primary key of an evidence row: its table, its block, and its place in the block. */
  datatype EvidenceKey = EvidenceKey(table: EvidenceTable, blockHash: Hash, position: nat)

  datatype LogScanCursor = LogScanCursor(contractAddress: Address, startBlock: int, lastRetrievedBlock: int)

  datatype Position = Position(block: nat, txHash: Hash)

  datatype BlockRef = BlockRef(number: nat, hash: Hash)

  datatype Provenance = Manifest | RetiredManifest | Discovered(source: string)

  /** What a discovery says about a contract. */
  datatype Identity = Identity(displayLabel: string, kind: string, provenance: Provenance)

  /** A contract found while indexing a block. */
  datatype DiscoveredContract = DiscoveredContract(address: Address, identity: Identity, position: Option<Position>)

  datatype Deployment = Deployment(block: int, exact: bool)

  datatype DeploymentObservation =
    DeploymentObservation(contractAddress: Address, checkedBlock: int, deployment: Option<Deployment>)

  datatype TokenMetadata = TokenMetadata(address: Address, data: Json, readBlock: nat)

  datatype ManifestContract = ManifestContract(address: Address, displayLabel: string, kind: string)

  /** One block as the indexer hands it to the database. */
  datatype IndexedBlock = IndexedBlock(
    number: nat,
    hash: Hash,
    parentHash: Hash,
    finalizedThrough: nat,
    evidence: map<EvidenceKey, Json>,
    contracts: seq<DiscoveredContract>,
    observations: seq<DeploymentObservation>,
    tokenMetadata: seq<TokenMetadata>,
    logScanCursors: seq<LogScanCursor>)

  function Max(a: int, b: int): int {
    if a < b then b else a
  }

  function Min(a: int, b: int): int {
    if a < b then a else b
  }
}
