/** The chain as a node serves it: what the blocks contain, by hash. */
module World {
  import opened Records

  datatype Header = Header(hash: Hash, parentHash: Hash)

  /** The node's chain while a reconciliation reads it, from block 0 to the head. */
  type Remote = seq<Header>

  datatype Log = Log(emitter: Address, index: nat, topic: nat, words: seq<Address>)

  datatype Receipt = Receipt(txHash: Hash, logs: seq<Log>)

  datatype Argument = AddressArgument(address: Address) | OtherArgument

  datatype Decoded = Decoded(name: string, arguments: map<string, Argument>) | Undecoded

  /** Every block there is, on whatever branch, by its hash. `number` and `parent` are its place;
      `receipts` are its transactions that succeeded, in order; `hasCode` says whether an address
      holds code after it; `decode` reads a log by the kind of its emitter; `approvalRegistry` is what
      a price coordinator names as its registry; `identity` is how a contract announced by a
      transaction is described; and `payload` is what a row of a table that is never rewritten says. */
  datatype World = World(
    number: Hash -> nat,
    parent: Hash -> Hash,
    receipts: Hash -> seq<Receipt>,
    hasCode: (Address, Hash) -> bool,
    decode: (string, Log) -> Decoded,
    approvalRegistry: (Address, Hash) -> Address,
    identity: (Hash, Hash, Address) -> Identity,
    payload: EvidenceKey -> Json)

  /** The headers are a branch of this world, each the parent of the next. */
  ghost predicate IsBranch(w: World, headers: Remote) {
    forall n :: 0 <= n < |headers| ==>
      && w.number(headers[n].hash) == n && w.parent(headers[n].hash) == headers[n].parentHash
      && (n > 0 ==> headers[n].parentHash == headers[n - 1].hash)
  }

  /** Address `a` emits the log with index `i` in block `h`. */
  ghost predicate Emits(w: World, a: Address, h: Hash, i: nat) {
    exists r, l :: EmitsAt(w, a, h, i, r, l)
  }

  predicate EmitsAt(w: World, a: Address, h: Hash, i: nat, r: int, l: int) {
    && 0 <= r < |w.receipts(h)| && 0 <= l < |w.receipts(h)[r].logs|
    && w.receipts(h)[r].logs[l].emitter == a && w.receipts(h)[r].logs[l].index == i
  }

  /** Address `a` emits something in transaction `t` of block `h`. */
  ghost predicate EmitsWithin(w: World, a: Address, h: Hash, t: Hash) {
    exists r, l :: EmitsWithinAt(w, a, h, t, r, l)
  }

  predicate EmitsWithinAt(w: World, a: Address, h: Hash, t: Hash, r: int, l: int) {
    && 0 <= r < |w.receipts(h)| && w.receipts(h)[r].txHash == t
    && 0 <= l < |w.receipts(h)[r].logs| && w.receipts(h)[r].logs[l].emitter == a
  }

  /** Every log that `a` emits in the block is among the evidence stored with it. */
  ghost predicate LogsStored(w: World, a: Address, b: IndexedBlock) {
    forall i :: Emits(w, a, b.hash, i) ==> EvidenceKey(Logs, b.hash, i) in b.evidence
  }

  /** And so is every transaction in which it emits something. */
  ghost predicate TransactionsStored(w: World, a: Address, b: IndexedBlock) {
    forall t :: EmitsWithin(w, a, b.hash, t) ==> EvidenceKey(Transactions, b.hash, t) in b.evidence
  }

  ghost predicate EvidenceStored(w: World, a: Address, b: IndexedBlock) {
    LogsStored(w, a, b) && TransactionsStored(w, a, b)
  }

  /** The row is one for a log of a known contract, or for a transaction in which one emits something. */
  ghost predicate Witnessed(w: World, known: set<Address>, k: EvidenceKey) {
    match k.table
    case Logs => exists a :: a in known && Emits(w, a, k.blockHash, k.position)
    case Transactions => exists a :: a in known && EmitsWithin(w, a, k.blockHash, k.position)
    case Projection(_, _) => true
  }

  ghost predicate AllWitnessed(w: World, known: set<Address>, keys: set<EvidenceKey>) {
    forall k {:trigger Witnessed(w, known, k)} :: k in keys ==> Witnessed(w, known, k)
  }

  lemma MoreKnown(w: World, known: set<Address>, more: set<Address>, keys: set<EvidenceKey>)
    requires AllWitnessed(w, known, keys) && known <= more
    ensures AllWitnessed(w, more, keys)
  {
    forall k | k in keys
      ensures Witnessed(w, more, k)
    {
      assert Witnessed(w, known, k);
    }
  }
}
