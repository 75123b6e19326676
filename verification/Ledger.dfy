/** The block tables of one network: blocks, the evidence rows that hang off them, the log scan
    cursors, and the checkpoint. Every function here is one database transaction's effect on
    those tables; a `Failure` is a transaction that throws and rolls back. */
module Ledger {
  import opened Records

  datatype BlockRow = BlockRow(number: nat, parentHash: Hash, canonical: bool, finalized: bool)

  datatype EvidenceRow = EvidenceRow(number: nat, data: Json, canonical: bool, finalized: bool)

  datatype CursorRow = CursorRow(startBlock: int, lastRetrievedBlock: int)

  datatype Ledger = Ledger(
    startBlock: nat,
    indexedBlock: Option<nat>,
    indexedHash: Option<Hash>,
    blocks: map<Hash, BlockRow>,
    evidence: map<EvidenceKey, EvidenceRow>,
    cursors: map<Address, CursorRow>)

  datatype LedgerError =
    | HashWithoutNumber
    | NumberWithoutHash
    | WrongStart
    | WrongNumber
    | WrongParent
    | DuplicateCanonicalNumber
    | CursorNotAtBlock
    | CursorBoundary
    | NoCheckpoint
    | TargetNotBelowCheckpoint
    | FullRewindWithHash
    | TargetNotCanonical

  function Empty(startBlock: nat): Ledger {
    Ledger(startBlock, None, None, map[], map[], map[])
  }

  // ---------------------------------------------------------------- storing a block

  /** The check that a block extends the checkpoint. */
  function AppendError(l: Ledger, b: IndexedBlock): Option<LedgerError> {
    if l.indexedBlock.None? then
      if l.indexedHash.Some? then Some(HashWithoutNumber)
      else if b.number != l.startBlock then Some(WrongStart)
      else None
    else if l.indexedHash.None? then Some(NumberWithoutHash)
    else if b.number != l.indexedBlock.value + 1 then Some(WrongNumber)
    else if b.parentHash != l.indexedHash.value then Some(WrongParent)
    else None
  }

  function CursorError(blockNumber: nat, c: LogScanCursor): Option<LedgerError> {
    if c.lastRetrievedBlock != blockNumber then Some(CursorNotAtBlock)
    else if c.startBlock < 0 || c.lastRetrievedBlock < c.startBlock then Some(CursorBoundary)
    else None
  }

  function FirstCursorError(blockNumber: nat, cs: seq<LogScanCursor>): (r: Option<LedgerError>)
    ensures r.None? <==> forall i :: 0 <= i < |cs| ==> CursorError(blockNumber, cs[i]).None?
    ensures r.Some? ==> r.value == CursorNotAtBlock || r.value == CursorBoundary
  {
    if cs == [] then None
    else if CursorError(blockNumber, cs[0]).Some? then CursorError(blockNumber, cs[0])
    else FirstCursorError(blockNumber, cs[1..])
  }

  /** INSERT ... ON CONFLICT (hash): the header columns of a stored row are left alone. */
  function UpsertBlock(blocks: map<Hash, BlockRow>, b: IndexedBlock): map<Hash, BlockRow> {
    var row := BlockRow(b.number, b.parentHash, true, b.number <= b.finalizedThrough);
    blocks[b.hash := if b.hash in blocks
                     then row.(number := blocks[b.hash].number, parentHash := blocks[b.hash].parentHash)
                     else row]
  }

  /** The unique index over the numbers of canonical blocks. */
  predicate CanonicalNumberClash(blocks: map<Hash, BlockRow>, hash: Hash)
    requires hash in blocks
  {
    exists h :: h in blocks && h != hash && blocks[h].canonical && blocks[h].number == blocks[hash].number
  }

  function FinalizeBlocks(blocks: map<Hash, BlockRow>, through: nat): map<Hash, BlockRow> {
    map h | h in blocks ::
      if blocks[h].canonical && blocks[h].number <= through then blocks[h].(finalized := true) else blocks[h]
  }

  /** INSERT ... ON CONFLICT (block hash, position): some tables take over the new payload. */
  function UpsertEvidence(rows: map<EvidenceKey, EvidenceRow>, b: IndexedBlock): map<EvidenceKey, EvidenceRow> {
    map k | k in rows.Keys + b.evidence.Keys ::
      if k in b.evidence then
        EvidenceRow(if k in rows then rows[k].number else b.number,
                    if k in rows && KeepsPayload(k.table) then rows[k].data else b.evidence[k],
                    true, k.table == Logs && b.number <= b.finalizedThrough)
      else rows[k]
  }

  function FinalizeLogs(rows: map<EvidenceKey, EvidenceRow>, through: nat): map<EvidenceKey, EvidenceRow> {
    map k | k in rows ::
      if k.table == Logs && rows[k].canonical && rows[k].number <= through then rows[k].(finalized := true) else rows[k]
  }

  function UpsertCursor(cursors: map<Address, CursorRow>, c: LogScanCursor): map<Address, CursorRow> {
    if c.contractAddress !in cursors then
      cursors[c.contractAddress := CursorRow(c.startBlock, c.lastRetrievedBlock)]
    else
      var stored := cursors[c.contractAddress];
      if stored.lastRetrievedBlock <= c.lastRetrievedBlock then
        cursors[c.contractAddress := CursorRow(Min(stored.startBlock, c.startBlock), c.lastRetrievedBlock)]
      else cursors
  }

  function UpsertCursors(cursors: map<Address, CursorRow>, cs: seq<LogScanCursor>): map<Address, CursorRow> {
    if cs == [] then cursors else UpsertCursor(UpsertCursors(cursors, cs[..|cs| - 1]), cs[|cs| - 1])
  }

  function StoreBlock(l: Ledger, b: IndexedBlock): Result<Ledger, LedgerError> {
    var appendError := AppendError(l, b);
    if appendError.Some? then Failure(appendError.value)
    else
      var blocks := UpsertBlock(l.blocks, b);
      if CanonicalNumberClash(blocks, b.hash) then Failure(DuplicateCanonicalNumber)
      else
        var cursorError := FirstCursorError(b.number, b.logScanCursors);
        if cursorError.Some? then Failure(cursorError.value)
        else Success(l.(indexedBlock := Some(b.number),
                        indexedHash := Some(b.hash),
                        blocks := FinalizeBlocks(blocks, b.finalizedThrough),
                        evidence := FinalizeLogs(UpsertEvidence(l.evidence, b), b.finalizedThrough),
                        cursors := UpsertCursors(l.cursors, b.logScanCursors)))
  }

  // ---------------------------------------------------------------- rewinding

  predicate CanonicalTarget(l: Ledger, ancestor: int, ancestorHash: Option<Hash>) {
    && ancestor >= 0
    && ancestorHash.Some?
    && ancestorHash.value in l.blocks
    && l.blocks[ancestorHash.value].canonical
    && l.blocks[ancestorHash.value].number == ancestor
  }

  function RewindError(l: Ledger, ancestor: int, ancestorHash: Option<Hash>): Option<LedgerError> {
    if l.indexedBlock.None? || l.indexedHash.None? then Some(NoCheckpoint)
    else if ancestor < -1 || ancestor >= l.indexedBlock.value then Some(TargetNotBelowCheckpoint)
    else if ancestor == -1 then
      if ancestorHash.Some? then Some(FullRewindWithHash) else None
    else if !CanonicalTarget(l, ancestor, ancestorHash) then Some(TargetNotCanonical)
    else None
  }

  function OrphanBlocks(blocks: map<Hash, BlockRow>, ancestor: int): map<Hash, BlockRow> {
    map h | h in blocks ::
      if blocks[h].number > ancestor && blocks[h].canonical then blocks[h].(canonical := false, finalized := false)
      else blocks[h]
  }

  function OrphanEvidence(rows: map<EvidenceKey, EvidenceRow>, ancestor: int): map<EvidenceKey, EvidenceRow> {
    map k | k in rows ::
      if rows[k].number > ancestor && rows[k].canonical then rows[k].(canonical := false, finalized := false)
      else rows[k]
  }

  function RewindCursors(cursors: map<Address, CursorRow>, ancestor: int): map<Address, CursorRow> {
    map a | a in cursors && cursors[a].startBlock <= ancestor ::
      if cursors[a].lastRetrievedBlock > ancestor
      then cursors[a].(lastRetrievedBlock := Max(cursors[a].startBlock - 1, ancestor))
      else cursors[a]
  }

  function Rewind(l: Ledger, ancestor: int, ancestorHash: Option<Hash>): Result<Ledger, LedgerError> {
    var error := RewindError(l, ancestor, ancestorHash);
    if error.Some? then Failure(error.value)
    else Success(l.(indexedBlock := if ancestor < 0 then None else Some(ancestor),
                    indexedHash := ancestorHash,
                    blocks := OrphanBlocks(l.blocks, ancestor),
                    evidence := OrphanEvidence(l.evidence, ancestor),
                    cursors := RewindCursors(l.cursors, ancestor)))
  }

  // ---------------------------------------------------------------- discarding all canonical history

  function InvalidateBlocks(blocks: map<Hash, BlockRow>): map<Hash, BlockRow> {
    map h | h in blocks :: blocks[h].(canonical := false, finalized := false)
  }

  function InvalidateEvidence(rows: map<EvidenceKey, EvidenceRow>): map<EvidenceKey, EvidenceRow> {
    map k | k in rows :: rows[k].(canonical := false, finalized := false)
  }

  /** Canonical history discarded and indexing restarted at `startBlock`. */
  function Invalidate(l: Ledger, startBlock: nat): Ledger {
    Ledger(startBlock, None, None, InvalidateBlocks(l.blocks), InvalidateEvidence(l.evidence), map[])
  }

  // ---------------------------------------------------------------- the integrity audit

  predicate Recent(l: Ledger, h: Hash) {
    && h in l.blocks
    && l.blocks[h].canonical
    && l.blocks[h].number >= (if l.indexedBlock.None? then l.startBlock else Max(l.startBlock, l.indexedBlock.value - 10000))
  }

  predicate CheckpointIssue(l: Ledger) {
    && l.indexedBlock.Some?
    && !(exists h :: && h in l.blocks && l.indexedHash == Some(h)
                     && l.blocks[h].canonical && l.blocks[h].number == l.indexedBlock.value)
  }

  predicate CursorIssue(l: Ledger, a: Address) {
    a in l.cursors && (l.indexedBlock.None? || l.cursors[a].lastRetrievedBlock > l.indexedBlock.value)
  }

  /** `p` comes right before `h` when the recent canonical blocks are ordered by number. */
  ghost predicate Lag(l: Ledger, p: Hash, h: Hash) {
    && Recent(l, p) && Recent(l, h) && p != h
    && l.blocks[p].number <= l.blocks[h].number
    && forall q :: Recent(l, q) && q != p && q != h ==>
         l.blocks[q].number <= l.blocks[p].number || l.blocks[h].number <= l.blocks[q].number
  }

  ghost predicate ContinuityIssue(l: Ledger, p: Hash, h: Hash) {
    Lag(l, p, h) && (l.blocks[h].number != l.blocks[p].number + 1 || l.blocks[h].parentHash != p)
  }

  /** The audit reports no row. */
  ghost predicate AuditClean(l: Ledger) {
    && !CheckpointIssue(l)
    && (forall a :: a in l.cursors ==> !CursorIssue(l, a))
    && (forall p, h :: Lag(l, p, h) ==> !ContinuityIssue(l, p, h))
  }
}
