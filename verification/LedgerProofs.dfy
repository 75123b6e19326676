/** What every transaction on the block tables keeps. The current canonical chain is a map from
    block number to the block last stored at that number. */
module LedgerProofs {
  import opened Records
  import opened Ledger

  type Chain = map<int, IndexedBlock>

  /** The hash of a block fixes its header and the payloads that are never rewritten, and evidence is
      filed under its own block. */
  predicate Offered(l: Ledger, b: IndexedBlock) {
    && (b.hash in l.blocks ==> l.blocks[b.hash].number == b.number && l.blocks[b.hash].parentHash == b.parentHash)
    && Filed(b)
    && SamePayloads(l.evidence, b)
  }

  predicate SamePayloads(rows: map<EvidenceKey, EvidenceRow>, b: IndexedBlock) {
    forall k :: k in b.evidence && k in rows && KeepsPayload(k.table) ==> rows[k].data == b.evidence[k]
  }

  predicate Filed(b: IndexedBlock) {
    forall k :: k in b.evidence ==> k.blockHash == b.hash
  }

  /** `chain` covers exactly the numbers from the start to the checkpoint. */
  ghost predicate Covers(l: Ledger, chain: Chain) {
    && (l.indexedBlock.Some? ==> l.startBlock <= l.indexedBlock.value)
    && (forall n :: n in chain <==> l.indexedBlock.Some? && l.startBlock <= n <= l.indexedBlock.value)
    && l.indexedHash == (if l.indexedBlock.None? || l.indexedBlock.value !in chain then None
                         else Some(chain[l.indexedBlock.value].hash))
  }

  ghost predicate Linked(chain: Chain) {
    && (forall n {:trigger Acceptable(n, chain[n])} :: n in chain ==> Acceptable(n, chain[n]))
    && (forall m, n :: m in chain && n in chain && n == m + 1 ==> chain[n].parentHash == chain[m].hash)
  }

  predicate Acceptable(n: int, b: IndexedBlock) {
    b.number == n && Filed(b) && FirstCursorError(b.number, b.logScanCursors).None?
  }

  ghost predicate BlocksMatch(blocks: map<Hash, BlockRow>, chain: Chain) {
    && (forall n {:trigger HasBlock(blocks, n, chain[n])} :: n in chain ==> HasBlock(blocks, n, chain[n]))
    && (forall h :: h in blocks && blocks[h].canonical ==> blocks[h].number in chain && chain[blocks[h].number].hash == h)
    && (forall h :: h in blocks && blocks[h].finalized ==> blocks[h].canonical)
  }

  predicate HasBlock(blocks: map<Hash, BlockRow>, n: int, b: IndexedBlock) {
    && b.hash in blocks && blocks[b.hash].canonical
    && blocks[b.hash].number == n && blocks[b.hash].parentHash == b.parentHash
  }

  ghost predicate EvidenceMatches(blocks: map<Hash, BlockRow>, rows: map<EvidenceKey, EvidenceRow>, chain: Chain) {
    && (forall k {:trigger RowFiled(blocks, k, rows[k])} :: k in rows ==> RowFiled(blocks, k, rows[k]))
    && (forall k {:trigger RowJustified(chain, k, rows[k])} :: k in rows ==> RowJustified(chain, k, rows[k]))
    && (forall n, k {:trigger HasRow(rows, k, chain[n].evidence[k])} :: n in chain && k in chain[n].evidence ==> HasRow(rows, k, chain[n].evidence[k]))
  }

  predicate RowFiled(blocks: map<Hash, BlockRow>, k: EvidenceKey, row: EvidenceRow) {
    && k.blockHash in blocks && row.number == blocks[k.blockHash].number
    && (row.finalized ==> row.canonical)
  }

  predicate RowJustified(chain: Chain, k: EvidenceKey, row: EvidenceRow) {
    row.canonical ==> row.number in chain && k in chain[row.number].evidence
  }

  predicate HasRow(rows: map<EvidenceKey, EvidenceRow>, k: EvidenceKey, data: Json) {
    k in rows && rows[k].canonical && rows[k].data == data
  }

  ghost predicate Bounded(cursors: map<Address, CursorRow>, through: int) {
    forall a :: a in cursors ==>
      0 <= cursors[a].startBlock && cursors[a].startBlock - 1 <= cursors[a].lastRetrievedBlock <= through
  }

  ghost predicate CursorsBounded(l: Ledger) {
    if l.indexedBlock.None? then l.cursors == map[] else Bounded(l.cursors, l.indexedBlock.value)
  }

  /** The tables hold exactly `chain` as canonical history. */
  ghost predicate Holds(l: Ledger, chain: Chain) {
    && Covers(l, chain)
    && Linked(chain)
    && BlocksMatch(l.blocks, chain)
    && EvidenceMatches(l.blocks, l.evidence, chain)
    && CursorsBounded(l)
  }

  // ---------------------------------------------------------------- every transaction keeps it

  lemma EmptyHolds(startBlock: nat)
    ensures Holds(Empty(startBlock), map[])
  {
  }

  lemma {:induction false} CursorsAfterStore(cursors: map<Address, CursorRow>, n: nat, cs: seq<LogScanCursor>)
    requires Bounded(cursors, n) && FirstCursorError(n, cs).None?
    ensures Bounded(UpsertCursors(cursors, cs), n)
  {
    if cs != [] {
      var front, last := cs[..|cs| - 1], cs[|cs| - 1];
      assert forall i :: 0 <= i < |front| ==> front[i] == cs[i];
      CursorsAfterStore(cursors, n, front);
      assert CursorError(n, last).None?;
    }
  }

  function Next(l: Ledger): nat {
    if l.indexedBlock.None? then l.startBlock else l.indexedBlock.value + 1
  }

  /** A block is accepted exactly when it extends the checkpoint and its cursors end at it: the
      unique index over canonical numbers never fires. */
  lemma StoreAcceptsExactly(l: Ledger, chain: Chain, b: IndexedBlock)
    requires Holds(l, chain) && Offered(l, b)
    ensures StoreBlock(l, b).Success? <==>
      && b.number == Next(l)
      && (l.indexedBlock.Some? ==> b.parentHash == chain[l.indexedBlock.value].hash)
      && (forall i :: 0 <= i < |b.logScanCursors| ==> 0 <= b.logScanCursors[i].startBlock <= b.logScanCursors[i].lastRetrievedBlock == b.number)
    ensures StoreBlock(l, b) != Failure(DuplicateCanonicalNumber)
  {
    assert FirstCursorError(b.number, b.logScanCursors).None? <==>
        forall i :: 0 <= i < |b.logScanCursors| ==> CursorError(b.number, b.logScanCursors[i]).None?;
    if b.number == Next(l) {
      forall h | h in l.blocks && l.blocks[h].canonical
        ensures l.blocks[h].number != b.number
      {
        assert b.number !in chain;
      }
    }
  }

  /** That index: whatever is on file, a second canonical block of the number is refused. */
  lemma SecondBlockRefused(l: Ledger, b: IndexedBlock, other: Hash)
    requires AppendError(l, b).None? && other != b.hash && other in l.blocks && l.blocks[other].canonical
    requires l.blocks[other].number == if b.hash in l.blocks then l.blocks[b.hash].number else b.number
    ensures StoreBlock(l, b) == Failure(DuplicateCanonicalNumber)
  {
    assert other in UpsertBlock(l.blocks, b) && b.hash in UpsertBlock(l.blocks, b);
  }

  /** Why a block is refused otherwise. */
  lemma StoreRefusedFor(l: Ledger, chain: Chain, b: IndexedBlock)
    requires Holds(l, chain) && Offered(l, b)
    ensures var stored := StoreBlock(l, b);
            && (stored == Failure(WrongStart) <==> l.indexedBlock.None? && b.number != l.startBlock)
            && (stored == Failure(WrongNumber) <==> l.indexedBlock.Some? && b.number != l.indexedBlock.value + 1)
            && (stored == Failure(WrongParent) <==>
                  && l.indexedBlock.Some? && b.number == l.indexedBlock.value + 1
                  && b.parentHash != chain[l.indexedBlock.value].hash)
            && (stored.Failure? && stored.error !in {WrongStart, WrongNumber, WrongParent} ==>
                  stored.error == CursorNotAtBlock || stored.error == CursorBoundary)
  {
    StoreAcceptsExactly(l, chain, b);
  }

  lemma StoreKeepsBlocks(l: Ledger, chain: Chain, b: IndexedBlock)
    requires Holds(l, chain) && Offered(l, b) && b.number == Next(l)
    ensures BlocksMatch(FinalizeBlocks(UpsertBlock(l.blocks, b), b.finalizedThrough), chain[b.number := b])
  {
    var after, longer := FinalizeBlocks(UpsertBlock(l.blocks, b), b.finalizedThrough), chain[b.number := b];
    assert b.number !in chain;
    forall n | n in longer
      ensures HasBlock(after, n, longer[n])
    {
      if n != b.number {
        assert HasBlock(l.blocks, n, chain[n]);
      }
    }
  }

  lemma StoreKeepsEvidence(l: Ledger, chain: Chain, b: IndexedBlock, blocks: map<Hash, BlockRow>)
    requires Holds(l, chain) && Offered(l, b) && b.number == Next(l)
    requires blocks == FinalizeBlocks(UpsertBlock(l.blocks, b), b.finalizedThrough)
    ensures EvidenceMatches(blocks, FinalizeLogs(UpsertEvidence(l.evidence, b), b.finalizedThrough), chain[b.number := b])
  {
    var after, longer := FinalizeLogs(UpsertEvidence(l.evidence, b), b.finalizedThrough), chain[b.number := b];
    assert b.number !in chain;
    forall n, k | n in longer && k in longer[n].evidence
      ensures HasRow(after, k, longer[n].evidence[k])
    {
      if n != b.number {
        EarlierRowStays(l, chain, b, n, k);
      }
    }
    forall k | k in after
      ensures RowFiled(blocks, k, after[k]) && RowJustified(longer, k, after[k])
    {
      if k in l.evidence {
        assert RowFiled(l.blocks, k, l.evidence[k]) && RowJustified(chain, k, l.evidence[k]);
      }
    }
  }

  lemma EarlierRowStays(l: Ledger, chain: Chain, b: IndexedBlock, n: int, k: EvidenceKey)
    requires Holds(l, chain) && Offered(l, b) && b.number == Next(l)
    requires n in chain && k in chain[n].evidence
    ensures HasRow(FinalizeLogs(UpsertEvidence(l.evidence, b), b.finalizedThrough), k, chain[n].evidence[k])
  {
    assert HasBlock(l.blocks, n, chain[n]) && Acceptable(n, chain[n]);
    assert HasRow(l.evidence, k, chain[n].evidence[k]);
    assert k !in b.evidence;
  }

  lemma StoreKeeps(l: Ledger, chain: Chain, b: IndexedBlock)
    requires Holds(l, chain) && Offered(l, b) && StoreBlock(l, b).Success?
    ensures Holds(StoreBlock(l, b).value, chain[b.number := b])
  {
    StoreAcceptsExactly(l, chain, b);
    StoreKeepsBlocks(l, chain, b);
    StoreKeepsEvidence(l, chain, b, StoreBlock(l, b).value.blocks);
    CursorsAfterStore(l.cursors, b.number, b.logScanCursors);
  }

  /** The part of the canonical history a rewind to `ancestor` keeps. */
  function Kept(chain: Chain, ancestor: int): Chain {
    map n | n in chain && n <= ancestor :: chain[n]
  }

  /** The legal rewind targets are exactly "before everything" and the canonical blocks below the
      checkpoint. */
  lemma RewindAcceptsExactly(l: Ledger, chain: Chain, ancestor: int, ancestorHash: Option<Hash>)
    requires Holds(l, chain)
    ensures Rewind(l, ancestor, ancestorHash).Success? <==>
      && l.indexedBlock.Some?
      && (|| (ancestor == -1 && ancestorHash.None?)
          || (ancestor in chain && ancestor < l.indexedBlock.value && ancestorHash == Some(chain[ancestor].hash)))
  {
    if ancestor in chain {
      assert HasBlock(l.blocks, ancestor, chain[ancestor]);
    }
  }

  /** Why a rewind is refused otherwise. */
  lemma RewindRefusedFor(l: Ledger, chain: Chain, ancestor: int, ancestorHash: Option<Hash>)
    requires Holds(l, chain)
    ensures var rewound := Rewind(l, ancestor, ancestorHash);
            && (rewound == Failure(NoCheckpoint) <==> l.indexedBlock.None?)
            && (rewound == Failure(TargetNotBelowCheckpoint) <==> l.indexedBlock.Some? && !(-1 <= ancestor < l.indexedBlock.value))
            && (rewound == Failure(FullRewindWithHash) <==> l.indexedBlock.Some? && ancestor == -1 && ancestorHash.Some?)
            && (rewound == Failure(TargetNotCanonical) <==>
                  && l.indexedBlock.Some? && 0 <= ancestor < l.indexedBlock.value
                  && !(ancestor in chain && ancestorHash == Some(chain[ancestor].hash)))
  {
    RewindAcceptsExactly(l, chain, ancestor, ancestorHash);
  }

  lemma RewindKeepsBlocks(blocks: map<Hash, BlockRow>, chain: Chain, ancestor: int)
    requires BlocksMatch(blocks, chain)
    ensures BlocksMatch(OrphanBlocks(blocks, ancestor), Kept(chain, ancestor))
  {
    forall n | n in Kept(chain, ancestor)
      ensures HasBlock(OrphanBlocks(blocks, ancestor), n, chain[n])
    {
      assert HasBlock(blocks, n, chain[n]);
    }
  }

  lemma RewindKeepsEvidence(l: Ledger, chain: Chain, ancestor: int)
    requires Holds(l, chain)
    ensures EvidenceMatches(OrphanBlocks(l.blocks, ancestor), OrphanEvidence(l.evidence, ancestor), Kept(chain, ancestor))
  {
    var after, kept := OrphanEvidence(l.evidence, ancestor), Kept(chain, ancestor);
    forall n, k | n in kept && k in kept[n].evidence
      ensures HasRow(after, k, kept[n].evidence[k])
    {
      assert HasBlock(l.blocks, n, chain[n]) && Acceptable(n, chain[n]);
      assert HasRow(l.evidence, k, chain[n].evidence[k]) && RowFiled(l.blocks, k, l.evidence[k]);
    }
    forall k | k in after
      ensures RowFiled(OrphanBlocks(l.blocks, ancestor), k, after[k]) && RowJustified(kept, k, after[k])
    {
      assert RowFiled(l.blocks, k, l.evidence[k]) && RowJustified(chain, k, l.evidence[k]);
    }
  }

  lemma RewindKeeps(l: Ledger, chain: Chain, ancestor: int, ancestorHash: Option<Hash>)
    requires Holds(l, chain) && Rewind(l, ancestor, ancestorHash).Success?
    ensures Holds(Rewind(l, ancestor, ancestorHash).value, Kept(chain, ancestor))
  {
    RewindAcceptsExactly(l, chain, ancestor, ancestorHash);
    RewindKeepsBlocks(l.blocks, chain, ancestor);
    RewindKeepsEvidence(l, chain, ancestor);
  }

  lemma InvalidateKeeps(l: Ledger, chain: Chain, startBlock: nat)
    requires Holds(l, chain)
    ensures Holds(Invalidate(l, startBlock), map[])
  {
    var after := Invalidate(l, startBlock);
    forall k | k in after.evidence
      ensures RowFiled(after.blocks, k, after.evidence[k])
    {
      assert RowFiled(l.blocks, k, l.evidence[k]);
    }
  }

  // ---------------------------------------------------------------- what holding a chain means

  predicate Canonical(l: Ledger, h: Hash) {
    h in l.blocks && l.blocks[h].canonical
  }

  /** One canonical block per number from the start to the checkpoint and none elsewhere, each the
      child of the one before, with the checkpoint on top. */
  lemma OneBlockPerNumber(l: Ledger, chain: Chain, n: int)
    requires Holds(l, chain)
    ensures (exists h :: Canonical(l, h) && l.blocks[h].number == n) <==>
            l.indexedBlock.Some? && l.startBlock <= n <= l.indexedBlock.value
    ensures forall g, h :: Canonical(l, g) && Canonical(l, h) && l.blocks[g].number == l.blocks[h].number ==> g == h
    ensures forall g, h :: Canonical(l, g) && Canonical(l, h) && l.blocks[h].number == l.blocks[g].number + 1 ==>
              l.blocks[h].parentHash == g
    ensures l.indexedBlock.Some? ==>
      && l.indexedHash.Some? && Canonical(l, l.indexedHash.value)
      && l.blocks[l.indexedHash.value].number == l.indexedBlock.value
  {
    if l.indexedBlock.Some? {
      assert HasBlock(l.blocks, l.indexedBlock.value, chain[l.indexedBlock.value]);
      if n in chain {
        assert HasBlock(l.blocks, n, chain[n]) && Canonical(l, chain[n].hash);
      }
    }
    forall g, h | Canonical(l, g) && Canonical(l, h) && l.blocks[h].number == l.blocks[g].number + 1
      ensures l.blocks[h].parentHash == g
    {
      assert HasBlock(l.blocks, l.blocks[h].number, chain[l.blocks[h].number]);
    }
  }

  /** The authors' integrity audit finds nothing to report. */
  lemma HoldsPassesAudit(l: Ledger, chain: Chain)
    requires Holds(l, chain)
    ensures AuditClean(l)
  {
    OneBlockPerNumber(l, chain, l.startBlock);
    forall p, h | Lag(l, p, h)
      ensures !ContinuityIssue(l, p, h)
    {
      var m := l.blocks[p].number + 1;
      assert m in chain && HasBlock(l.blocks, m, chain[m]);
      var q := chain[m].hash;
      assert Recent(l, q);
    }
  }

  // ---------------------------------------------------------------- what the audit sees

  /** A canonical block from the start on, and not more than 10000 below the checkpoint. */
  predicate InView(l: Ledger, h: Hash) {
    && h in l.blocks && l.blocks[h].canonical && l.startBlock <= l.blocks[h].number
    && (l.indexedBlock.Some? ==> l.indexedBlock.value <= l.blocks[h].number + 10000)
  }

  /** What the unique index over canonical numbers sees to. */
  ghost predicate NumbersUnique(l: Ledger) {
    forall p, h :: InView(l, p) && InView(l, h) && l.blocks[p].number == l.blocks[h].number ==> p == h
  }

  /** The lowest block in view apart, the parent is in view, one below. */
  ghost predicate Continues(l: Ledger, h: Hash) {
    InView(l, h) && (exists q :: InView(l, q) && l.blocks[q].number < l.blocks[h].number) ==>
      InView(l, l.blocks[h].parentHash) && l.blocks[l.blocks[h].parentHash].number + 1 == l.blocks[h].number
  }

  lemma {:induction false} HighestBelow(l: Ledger, rest: set<Hash>, n: nat) returns (p: Hash)
    requires rest != {} && rest <= l.blocks.Keys && forall q :: q in rest ==> InView(l, q) && l.blocks[q].number < n
    ensures p in rest && forall q :: q in rest ==> l.blocks[q].number <= l.blocks[p].number
    decreases |rest|
  {
    var q: Hash :| q in rest;
    if rest == {q} {
      p := q;
    } else {
      var other := HighestBelow(l, rest - {q}, n);
      p := if l.blocks[q].number <= l.blocks[other].number then other else q;
    }
  }

  lemma PrecededBy(l: Ledger, h: Hash) returns (p: Hash)
    requires InView(l, h) && exists q :: InView(l, q) && l.blocks[q].number < l.blocks[h].number
    ensures InView(l, p) && l.blocks[p].number < l.blocks[h].number
    ensures forall q :: InView(l, q) && l.blocks[q].number < l.blocks[h].number ==> l.blocks[q].number <= l.blocks[p].number
  {
    var lower :| InView(l, lower) && l.blocks[lower].number < l.blocks[h].number;
    var below := set q | q in l.blocks && InView(l, q) && l.blocks[q].number < l.blocks[h].number;
    assert lower in below;
    p := HighestBelow(l, below, l.blocks[h].number);
  }

  /** In view there is at most one block that another one comes right after: the highest below it. */
  lemma LagIs(l: Ledger, p: Hash, q: Hash, h: Hash)
    requires NumbersUnique(l) && forall x :: Recent(l, x) <==> InView(l, x)
    requires InView(l, p) && InView(l, h) && l.blocks[p].number < l.blocks[h].number
    requires forall x :: InView(l, x) && l.blocks[x].number < l.blocks[h].number ==> l.blocks[x].number <= l.blocks[p].number
    ensures Lag(l, p, h) && (Lag(l, q, h) ==> q == p)
  {
  }

  lemma ContinuityExactly(l: Ledger, h: Hash)
    requires NumbersUnique(l) && forall q :: Recent(l, q) <==> InView(l, q)
    ensures (forall p :: !ContinuityIssue(l, p, h)) <==> Continues(l, h)
  {
    if InView(l, h) && exists q :: InView(l, q) && l.blocks[q].number < l.blocks[h].number {
      var p := PrecededBy(l, h);
      LagIs(l, p, p, h);
      forall q
        ensures Lag(l, q, h) ==> q == p
      {
        LagIs(l, p, q, h);
      }
      if Continues(l, h) {
        var parent := l.blocks[h].parentHash;
        assert l.blocks[parent].number <= l.blocks[p].number && l.blocks[p].number < l.blocks[h].number;
        assert parent == p;
      } else {
        assert ContinuityIssue(l, p, h);
      }
    } else {
      assert forall q :: !Lag(l, q, h);
    }
  }

  /** The audit is clean exactly if the checkpoint is a canonical block on file, no cursor is ahead of it, and
      the blocks in view are one chain. */
  lemma AuditCleanExactly(l: Ledger)
    requires NumbersUnique(l)
    ensures AuditClean(l) <==>
      && (l.indexedBlock.Some? ==>
            && l.indexedHash.Some? && l.indexedHash.value in l.blocks
            && l.blocks[l.indexedHash.value].canonical && l.blocks[l.indexedHash.value].number == l.indexedBlock.value)
      && (forall a :: a in l.cursors ==> l.indexedBlock.Some? && l.cursors[a].lastRetrievedBlock <= l.indexedBlock.value)
      && forall h :: Continues(l, h)
  {
    forall h
      ensures Recent(l, h) <==> InView(l, h)
    {
    }
    forall h
      ensures (forall p :: !ContinuityIssue(l, p, h)) <==> Continues(l, h)
    {
      ContinuityExactly(l, h);
    }
    if forall p, h :: Lag(l, p, h) ==> !ContinuityIssue(l, p, h) {
      assert forall p, h :: !ContinuityIssue(l, p, h);
    } else {
      var p, h :| Lag(l, p, h) && ContinuityIssue(l, p, h);
      assert !Continues(l, h);
    }
    assert (forall a :: a in l.cursors ==> !CursorIssue(l, a)) <==>
           forall a :: a in l.cursors ==> l.indexedBlock.Some? && l.cursors[a].lastRetrievedBlock <= l.indexedBlock.value;
  }
}
