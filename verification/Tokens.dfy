/** Token metadata: one row per token and block it was read at, of which a unique index lets at most
    one per token be canonical. */
module Tokens {
  import opened Records
  import opened Ledger
  import opened LedgerProofs

  datatype TokenKey = TokenKey(address: Address, blockHash: Hash)

  datatype TokenRow = TokenRow(readBlock: nat, data: Json, canonical: bool)

  type TokenTable = map<TokenKey, TokenRow>

  datatype TokenError = ReadOffBlock | DuplicateCanonicalToken

  function Upsert(rows: TokenTable, hash: Hash, m: TokenMetadata): TokenTable {
    var demoted := map k | k in rows ::
      if k.address == m.address && rows[k].canonical && k.blockHash != hash then rows[k].(canonical := false) else rows[k];
    demoted[TokenKey(m.address, hash) := TokenRow(m.readBlock, m.data, true)]
  }

  /** The readings of block `hash`, number `n`. The foreign key on (block hash, read block) ties
      each reading to the block it is stored with. */
  function Store(rows: TokenTable, n: nat, hash: Hash, ms: seq<TokenMetadata>): (result: Result<TokenTable, TokenError>)
    ensures result.Success? <==> forall i :: 0 <= i < |ms| ==> ms[i].readBlock == n
  {
    if ms == [] then Success(rows)
    else
      match Store(rows, n, hash, ms[..|ms| - 1])
      case Failure(e) => Failure(e)
      case Success(before) =>
        if ms[|ms| - 1].readBlock != n then Failure(ReadOffBlock) else Success(Upsert(before, hash, ms[|ms| - 1]))
  }

  function Orphan(rows: TokenTable, ancestor: int): TokenTable {
    map k | k in rows ::
      if rows[k].readBlock > ancestor && rows[k].canonical then rows[k].(canonical := false) else rows[k]
  }

  predicate OnCanonicalBlock(rows: TokenTable, blocks: map<Hash, BlockRow>, k: TokenKey) {
    k in rows && k.blockHash in blocks && blocks[k.blockHash].canonical
  }

  /** The latest reading of its token on a canonical block. */
  predicate Newest(rows: TokenTable, blocks: map<Hash, BlockRow>, k: TokenKey) {
    && OnCanonicalBlock(rows, blocks, k)
    && forall j :: j in rows && OnCanonicalBlock(rows, blocks, j) && j.address == k.address ==> rows[j].readBlock <= rows[k].readBlock
  }

  function Restore(rows: TokenTable, blocks: map<Hash, BlockRow>): TokenTable {
    map k | k in rows :: rows[k].(canonical := rows[k].canonical || Newest(rows, blocks, k))
  }

  predicate CanonicalRow(rows: TokenTable, k: TokenKey) {
    k in rows && rows[k].canonical
  }

  /** The unique index over the canonical rows of a token would be violated. */
  predicate Clash(rows: TokenTable) {
    exists j, k :: j in rows && k in rows && CanonicalRow(rows, j) && CanonicalRow(rows, k) && j.address == k.address && j != k
  }

  /** `blocks` is the block table after the rewind has orphaned everything above `ancestor`. */
  function Rewind(rows: TokenTable, blocks: map<Hash, BlockRow>, ancestor: int): Result<TokenTable, TokenError> {
    var restored := Restore(Orphan(rows, ancestor), blocks);
    if Clash(restored) then Failure(DuplicateCanonicalToken) else Success(restored)
  }

  function Invalidate(rows: TokenTable): TokenTable {
    map k | k in rows :: rows[k].(canonical := false)
  }

  // ---------------------------------------------------------------- the invariant

  predicate OnChain(chain: Chain, rows: TokenTable, k: TokenKey) {
    k in rows && rows[k].readBlock in chain && chain[rows[k].readBlock].hash == k.blockHash
  }

  ghost predicate Attached(rows: TokenTable, blocks: map<Hash, BlockRow>) {
    forall k :: k in rows ==> k.blockHash in blocks && blocks[k.blockHash].number == rows[k].readBlock
  }

  /** At most one canonical row a token, and it was read on the canonical chain. */
  ghost predicate Single(rows: TokenTable, chain: Chain) {
    && !Clash(rows)
    && forall k :: CanonicalRow(rows, k) ==> OnChain(chain, rows, k)
  }

  ghost predicate Superseded(rows: TokenTable, k: TokenKey)
    requires k in rows
  {
    exists c :: CanonicalRow(rows, c) && c.address == k.address && rows[c].readBlock >= rows[k].readBlock
  }

  /** The canonical row of a token is its newest reading on the canonical chain. */
  ghost predicate Current(rows: TokenTable, chain: Chain) {
    forall k :: OnChain(chain, rows, k) ==> k in rows && Superseded(rows, k)
  }

  lemma OnChainIsOnCanonicalBlock(rows: TokenTable, blocks: map<Hash, BlockRow>, chain: Chain, k: TokenKey)
    requires BlocksMatch(blocks, chain) && Attached(rows, blocks)
    ensures OnCanonicalBlock(rows, blocks, k) <==> OnChain(chain, rows, k)
  {
    if OnChain(chain, rows, k) {
      assert HasBlock(blocks, rows[k].readBlock, chain[rows[k].readBlock]);
    }
  }

  // ---------------------------------------------------------------- storing a block

  predicate ReadsToken(ms: seq<TokenMetadata>, a: Address) {
    exists i :: 0 <= i < |ms| && ms[i].address == a
  }

  /** The last reading of the token in the list, which is the one that counts. */
  predicate LastReading(ms: seq<TokenMetadata>, a: Address, i: int) {
    0 <= i < |ms| && ms[i].address == a && forall j :: i < j < |ms| ==> ms[j].address != a
  }

  /** The list has `data` as its last reading of the token. */
  ghost predicate ReadsAs(ms: seq<TokenMetadata>, a: Address, data: Json) {
    exists i :: LastReading(ms, a, i) && ms[i].data == data
  }

  /** Every token once read at this block is read again when the block is stored again. */
  predicate Rereads(rows: TokenTable, b: IndexedBlock) {
    forall k :: k in rows && k.blockHash == b.hash ==> ReadsToken(b.tokenMetadata, k.address)
  }

  lemma LastOfMore(front: seq<TokenMetadata>, last: TokenMetadata, a: Address)
    ensures last.address == a ==> ReadsAs(front + [last], a, last.data)
    ensures last.address != a ==> forall data :: ReadsAs(front, a, data) ==> ReadsAs(front + [last], a, data)
  {
    var ms := front + [last];
    assert ms[|front|] == last && forall i :: 0 <= i < |front| ==> ms[i] == front[i];
    assert last.address == a ==> LastReading(ms, a, |front|);
    assert last.address != a ==> forall i :: LastReading(front, a, i) ==> LastReading(ms, a, i);
  }

  /** What storing readings does to one row. */
  lemma {:induction false} StoredRow(rows: TokenTable, n: nat, hash: Hash, ms: seq<TokenMetadata>, k: TokenKey)
    requires Store(rows, n, hash, ms).Success?
    ensures var after := Store(rows, n, hash, ms).value;
            && (k.blockHash == hash && ReadsToken(ms, k.address) ==>
                  k in after && after[k].canonical && after[k].readBlock == n && ReadsAs(ms, k.address, after[k].data))
            && (k.blockHash == hash && !ReadsToken(ms, k.address) ==> (k in after <==> k in rows) && (k in rows ==> after[k] == rows[k]))
            && (k.blockHash != hash ==>
                  (k in after <==> k in rows)
                  && (k in rows ==> after[k] == rows[k].(canonical := rows[k].canonical && !ReadsToken(ms, k.address))))
  {
    if ms != [] {
      var front, last := ms[..|ms| - 1], ms[|ms| - 1];
      StoredRow(rows, n, hash, front, k);
      assert forall i :: 0 <= i < |front| ==> front[i] == ms[i];
      LastOfMore(front, last, k.address);
      assert ms == front + [last];
      assert ReadsToken(ms, k.address) <==> ReadsToken(front, k.address) || last.address == k.address;
    }
  }

  lemma StoreKeeps(rows: TokenTable, blocks: map<Hash, BlockRow>, chain: Chain, b: IndexedBlock)
    requires Single(rows, chain) && Attached(rows, blocks) && b.number !in chain
    requires b.hash in blocks ==> blocks[b.hash].number == b.number
    requires Store(rows, b.number, b.hash, b.tokenMetadata).Success?
    ensures Single(Store(rows, b.number, b.hash, b.tokenMetadata).value, chain[b.number := b])
  {
    var after := Store(rows, b.number, b.hash, b.tokenMetadata).value;
    forall k
      ensures CanonicalRow(after, k) ==> OnChain(chain[b.number := b], after, k)
      ensures CanonicalRow(after, k) ==>
                if ReadsToken(b.tokenMetadata, k.address) then k.blockHash == b.hash else CanonicalRow(rows, k)
    {
      StoredRow(rows, b.number, b.hash, b.tokenMetadata, k);
      assert CanonicalRow(rows, k) ==> OnChain(chain, rows, k);
    }
  }

  /** Storing a block keeps the canonical rows current exactly when it re-reads every token that was
      read at this very block before. */
  lemma StoreKeepsCurrentExactly(rows: TokenTable, blocks: map<Hash, BlockRow>, chain: Chain, b: IndexedBlock)
    requires Single(rows, chain) && Current(rows, chain) && Attached(rows, blocks)
    requires forall n :: n in chain ==> n < b.number
    requires b.hash in blocks ==> blocks[b.hash].number == b.number
    requires Store(rows, b.number, b.hash, b.tokenMetadata).Success?
    ensures Current(Store(rows, b.number, b.hash, b.tokenMetadata).value, chain[b.number := b]) <==> Rereads(rows, b)
  {
    var after, longer := Store(rows, b.number, b.hash, b.tokenMetadata).value, chain[b.number := b];
    if Rereads(rows, b) {
      forall k | OnChain(longer, after, k)
        ensures Superseded(after, k)
      {
        StoredRow(rows, b.number, b.hash, b.tokenMetadata, k);
        var now := TokenKey(k.address, b.hash);
        StoredRow(rows, b.number, b.hash, b.tokenMetadata, now);
        if ReadsToken(b.tokenMetadata, k.address) {
          assert CanonicalRow(after, now) && after[now].readBlock >= after[k].readBlock;
        } else {
          assert k.blockHash != b.hash && OnChain(chain, rows, k);
          var c :| CanonicalRow(rows, c) && c.address == k.address && rows[c].readBlock >= rows[k].readBlock;
          StoredRow(rows, b.number, b.hash, b.tokenMetadata, c);
          assert CanonicalRow(after, c);
        }
      }
    } else {
      var k :| k in rows && k.blockHash == b.hash && !ReadsToken(b.tokenMetadata, k.address);
      StoredRow(rows, b.number, b.hash, b.tokenMetadata, k);
      assert OnChain(longer, after, k);
      if Superseded(after, k) {
        var c :| CanonicalRow(after, c) && c.address == k.address && after[c].readBlock >= after[k].readBlock;
        StoredRow(rows, b.number, b.hash, b.tokenMetadata, c);
        assert false;
      }
    }
  }

  /** Whatever was read at a block of the chain shows what the chain's block read. */
  ghost predicate Shows(rows: TokenTable, chain: Chain) {
    forall k {:trigger Shown(rows, chain, k)} :: OnChain(chain, rows, k) ==> Shown(rows, chain, k)
  }

  ghost predicate Shown(rows: TokenTable, chain: Chain, k: TokenKey)
    requires OnChain(chain, rows, k)
  {
    ReadsAs(chain[rows[k].readBlock].tokenMetadata, k.address, rows[k].data)
  }

  /** Storing a block keeps that, too, exactly when it re-reads every token that was read at it before. */
  lemma StoreShowsExactly(rows: TokenTable, blocks: map<Hash, BlockRow>, chain: Chain, b: IndexedBlock)
    requires Shows(rows, chain) && Attached(rows, blocks) && b.number !in chain
    requires b.hash in blocks ==> blocks[b.hash].number == b.number
    requires Store(rows, b.number, b.hash, b.tokenMetadata).Success?
    ensures Shows(Store(rows, b.number, b.hash, b.tokenMetadata).value, chain[b.number := b]) <==> Rereads(rows, b)
  {
    var after, longer := Store(rows, b.number, b.hash, b.tokenMetadata).value, chain[b.number := b];
    forall k | OnChain(longer, after, k)
      ensures Rereads(rows, b) ==> Shown(after, longer, k)
      ensures Shown(after, longer, k) && k in rows && k.blockHash == b.hash ==> ReadsToken(b.tokenMetadata, k.address)
    {
      StoredRow(rows, b.number, b.hash, b.tokenMetadata, k);
      assert OnChain(chain, rows, k) ==> Shown(rows, chain, k);
    }
    if Shows(after, longer) {
      forall k | k in rows && k.blockHash == b.hash
        ensures ReadsToken(b.tokenMetadata, k.address)
      {
        StoredRow(rows, b.number, b.hash, b.tokenMetadata, k);
        assert OnChain(longer, after, k) && Shown(after, longer, k);
      }
    }
  }

  /** A rewind changes no reading, only which of them are canonical. */
  lemma RewindShows(rows: TokenTable, blocks: map<Hash, BlockRow>, chain: Chain, ancestor: int)
    requires Rewind(rows, blocks, ancestor).Success?
    ensures var after := Rewind(rows, blocks, ancestor).value;
            && after.Keys == rows.Keys
            && (forall k :: k in rows ==> after[k] == rows[k].(canonical := after[k].canonical))
            && (Shows(rows, chain) ==> Shows(after, Kept(chain, ancestor)))
  {
    var after := Rewind(rows, blocks, ancestor).value;
    forall k | Shows(rows, chain) && OnChain(Kept(chain, ancestor), after, k)
      ensures Shown(after, Kept(chain, ancestor), k)
    {
      assert OnChain(chain, rows, k) && Shown(rows, chain, k);
    }
  }

  // ---------------------------------------------------------------- rewinding

  /** A canonical row that the rewind keeps although a newer reading stays on the kept chain. */
  predicate Stale(rows: TokenTable, chain: Chain, ancestor: int, c: TokenKey, k: TokenKey) {
    && CanonicalRow(rows, c) && rows[c].readBlock <= ancestor
    && OnChain(Kept(chain, ancestor), rows, k)
    && c.address == k.address && rows[c].readBlock < rows[k].readBlock
  }

  lemma NewestAfterRewind(rows: TokenTable, blocks: map<Hash, BlockRow>, chain: Chain, ancestor: int, k: TokenKey)
    requires BlocksMatch(blocks, chain) && Attached(rows, blocks)
    ensures Newest(Orphan(rows, ancestor), OrphanBlocks(blocks, ancestor), k) <==>
      && OnChain(Kept(chain, ancestor), rows, k)
      && forall j :: OnChain(Kept(chain, ancestor), rows, j) && j.address == k.address ==> rows[j].readBlock <= rows[k].readBlock
  {
    RewindKeepsBlocks(blocks, chain, ancestor);
    forall j
      ensures OnCanonicalBlock(Orphan(rows, ancestor), OrphanBlocks(blocks, ancestor), j) <==> OnChain(Kept(chain, ancestor), rows, j)
    {
      OnChainIsOnCanonicalBlock(Orphan(rows, ancestor), OrphanBlocks(blocks, ancestor), Kept(chain, ancestor), j);
    }
  }

  lemma {:induction false} NewestReading(rows: TokenTable, ks: set<TokenKey>) returns (k: TokenKey)
    requires ks != {} && forall j :: j in ks ==> j in rows
    ensures k in ks && forall j :: j in ks ==> rows[j].readBlock <= rows[k].readBlock
  {
    var j :| j in ks;
    if ks == {j} {
      k := j;
    } else {
      var m := NewestReading(rows, ks - {j});
      k := if rows[j].readBlock <= rows[m].readBlock then m else j;
    }
  }

  lemma NewestExists(rows: TokenTable, chain: Chain, k: TokenKey) returns (m: TokenKey)
    requires OnChain(chain, rows, k)
    ensures OnChain(chain, rows, m) && m.address == k.address && rows[m].readBlock >= rows[k].readBlock
    ensures forall j :: OnChain(chain, rows, j) && j.address == m.address ==> rows[j].readBlock <= rows[m].readBlock
  {
    var ks := set j | j in rows && OnChain(chain, rows, j) && j.address == k.address;
    assert k in ks;
    m := NewestReading(rows, ks);
  }

  /** A rewind runs into the unique index exactly when it keeps a canonical row next to a newer
      reading of the same token. */
  lemma RewindFailsExactly(rows: TokenTable, blocks: map<Hash, BlockRow>, chain: Chain, ancestor: int)
    requires BlocksMatch(blocks, chain) && Attached(rows, blocks) && Single(rows, chain)
    ensures Rewind(rows, OrphanBlocks(blocks, ancestor), ancestor).Failure? <==>
            exists c, k :: Stale(rows, chain, ancestor, c, k)
  {
    var restored := Restore(Orphan(rows, ancestor), OrphanBlocks(blocks, ancestor));
    if exists c, k :: Stale(rows, chain, ancestor, c, k) {
      var c, k :| Stale(rows, chain, ancestor, c, k);
      var m := NewestExists(rows, Kept(chain, ancestor), k);
      NewestAfterRewind(rows, blocks, chain, ancestor, m);
      assert CanonicalRow(restored, c) && CanonicalRow(restored, m);
    }
    if Clash(restored) {
      var j, k :| CanonicalRow(restored, j) && CanonicalRow(restored, k) && j.address == k.address && j != k;
      if !CanonicalRow(Orphan(rows, ancestor), j) {
        RestoredBesideIsStale(rows, blocks, chain, ancestor, j, k);
      } else {
        RestoredBesideIsStale(rows, blocks, chain, ancestor, k, j);
      }
    }
  }

  /** A row brought back next to another canonical row of its token is newer than that row. */
  lemma RestoredBesideIsStale(rows: TokenTable, blocks: map<Hash, BlockRow>, chain: Chain, ancestor: int, back: TokenKey, c: TokenKey)
    requires BlocksMatch(blocks, chain) && Attached(rows, blocks) && Single(rows, chain)
    requires var restored := Restore(Orphan(rows, ancestor), OrphanBlocks(blocks, ancestor));
             CanonicalRow(restored, back) && CanonicalRow(restored, c) && back.address == c.address && back != c
    requires !CanonicalRow(Orphan(rows, ancestor), back) || CanonicalRow(Orphan(rows, ancestor), c)
    ensures Stale(rows, chain, ancestor, c, back)
  {
    NewestAfterRewind(rows, blocks, chain, ancestor, back);
    NewestAfterRewind(rows, blocks, chain, ancestor, c);
    assert CanonicalRow(rows, c) ==> OnChain(chain, rows, c);
    if OnChain(Kept(chain, ancestor), rows, back) && OnChain(Kept(chain, ancestor), rows, c) {
      assert rows[back].readBlock != rows[c].readBlock;
    }
  }

  lemma RewindKeeps(rows: TokenTable, blocks: map<Hash, BlockRow>, chain: Chain, ancestor: int)
    requires BlocksMatch(blocks, chain) && Attached(rows, blocks) && Single(rows, chain)
    requires Rewind(rows, OrphanBlocks(blocks, ancestor), ancestor).Success?
    ensures var after := Rewind(rows, OrphanBlocks(blocks, ancestor), ancestor).value;
            Single(after, Kept(chain, ancestor)) && Current(after, Kept(chain, ancestor))
  {
    var after, kept := Rewind(rows, OrphanBlocks(blocks, ancestor), ancestor).value, Kept(chain, ancestor);
    forall k | CanonicalRow(after, k)
      ensures OnChain(kept, after, k)
    {
      NewestAfterRewind(rows, blocks, chain, ancestor, k);
      assert CanonicalRow(rows, k) && rows[k].readBlock <= ancestor ==> OnChain(kept, rows, k);
    }
    forall k | OnChain(kept, after, k)
      ensures Superseded(after, k)
    {
      assert OnChain(kept, rows, k);
      var m := NewestExists(rows, kept, k);
      NewestAfterRewind(rows, blocks, chain, ancestor, m);
      assert CanonicalRow(after, m);
    }
  }

  /** With current metadata no rewind is ever refused. */
  lemma CurrentRewindSucceeds(rows: TokenTable, blocks: map<Hash, BlockRow>, chain: Chain, ancestor: int)
    requires BlocksMatch(blocks, chain) && Attached(rows, blocks) && Single(rows, chain) && Current(rows, chain)
    ensures Rewind(rows, OrphanBlocks(blocks, ancestor), ancestor).Success?
  {
    RewindFailsExactly(rows, blocks, chain, ancestor);
    forall c, k | CanonicalRow(rows, c) && OnChain(Kept(chain, ancestor), rows, k) && c.address == k.address
      ensures !Stale(rows, chain, ancestor, c, k)
    {
      assert OnChain(chain, rows, k) && Superseded(rows, k);
    }
  }
}
