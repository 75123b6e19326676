/** Reconciling the stored chain with the node's after a reorganisation. */
module Reorg {
  import opened Records
  import opened LedgerProofs
  import opened Runs
  import opened World
  import Database
  import Ledger
  import Tokens
  import Scanner = ScannerDatabase

  datatype ReorgError = HeaderUnavailable | Refused(databaseError: Database.DatabaseError)

  ghost predicate LinkedRemote(remote: Remote) {
    forall m, n :: 0 <= m && n == m + 1 < |remote| ==> remote[n].parentHash == remote[m].hash
  }

  /** Both chains are made of blocks whose hash fixes their number and their parent. */
  ghost predicate SameWorld(chain: Chain, remote: Remote) {
    && LinkedRemote(remote)
    && forall n, m :: n in chain && 0 <= m < |remote| && chain[n].hash == remote[m].hash ==>
         n == m && chain[n].parentHash == remote[m].parentHash
  }

  predicate Agree(chain: Chain, remote: Remote, n: int) {
    n in chain && 0 <= n < |remote| && chain[n].hash == remote[n].hash
  }

  /** Two chains that agree on a block agree on everything below it. */
  lemma {:induction false} AgreeBelow(l: Ledger.Ledger, chain: Chain, remote: Remote, m: int, n: int)
    requires Holds(l, chain) && SameWorld(chain, remote)
    requires m in chain && m <= n && Agree(chain, remote, n)
    ensures Agree(chain, remote, m)
    decreases n - m
  {
    if m < n {
      AgreeBelow(l, chain, remote, m + 1, n);
      assert chain[m + 1].parentHash == chain[m].hash;
    }
  }

  function ReorgSearchFloor(startBlock: int, checkpoint: int, confirmationDepth: int): (floor: int) {
    var candidate := if checkpoint > confirmationDepth then checkpoint - confirmationDepth else startBlock;
    if candidate > startBlock then candidate else startBlock
  }

  /** The two chains still agree on a block of the confirmation window, the checkpoint included. */
  ghost predicate CommonInWindow(l: Ledger.Ledger, chain: Chain, remote: Remote, confirmationDepth: nat) {
    exists n :: ReorgSearchFloor(l.startBlock, Tip(l), confirmationDepth) <= n <= Tip(l) && Agree(chain, remote, n)
  }

  lemma AgreeingPart(l: Ledger.Ledger, chain: Chain, remote: Remote, n: int)
    requires Holds(l, chain) && SameWorld(chain, remote) && Agree(chain, remote, n)
    requires forall m :: n < m <= Tip(l) ==> !Agree(chain, remote, m)
    ensures forall m :: m in Kept(chain, n) <==> Agree(chain, remote, m)
  {
    forall m | m in chain && m <= n
      ensures Agree(chain, remote, m)
    {
      AgreeBelow(l, chain, remote, m, n);
    }
  }

  /** What reconciling may make of the stored chain: the part it shares with the node's chain, or
      nothing when nothing in the confirmation window is shared. */
  ghost predicate Reconciled(l: Ledger.Ledger, chain: Chain, remote: Remote, confirmationDepth: nat, after: Chain) {
    && (forall n :: n in after ==> n in chain && after[n] == chain[n])
    && (if CommonInWindow(l, chain, remote, confirmationDepth) then forall n :: n in after <==> Agree(chain, remote, n)
        else after == map[])
  }

  lemma NewestCommon(l: Ledger.Ledger, chain: Chain, remote: Remote, confirmationDepth: nat, n: int)
    requires Holds(l, chain) && SameWorld(chain, remote)
    requires ReorgSearchFloor(l.startBlock, Tip(l), confirmationDepth) <= n <= Tip(l) && Agree(chain, remote, n)
    requires forall m :: n < m <= Tip(l) ==> !Agree(chain, remote, m)
    ensures Reconciled(l, chain, remote, confirmationDepth, Kept(chain, n))
  {
    AgreeingPart(l, chain, remote, n);
  }

  lemma CurrentTokensRewind(s: Database.Store, chain: Chain, ancestor: int, ancestorHash: Option<Hash>)
    requires Sound(s, chain) && Ledger.Rewind(s.ledger, ancestor, ancestorHash).Success?
    ensures Tokens.Current(s.tokens, chain) ==> Database.Rewind(s, ancestor, ancestorHash).Success?
  {
    if Tokens.Current(s.tokens, chain) {
      Tokens.CurrentRewindSucceeds(s.tokens, s.ledger.blocks, chain, ancestor);
    }
  }

  /** What becomes of a rewind to a legal target. */
  lemma LegalRewind(s: Database.Store, chain: Chain, ancestor: int, ancestorHash: Option<Hash>)
    requires Sound(s, chain) && Tip(s.ledger) in chain
    requires if ancestorHash.None? then ancestor == -1
             else ancestor in chain && ancestor < Tip(s.ledger) && ancestorHash.value == chain[ancestor].hash
    ensures var step := Step.RewindTo(ancestor, ancestorHash);
            && (Attempt(s, step).Failure? ==> !Tokens.Current(s.tokens, chain) && Apply(s, step) == s && NextChain(s, chain, step) == chain)
            && (Attempt(s, step).Success? ==>
                  Apply(s, step).ledger.startBlock == s.ledger.startBlock && NextChain(s, chain, step) == Kept(chain, ancestor))
  {
    RewindAcceptsExactly(s.ledger, chain, ancestor, ancestorHash);
    CurrentTokensRewind(s, chain, ancestor, ancestorHash);
  }

  ghost predicate Unchanged(db: Scanner.ScannerDatabase, s: Database.Store, chain: Chain)
    reads db
  {
    db.Snapshot() == s && db.chain == chain
  }

  ghost predicate Rewound(db: Scanner.ScannerDatabase, s: Database.Store, chain: Chain)
    reads db
  {
    exists ancestor, ancestorHash :: StepsTo(s, chain, Step.RewindTo(ancestor, ancestorHash), db.Snapshot(), db.chain)
  }

  /** The transactions added are rewinds. */
  ghost predicate OnlyRewound(before: seq<Step>, after: seq<Step>) {
    before <= after && forall i :: |before| <= i < |after| ==> after[i].RewindTo?
  }

  /** A rewind to a legal target, which only the token metadata may refuse. */
  method RewindTo(db: Scanner.ScannerDatabase, ancestor: int, ancestorHash: Option<Hash>) returns (error: Option<ReorgError>)
    requires db.Valid() && Tip(db.Snapshot().ledger) in db.chain
    requires if ancestorHash.None? then ancestor == -1
             else ancestor in db.chain && ancestor < Tip(db.Snapshot().ledger) && ancestorHash.value == db.chain[ancestor].hash
    modifies db
    ensures db.Valid()
    ensures error.Some? ==> Unchanged(db, old(db.Snapshot()), old(db.chain))
    ensures error.Some? ==> error.value.Refused? && !Tokens.Current(old(db.tokenMetadata), old(db.chain))
    ensures error.None? ==> db.startBlock == old(db.startBlock) && db.chain == Kept(old(db.chain), ancestor)
    ensures Rewound(db, old(db.Snapshot()), old(db.chain))
    ensures OnlyRewound(old(db.steps), db.steps)
  {
    ghost var s, chain := db.Snapshot(), db.chain;
    LegalRewind(s, chain, ancestor, ancestorHash);
    var refusal := db.Rewind(ancestor, ancestorHash);
    assert StepsTo(s, chain, Step.RewindTo(ancestor, ancestorHash), db.Snapshot(), db.chain);
    return if refusal.Some? then Some(Refused(refusal.value)) else None;
  }

  /** The newest block below the checkpoint, down to `floor`, that the stored chain shares with the node's. */
  method NewestCommonBlock(db: Scanner.ScannerDatabase, remote: Remote, tip: nat, floor: nat) returns (common: Option<BlockRef>)
    requires db.Valid() && tip < |remote|
    ensures common.None? ==> forall m :: floor <= m < tip ==> !Agree(db.chain, remote, m)
    ensures common.Some? ==>
      var n := common.value.number;
      && floor <= n < tip && Agree(db.chain, remote, n) && common.value.hash == db.chain[n].hash
      && forall m :: n < m < tip ==> !Agree(db.chain, remote, m)
  {
    var number: int := tip - 1;
    while number >= floor
      invariant number < tip
      invariant forall m :: number < m < tip ==> !Agree(db.chain, remote, m)
    {
      var storedHash := db.CanonicalHash(number);
      if storedHash == Some(remote[number].hash) {
        return Some(BlockRef(number, remote[number].hash));
      }
      if number == 0 {
        break;
      }
      number := number - 1;
    }
    common := None;
  }

  /** The checkpoint being off the node's chain: back to the newest common block of the window, or to
      before everything. */
  method RewindToCommon(db: Scanner.ScannerDatabase, remote: Remote, tip: nat, confirmationDepth: nat) returns (error: Option<ReorgError>)
    requires db.Valid() && SameWorld(db.chain, remote)
    requires tip == Tip(db.Snapshot().ledger) < |remote| && tip in db.chain && !Agree(db.chain, remote, tip)
    modifies db
    ensures db.Valid()
    ensures error.Some? ==> Unchanged(db, old(db.Snapshot()), old(db.chain))
    ensures error.Some? ==> error.value.Refused? && !Tokens.Current(old(db.tokenMetadata), old(db.chain))
    ensures error.None? ==> db.startBlock == old(db.startBlock)
    ensures error.None? ==> Reconciled(old(db.Snapshot()).ledger, old(db.chain), remote, confirmationDepth, db.chain)
    ensures Rewound(db, old(db.Snapshot()), old(db.chain))
    ensures OnlyRewound(old(db.steps), db.steps)
  {
    ghost var l, chain := db.Snapshot().ledger, db.chain;
    var floor := ReorgSearchFloor(db.startBlock, tip, confirmationDepth);
    var common := NewestCommonBlock(db, remote, tip, floor);
    if common.Some? {
      NewestCommon(l, chain, remote, confirmationDepth, common.value.number);
      error := RewindTo(db, common.value.number, Some(common.value.hash));
    } else {
      NothingCommon(l, chain, remote, confirmationDepth);
      error := RewindTo(db, -1, None);
    }
  }

  lemma NothingCommon(l: Ledger.Ledger, chain: Chain, remote: Remote, confirmationDepth: nat)
    requires Holds(l, chain)
    requires forall m :: ReorgSearchFloor(l.startBlock, Tip(l), confirmationDepth) <= m <= Tip(l) ==> !Agree(chain, remote, m)
    ensures Reconciled(l, chain, remote, confirmationDepth, Kept(chain, -1))
  {
  }

  /** A header the node does not have, or a refused rewind, leaves everything as it was; a rewind is
      refused only if token metadata on file is not current. */
  method ReconcileReorg(db: Scanner.ScannerDatabase, remote: Remote, confirmationDepth: nat) returns (error: Option<ReorgError>)
    requires db.Valid() && SameWorld(db.chain, remote)
    modifies db
    ensures db.Valid()
    ensures error == Some(HeaderUnavailable) <==> Tip(old(db.Snapshot()).ledger) >= |remote|
    ensures error.Some? ==> Unchanged(db, old(db.Snapshot()), old(db.chain))
    ensures error.Some? && error.value.Refused? ==>
      !Tokens.Current(old(db.tokenMetadata), old(db.chain)) && !Agree(old(db.chain), remote, Tip(old(db.Snapshot()).ledger))
    ensures error.None? ==> db.startBlock == old(db.startBlock)
    ensures error.None? ==> Reconciled(old(db.Snapshot()).ledger, old(db.chain), remote, confirmationDepth, db.chain)
    ensures Unchanged(db, old(db.Snapshot()), old(db.chain)) || Rewound(db, old(db.Snapshot()), old(db.chain))
    ensures OnlyRewound(old(db.steps), db.steps)
  {
    var checkpoint := db.Checkpoint();
    if checkpoint.None? {
      return None;
    }
    var tip := checkpoint.value.number;
    if tip >= |remote| {
      return Some(HeaderUnavailable);
    }
    if remote[tip].hash == checkpoint.value.hash {
      NewestCommon(db.Snapshot().ledger, db.chain, remote, confirmationDepth, tip);
      assert Kept(db.chain, tip) == db.chain;
      return None;
    }
    error := RewindToCommon(db, remote, tip, confirmationDepth);
  }
}
