/** What the rows of token metadata show: the reading that was last stored for their token and their
    block; and whether that is what the canonical chain's block has read. */
module TokenReadings {
  import opened Records
  import opened Database
  import opened LedgerProofs
  import opened Runs
  import opened TokenRuns
  import Ledger
  import Registry
  import Tokens

  // ---------------------------------------------------------------- every reading stands

  /** The step is the last one so far that stored a reading of the token at the block. */
  ghost predicate StoredBy(s0: Store, steps: seq<Step>, i: int, k: Tokens.TokenKey, row: Tokens.TokenRow) {
    && 0 <= i < |steps| && Reads(s0, steps, i, k)
    && row.readBlock == steps[i].b.number && Tokens.ReadsAs(steps[i].b.tokenMetadata, k.address, row.data)
    && forall j :: i < j < |steps| ==> !Reads(s0, steps, j, k)
  }

  /** An accepted block with this hash that read the token. */
  ghost predicate Reads(s0: Store, steps: seq<Step>, i: nat, k: Tokens.TokenKey)
    requires i < |steps|
  {
    && steps[i].Append? && Attempt(Run(s0, steps[..i]), steps[i]).Success?
    && steps[i].b.hash == k.blockHash && Tokens.ReadsToken(steps[i].b.tokenMetadata, k.address)
  }

  /** No other step touches what a row shows. */
  lemma OtherStepsKeepReadings(s: Store, step: Step, k: Tokens.TokenKey)
    requires !step.Append?
    ensures k in Apply(s, step).tokens <==> k in s.tokens
    ensures k in s.tokens ==> Apply(s, step).tokens[k] == s.tokens[k].(canonical := Apply(s, step).tokens[k].canonical)
  {
    if step.RewindTo? && Attempt(s, step).Success? {
      Tokens.RewindShows(s.tokens, Ledger.Rewind(s.ledger, step.ancestor, step.ancestorHash).value.blocks, map[], step.ancestor);
    }
  }

  lemma StepShows(s: Store, step: Step, k: Tokens.TokenKey)
    ensures var t := Apply(s, step);
            if step.Append? && Attempt(s, step).Success? && step.b.hash == k.blockHash && Tokens.ReadsToken(step.b.tokenMetadata, k.address)
            then k in t.tokens && t.tokens[k].readBlock == step.b.number && Tokens.ReadsAs(step.b.tokenMetadata, k.address, t.tokens[k].data)
            else (k in t.tokens <==> k in s.tokens)
                 && (k in s.tokens ==> t.tokens[k] == s.tokens[k].(canonical := t.tokens[k].canonical))
  {
    if step.Append? {
      if Attempt(s, step).Success? {
        Tokens.StoredRow(s.tokens, step.b.number, step.b.hash, step.b.tokenMetadata, k);
      }
    } else {
      OtherStepsKeepReadings(s, step, k);
    }
  }

  ghost predicate EverRead(s0: Store, steps: seq<Step>, k: Tokens.TokenKey) {
    exists i :: 0 <= i < |steps| && Reads(s0, steps, i, k)
  }

  ghost predicate Stands(s0: Store, steps: seq<Step>, k: Tokens.TokenKey, row: Tokens.TokenRow) {
    exists i :: StoredBy(s0, steps, i, k, row)
  }

  lemma ReadsInFront(s0: Store, front: seq<Step>, last: Step, i: nat, k: Tokens.TokenKey)
    requires i < |front|
    ensures Reads(s0, front + [last], i, k) <==> Reads(s0, front, i, k)
  {
    assert (front + [last])[..i] == front[..i];
  }

  lemma ReadsLast(s0: Store, front: seq<Step>, last: Step, k: Tokens.TokenKey)
    ensures Reads(s0, front + [last], |front|, k) <==>
            && last.Append? && Attempt(Run(s0, front), last).Success?
            && last.b.hash == k.blockHash && Tokens.ReadsToken(last.b.tokenMetadata, k.address)
  {
    assert (front + [last])[..|front|] == front;
  }

  lemma OneMoreRead(s0: Store, front: seq<Step>, last: Step, k: Tokens.TokenKey)
    ensures EverRead(s0, front + [last], k) <==> EverRead(s0, front, k) || Reads(s0, front + [last], |front|, k)
  {
    forall i | 0 <= i < |front|
      ensures Reads(s0, front + [last], i, k) <==> Reads(s0, front, i, k)
    {
      ReadsInFront(s0, front, last, i, k);
    }
  }

  lemma StandsOn(s0: Store, front: seq<Step>, last: Step, k: Tokens.TokenKey, row: Tokens.TokenRow, after: Tokens.TokenRow)
    requires Stands(s0, front, k, row) && !Reads(s0, front + [last], |front|, k) && after.readBlock == row.readBlock && after.data == row.data
    ensures Stands(s0, front + [last], k, after)
  {
    var i :| StoredBy(s0, front, i, k, row);
    forall j | 0 <= j < |front|
      ensures Reads(s0, front + [last], j, k) <==> Reads(s0, front, j, k)
    {
      ReadsInFront(s0, front, last, j, k);
    }
    assert StoredBy(s0, front + [last], i, k, after);
  }

  lemma LastStands(s0: Store, front: seq<Step>, last: Step, k: Tokens.TokenKey, row: Tokens.TokenRow)
    requires Reads(s0, front + [last], |front|, k)
    requires row.readBlock == last.b.number && Tokens.ReadsAs(last.b.tokenMetadata, k.address, row.data)
    ensures Stands(s0, front + [last], k, row)
  {
    assert StoredBy(s0, front + [last], |front|, k, row);
  }

  /** After any run, each row, canonical or not, shows the last reading of its token that was stored with
      its block; and there is a row for every reading that was ever stored. */
  lemma {:induction false} EveryReadingStands(startBlock: nat, steps: seq<Step>, k: Tokens.TokenKey)
    ensures var rows := Run(Created(startBlock), steps).tokens;
            && (k in rows <==> EverRead(Created(startBlock), steps, k))
            && (k in rows ==> Stands(Created(startBlock), steps, k, rows[k]))
  {
    var s0 := Created(startBlock);
    if steps != [] {
      var front, last := steps[..|steps| - 1], steps[|steps| - 1];
      assert steps == front + [last];
      EveryReadingStands(startBlock, front, k);
      StepShows(Run(s0, front), last, k);
      ReadsLast(s0, front, last, k);
      OneMoreRead(s0, front, last, k);
      var before, rows := Run(s0, front).tokens, Run(s0, steps).tokens;
      if Reads(s0, front + [last], |front|, k) {
        LastStands(s0, front, last, k, rows[k]);
      } else if k in rows {
        StandsOn(s0, front, last, k, before[k], rows[k]);
      }
    }
  }

  // ---------------------------------------------------------------- and is the chain's

  lemma StepKeepsShows(s: Store, chain: Chain, step: Step)
    requires Sound(s, chain) && Genuine(s, step) && Rereading(s, step) && Tokens.Shows(s.tokens, chain)
    ensures Tokens.Shows(Apply(s, step).tokens, NextChain(s, chain, step))
  {
    if Attempt(s, step).Success? {
      match step
      case Append(b) =>
        StoreAcceptsExactly(s.ledger, chain, b);
        Tokens.StoreShowsExactly(s.tokens, s.ledger.blocks, chain, b);
      case RewindTo(ancestor, ancestorHash) =>
        Tokens.RewindShows(s.tokens, Ledger.Rewind(s.ledger, ancestor, ancestorHash).value.blocks, chain, ancestor);
      case _ =>
    }
  }

  /** In runs in which blocks read again what was read at them before, the canonical row of a token shows
      what the chain's block at its number has read. */
  lemma {:induction false} RereadingRunShows(startBlock: nat, steps: seq<Step>)
    requires GenuineRun(Created(startBlock), steps) && RereadingRun(Created(startBlock), steps)
    ensures var rows, chain := Run(Created(startBlock), steps).tokens, History(Created(startBlock), steps);
            && Tokens.Shows(rows, chain)
            && forall k :: Tokens.CanonicalRow(rows, k) ==> ShowsItsBlock(rows, chain, k)
  {
    var s0 := Created(startBlock);
    if steps != [] {
      var front := steps[..|steps| - 1];
      assert forall i :: 0 <= i < |front| ==> front[..i] == steps[..i] && front[i] == steps[i];
      assert Genuine(Run(s0, front), steps[|steps| - 1]) && Rereading(Run(s0, front), steps[|steps| - 1]);
      RereadingRunShows(startBlock, front);
      RunIsSound(startBlock, front);
      StepKeepsShows(Run(s0, front), History(s0, front), steps[|steps| - 1]);
    }
    RunIsSound(startBlock, steps);
    var rows, chain := Run(s0, steps).tokens, History(s0, steps);
    forall k | Tokens.CanonicalRow(rows, k)
      ensures ShowsItsBlock(rows, chain, k)
    {
      assert Tokens.OnChain(chain, rows, k) && Tokens.Shown(rows, chain, k);
    }
  }

  ghost predicate ShowsItsBlock(rows: Tokens.TokenTable, chain: Chain, k: Tokens.TokenKey)
    requires k in rows
  {
    && rows[k].readBlock in chain && chain[rows[k].readBlock].hash == k.blockHash
    && Tokens.ReadsAs(chain[rows[k].readBlock].tokenMetadata, k.address, rows[k].data)
  }

  // ---------------------------------------------------------------- a reading that comes back

  /** As before the token is read at blocks 0 and 25. Then the start is advanced to block 10, so that it is
      read at blocks 10 and 35, and block 25 comes back without a reading. A rewind to block 30 takes the
      reading of block 35 away; the newest one left on the chain is the earlier one of block 25. */
  function AdvancedRun(): seq<Step> {
    Restarted() + Quiet(11, 34) + [Append(Plain(35, ReadAt(35, FULL)))] + [RewindTo(30, Some(31))]
  }

  function Restarted(): seq<Step> {
    FirstHalf() + [Advance(10)] + [Append(Plain(10, ReadAt(10, BARE)))]
  }

  function Three(): Tokens.TokenTable {
    Readings(BARE, false, false)[Tokens.TokenKey(TOKEN, 11) := Tokens.TokenRow(10, BARE, true)]
  }

  function Four(second: bool, fourth: bool): Tokens.TokenTable {
    Readings(BARE, false, second)[Tokens.TokenKey(TOKEN, 11) := Tokens.TokenRow(10, BARE, false)]
                                 [Tokens.TokenKey(TOKEN, 36) := Tokens.TokenRow(35, FULL, fourth)]
  }

  lemma FurtherReadings()
    ensures Tokens.Upsert(Readings(BARE, false, false), 11, ReadAt(10, BARE)[0]) == Three()
    ensures Tokens.Upsert(Three(), 36, ReadAt(35, FULL)[0]) == Four(false, true)
  {
  }

  lemma NeedsNext(n: nat)
    ensures NeedsRead(Three(), TOKEN, n) <==> n >= 35
  {
    assert IsReading(Three(), TOKEN, Tokens.TokenKey(TOKEN, 11));
  }

  lemma AdvancePlain(s: Store)
    requires PlainStore(s, 0, 25) && s.tokens == Readings(BARE, false, true)
    ensures var t := Apply(s, Advance(10)); PlainStore(t, 10, 9) && t.tokens == Readings(BARE, false, false)
  {
    assert Tokens.Invalidate(s.tokens) == Readings(BARE, false, false);
    assert Registry.Invalidate(REGISTERED, 10).contracts == REGISTERED.contracts;
  }

  lemma AdvancedReaches() returns (to: State)
    ensures Reaches(FirstHalf() + [Advance(10)], to, 10, 9, Readings(BARE, false, false))
  {
    var from := FirstHalfReaches();
    AdvancePlain(from.store);
    to := State(Apply(from.store, Advance(10)), NextChain(from.store, from.chain, Advance(10)));
    LedOn(FirstHalf(), from, Advance(10), to);
  }

  lemma RestartedReaches() returns (to: State)
    ensures Reaches(Restarted(), to, 10, 10, Three())
  {
    FurtherReadings();
    NeedsWhen(10);
    to := AdvancedReaches();
    to := Appended(FirstHalf() + [Advance(10)], to, 10, 10, ReadAt(10, BARE));
  }

  lemma NeededFrom35()
    ensures forall n: nat :: NeedsRead(Three(), TOKEN, n) <==> n >= 35
  {
    FurtherReadings();
    forall n: nat
      ensures NeedsRead(Three(), TOKEN, n) <==> n >= 35
    {
      NeedsNext(n);
    }
  }

  lemma QuietThrough34() returns (to: State)
    ensures Reaches(Restarted() + Quiet(11, 34), to, 10, 34, Three())
    ensures 25 in to.chain && to.chain[25].tokenMetadata == []
  {
    NeededFrom35();
    to := RestartedReaches();
    to := QuietlyOn(Restarted(), to, 10, 11, 34);
  }

  lemma BeforeRewindReaches() returns (to: State)
    ensures Reaches(Restarted() + Quiet(11, 34) + [Append(Plain(35, ReadAt(35, FULL)))], to, 10, 35, Four(false, true))
    ensures 25 in to.chain && to.chain[25].tokenMetadata == []
  {
    FurtherReadings();
    NeededFrom35();
    to := QuietThrough34();
    to := Appended(Restarted() + Quiet(11, 34), to, 10, 35, ReadAt(35, FULL));
  }

  lemma RewindTo30Ledger(l: Ledger.Ledger)
    requires l.startBlock == 10 && l.evidence == map[] && l.cursors == map[] && PlainBlocks(l.blocks, 10, 35)
    requires l.indexedBlock == Some(35) && l.indexedHash == Some(36)
    ensures Ledger.Rewind(l, 30, Some(31)).Success? && PlainBlocks(Ledger.Rewind(l, 30, Some(31)).value.blocks, 10, 30)
  {
    assert 31 in l.blocks;
  }

  lemma Blocks10And25(blocks: map<Hash, Ledger.BlockRow>)
    requires PlainBlocks(blocks, 10, 30)
    ensures 11 in blocks && blocks[11].number == 10 && blocks[11].canonical && 26 in blocks && blocks[26].number == 25 && blocks[26].canonical
    ensures 1 in blocks ==> !blocks[1].canonical
    ensures 36 in blocks ==> !blocks[36].canonical
  {
  }

  lemma EarlierIsNewest(blocks: map<Hash, Ledger.BlockRow>, k: Tokens.TokenKey)
    requires PlainBlocks(blocks, 10, 30)
    ensures Tokens.Newest(Four(false, false), blocks, k) <==> k == Tokens.TokenKey(TOKEN, 26)
  {
    Blocks10And25(blocks);
    var rows := Four(false, false);
    assert Tokens.OnCanonicalBlock(rows, blocks, Tokens.TokenKey(TOKEN, 26));
    assert forall j :: Tokens.OnCanonicalBlock(rows, blocks, j) <==> j == Tokens.TokenKey(TOKEN, 11) || j == Tokens.TokenKey(TOKEN, 26);
  }

  lemma FourOrphaned()
    ensures Tokens.Orphan(Four(false, true), 30) == Four(false, false)
    ensures !Tokens.Clash(Four(true, false))
  {
    assert forall k :: Tokens.CanonicalRow(Four(true, false), k) ==> k == Tokens.TokenKey(TOKEN, 26);
  }

  lemma FourRestored(blocks: map<Hash, Ledger.BlockRow>)
    requires PlainBlocks(blocks, 10, 30)
    ensures Tokens.Restore(Four(false, false), blocks) == Four(true, false)
  {
    forall k
      ensures Tokens.Newest(Four(false, false), blocks, k) <==> k == Tokens.TokenKey(TOKEN, 26)
    {
      EarlierIsNewest(blocks, k);
    }
  }

  lemma EarlierComesBack(blocks: map<Hash, Ledger.BlockRow>)
    requires PlainBlocks(blocks, 10, 30)
    ensures Tokens.Rewind(Four(false, true), blocks, 30) == Success(Four(true, false))
  {
    FourOrphaned();
    FourRestored(blocks);
  }

  lemma RewindTo30(s: Store)
    requires PlainStore(s, 10, 35) && s.tokens == Four(false, true)
    ensures Attempt(s, RewindTo(30, Some(31))).Success? && Apply(s, RewindTo(30, Some(31))).tokens == Four(true, false)
  {
    RewindTo30Ledger(s.ledger);
    EarlierComesBack(Ledger.Rewind(s.ledger, 30, Some(31)).value.blocks);
  }

  /** So without reading again, a canonical row may show what the chain's block has not read. */
  lemma EarlierReadingReturns()
    ensures GenuineRun(Created(0), AdvancedRun()) && DutifulRun(Created(0), AdvancedRun())
    ensures var rows, chain := Run(Created(0), AdvancedRun()).tokens, History(Created(0), AdvancedRun());
            var k := Tokens.TokenKey(TOKEN, 26);
            && Tokens.CanonicalRow(rows, k) && rows[k].readBlock == 25
            && 25 in chain && !Tokens.ReadsToken(chain[25].tokenMetadata, TOKEN)
  {
    var from := BeforeRewindReaches();
    var step := RewindTo(30, Some(31));
    RewindTo30(from.store);
    var to := State(Apply(from.store, step), NextChain(from.store, from.chain, step));
    LedOn(Restarted() + Quiet(11, 34) + [Append(Plain(35, ReadAt(35, FULL)))], from, step, to);
    LedIsRun(AdvancedRun(), to);
  }
}
