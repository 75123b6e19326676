/** Which blocks are marked final in the course of a run, and when a reconciliation leaves them alone. */
module Finality {
  import opened Records
  import opened Database
  import opened LedgerProofs
  import opened Runs
  import opened Reorg
  import Ledger
  import Registry

  function FinalizedThrough(observedHead: nat, confirmationDepth: nat): nat {
    if observedHead > confirmationDepth then observedHead - confirmationDepth else 0
  }

  ghost predicate Accepted(s: Store, step: Step) {
    step.Append? && Attempt(s, step).Success?
  }

  /** The finality the last accepted block of a run came with. */
  ghost function Through(s: Store, steps: seq<Step>): nat {
    if steps == [] then 0
    else
      var front, last := steps[..|steps| - 1], steps[|steps| - 1];
      if Accepted(Run(s, front), last) then last.b.finalizedThrough else Through(s, front)
  }

  /** The observed head, and with it the finality of the blocks stored, never goes back. */
  ghost predicate Ascending(s: Store, steps: seq<Step>) {
    forall i :: 0 <= i < |steps| && Accepted(Run(s, steps[..i]), steps[i]) ==>
      Through(s, steps[..i]) <= steps[i].b.finalizedThrough
  }

  /** The canonical rows through a block number are final, those above are not. */
  ghost predicate FinalizedExactly(l: Ledger.Ledger, through: int) {
    && (forall h :: h in l.blocks && l.blocks[h].canonical ==> (l.blocks[h].finalized <==> l.blocks[h].number <= through))
    && (forall k :: k in l.evidence && l.evidence[k].canonical && k.table == Logs ==>
          (l.evidence[k].finalized <==> l.evidence[k].number <= through))
  }

  lemma AppendKeepsFinality(s: Store, chain: Chain, b: IndexedBlock, through: nat)
    requires Sound(s, chain) && Genuine(s, Append(b)) && StoreBlock(s, b).Success?
    requires FinalizedExactly(s.ledger, through) && through <= b.finalizedThrough
    ensures FinalizedExactly(StoreBlock(s, b).value.ledger, b.finalizedThrough)
  {
    var l, after := s.ledger, StoreBlock(s, b).value.ledger;
    forall k | k in after.evidence && after.evidence[k].canonical && k.table == Logs
      ensures after.evidence[k].finalized <==> after.evidence[k].number <= b.finalizedThrough
    {
      if k in l.evidence {
        assert RowFiled(l.blocks, k, l.evidence[k]);
      }
    }
  }

  lemma StepKeepsFinality(s: Store, chain: Chain, step: Step, through: nat)
    requires Sound(s, chain) && Genuine(s, step) && FinalizedExactly(s.ledger, through)
    requires Accepted(s, step) ==> through <= step.b.finalizedThrough
    ensures FinalizedExactly(Apply(s, step).ledger, if Accepted(s, step) then step.b.finalizedThrough else through)
  {
    if Accepted(s, step) {
      AppendKeepsFinality(s, chain, step.b, through);
    }
  }

  /** In every reachable state the final rows are exactly the canonical ones through the finality of
      the last stored block. */
  lemma {:induction false} RunFinalizesExactly(startBlock: nat, steps: seq<Step>)
    requires GenuineRun(Created(startBlock), steps) && Ascending(Created(startBlock), steps)
    ensures FinalizedExactly(Run(Created(startBlock), steps).ledger, Through(Created(startBlock), steps))
  {
    var s0 := Created(startBlock);
    if steps != [] {
      var front, last := steps[..|steps| - 1], steps[|steps| - 1];
      assert forall i :: 0 <= i < |front| ==> front[..i] == steps[..i] && front[i] == steps[i];
      RunFinalizesExactly(startBlock, front);
      RunIsSound(startBlock, front);
      assert Genuine(Run(s0, front), last);
      StepKeepsFinality(Run(s0, front), History(s0, front), last, Through(s0, front));
    }
  }

  /** A rewind to `ancestor` takes away a block that was final. */
  ghost predicate OrphansFinal(l: Ledger.Ledger, ancestor: int) {
    exists h :: h in l.blocks && l.blocks[h].canonical && l.blocks[h].finalized && l.blocks[h].number > ancestor
  }

  /** No target in the confirmation window takes away a final block, if and only if finality does not
      reach above the bottom of the window (or the window is the checkpoint alone). */
  lemma WindowSparesFinalExactly(l: Ledger.Ledger, chain: Chain, through: nat, confirmationDepth: nat)
    requires Holds(l, chain) && FinalizedExactly(l, through) && l.indexedBlock.Some?
    ensures var floor := ReorgSearchFloor(l.startBlock, Tip(l), confirmationDepth);
            (forall ancestor :: floor <= ancestor < Tip(l) ==> !OrphansFinal(l, ancestor)) <==>
            (through <= floor || Tip(l) <= floor)
  {
    var floor := ReorgSearchFloor(l.startBlock, Tip(l), confirmationDepth);
    if floor < through && floor < Tip(l) {
      assert floor + 1 in chain && HasBlock(l.blocks, floor + 1, chain[floor + 1]);
      assert OrphansFinal(l, floor);
    }
  }

  /** With the checkpoint at the head observed last, a reconciliation inside the confirmation window
      never takes away a final block. */
  lemma CaughtUpWindowSparesFinal(startBlock: nat, steps: seq<Step>, confirmationDepth: nat, ancestor: int)
    requires GenuineRun(Created(startBlock), steps) && Ascending(Created(startBlock), steps)
    requires var l := Run(Created(startBlock), steps).ledger;
             && l.indexedBlock.Some?
             && Through(Created(startBlock), steps) == FinalizedThrough(Tip(l), confirmationDepth)
             && ReorgSearchFloor(l.startBlock, Tip(l), confirmationDepth) <= ancestor < Tip(l)
    ensures !OrphansFinal(Run(Created(startBlock), steps).ledger, ancestor)
  {
    var s0 := Created(startBlock);
    RunIsSound(startBlock, steps);
    RunFinalizesExactly(startBlock, steps);
    WindowSparesFinalExactly(Run(s0, steps).ledger, History(s0, steps), Through(s0, steps), confirmationDepth);
  }

  // ---------------------------------------------------------------- a window that reaches below finality

  /** Block `n` of a chain whose head is at 10 already, stored with a confirmation depth of 1. */
  function Early(n: nat): IndexedBlock {
    IndexedBlock(n, n + 1, n, FinalizedThrough(10, 1), map[], [], [], [], [])
  }

  function CatchingUp(): seq<Step> {
    [Append(Early(0)), Append(Early(1)), Append(Early(2))]
  }

  /** The first `n` of these blocks are stored. */
  predicate EarlyStore(s: Store, n: nat) {
    && s.ledger.startBlock == 0 && s.registry == Registry.EMPTY && s.tokens == map[]
    && s.ledger.indexedBlock == (if n == 0 then None else Some(n - 1))
    && s.ledger.indexedHash == (if n == 0 then None else Some(n))
    && (forall h :: h in s.ledger.blocks ==> h > 0 && s.ledger.blocks[h].number == h - 1 && s.ledger.blocks[h].parentHash == h - 1)
  }

  lemma EarlyAccepted(s: Store, chain: Chain, n: nat)
    requires Sound(s, chain) && EarlyStore(s, n)
    ensures Genuine(s, Append(Early(n))) && Ledger.StoreBlock(s.ledger, Early(n)).Success?
  {
    assert n > 0 ==> chain[n - 1].hash == n;
    StoreAcceptsExactly(s.ledger, chain, Early(n));
  }

  lemma StoreEarly(s: Store, chain: Chain, n: nat)
    requires Sound(s, chain) && EarlyStore(s, n)
    ensures Genuine(s, Append(Early(n))) && StoreBlock(s, Early(n)).Success? && EarlyStore(StoreBlock(s, Early(n)).value, n + 1)
  {
    EarlyAccepted(s, chain, n);
    EarlyStored(s, n);
  }

  lemma EarlyStored(s: Store, n: nat)
    requires EarlyStore(s, n) && Ledger.StoreBlock(s.ledger, Early(n)).Success?
    ensures StoreBlock(s, Early(n)).Success? && EarlyStore(StoreBlock(s, Early(n)).value, n + 1)
  {
    assert Registry.Store(s.registry, Early(n)) == Success(s.registry);
  }

  ghost predicate EarlyRun(steps: seq<Step>, n: nat) {
    && GenuineRun(Created(0), steps) && Ascending(Created(0), steps) && EarlyStore(Run(Created(0), steps), n)
    && Through(Created(0), steps) == if n == 0 then 0 else 9
  }

  lemma EarlyRunGoesOn(steps: seq<Step>, n: nat)
    requires EarlyRun(steps, n)
    ensures EarlyRun(steps + [Append(Early(n))], n + 1)
  {
    var step, longer := Append(Early(n)), steps + [Append(Early(n))];
    RunIsSound(0, steps);
    StoreEarly(Run(Created(0), steps), History(Created(0), steps), n);
    assert longer[..|steps|] == steps;
    assert forall i :: 0 <= i < |steps| ==> longer[..i] == steps[..i] && longer[i] == steps[i];
  }

  lemma CatchingUpIsEarly()
    ensures EarlyRun(CatchingUp(), 3)
  {
    EarlyRunGoesOn([], 0);
    EarlyRunGoesOn([] + [Append(Early(0))], 1);
    EarlyRunGoesOn([] + [Append(Early(0))] + [Append(Early(1))], 2);
    assert [] + [Append(Early(0))] + [Append(Early(1))] + [Append(Early(2))] == CatchingUp();
  }

  /** A rewind inside the window that is legal and takes a final block away. */
  ghost predicate LegalLoss(l: Ledger.Ledger, confirmationDepth: nat, ancestor: int) {
    && ReorgSearchFloor(l.startBlock, Tip(l), confirmationDepth) <= ancestor < Tip(l)
    && (exists hash :: Ledger.Rewind(l, ancestor, Some(hash)).Success?)
    && OrphansFinal(l, ancestor)
  }

  lemma AboveTheFloorIsLost(l: Ledger.Ledger, chain: Chain, through: nat, confirmationDepth: nat)
    requires Holds(l, chain) && FinalizedExactly(l, through) && l.indexedBlock.Some?
    requires ReorgSearchFloor(l.startBlock, Tip(l), confirmationDepth) < Min(through, Tip(l))
    ensures exists ancestor :: LegalLoss(l, confirmationDepth, ancestor)
  {
    WindowSparesFinalExactly(l, chain, through, confirmationDepth);
    var ancestor :| ReorgSearchFloor(l.startBlock, Tip(l), confirmationDepth) <= ancestor < Tip(l) && OrphansFinal(l, ancestor);
    assert ancestor in chain;
    RewindAcceptsExactly(l, chain, ancestor, Some(chain[ancestor].hash));
    assert LegalLoss(l, confirmationDepth, ancestor);
  }

  /** While the scanner catches up, blocks are final as soon as they are stored, and the window, counted
      from the checkpoint, reaches below them. */
  lemma CatchingUpLosesFinal()
    ensures GenuineRun(Created(0), CatchingUp()) && Ascending(Created(0), CatchingUp())
    ensures exists ancestor :: LegalLoss(Run(Created(0), CatchingUp()).ledger, 1, ancestor)
  {
    CatchingUpIsEarly();
    RunIsSound(0, CatchingUp());
    RunFinalizesExactly(0, CatchingUp());
    AboveTheFloorIsLost(Run(Created(0), CatchingUp()).ledger, History(Created(0), CatchingUp()), 9, 1);
  }
}
