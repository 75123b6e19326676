/** One segment of the scan: the widest range the node serves, planned and queried, and the logs by block. */
module Segments {
  import opened Records
  import opened World
  import opened LogScan
  import opened Node
  import opened Planner
  import opened Queries

  datatype LogSegment = LogSegment(toBlock: int, logs: seq<FetchedLog>, plan: Plan)

  predicate Scannable(cs: seq<Source>, fromBlock: nat, startBlock: nat) {
    && startBlock <= fromBlock
    && (forall i :: 0 <= i < |cs| ==> cs[i].row.checkedBlock.Some? ==> 0 <= cs[i].row.checkedBlock.value < fromBlock)
  }

  /** Planning and querying one range. */
  function SegmentAnswer(rpc: Rpc, cs: seq<Source>, startBlock: nat, unavailable: set<Address>, from: int, to: int): Answer<FetchedLog>
    requires Checkable(cs)
  {
    if from < 0 || to < 0 then Answer.Refused
    else
      match PlanLogScan(cs, from, to, startBlock, rpc.codeAt, unavailable)
      case Failure(e) => if e.splittable then TooWide else Answer.Refused
      case Success(plan) => QueryLogs(rpc, to, plan.inputs)
  }

  function SegmentQuery(rpc: Rpc, cs: seq<Source>, startBlock: nat, unavailable: set<Address>): (int, int) -> Answer<FetchedLog>
    requires Checkable(cs)
  {
    (a, b) => SegmentAnswer(rpc, cs, startBlock, unavailable, a, b)
  }

  /** The widest range that halving arrives at; there is none only if the node refuses for good. */
  method GetNextLogSegment(rpc: Rpc, cs: seq<Source>, fromBlock: nat, maximumToBlock: int, startBlock: nat,
                           unavailable: set<Address>, rangeSize: nat)
    returns (segment: Option<LogSegment>)
    requires rangeSize > 0 && fromBlock <= maximumToBlock && Scannable(cs, fromBlock, startBlock) && Checkable(cs)
    ensures segment.Some? ==>
      var s := segment.value;
      && fromBlock <= s.toBlock <= Min(maximumToBlock, fromBlock + rangeSize - 1)
      && PlanLogScan(cs, fromBlock, s.toBlock, startBlock, rpc.codeAt, unavailable) == Success(s.plan)
      && QueryLogs(rpc, s.toBlock, s.plan.inputs) == Items(s.logs)
    ensures segment.None? ==> Stuck(SegmentQuery(rpc, cs, startBlock, unavailable), fromBlock, maximumToBlock)
    ensures SegmentAnswer(rpc, cs, startBlock, unavailable, fromBlock, Min(maximumToBlock, fromBlock + rangeSize - 1)).Items? ==>
      segment.Some? && segment.value.toBlock == Min(maximumToBlock, fromBlock + rangeSize - 1)
    ensures cs == [] ==> segment.Some? && segment.value.toBlock == Min(maximumToBlock, fromBlock + rangeSize - 1)
  {
    if cs == [] {
      assert InOrder(Unique([])) == [] && Starts([]) == [];
      return Some(LogSegment(Min(maximumToBlock, fromBlock + rangeSize - 1), [], Plan([], [])));
    }
    var answer := QueryAdaptiveLogRange(fromBlock, maximumToBlock, rangeSize, SegmentQuery(rpc, cs, startBlock, unavailable));
    if answer.Failure? {
      return None;
    }
    var toBlock := answer.value.toBlock;
    segment := Some(LogSegment(toBlock, answer.value.items,
                               PlanLogScan(cs, fromBlock, toBlock, startBlock, rpc.codeAt, unavailable).value));
  }

  // ---------------------------------------------------------------- what the segment holds

  predicate PlansPart(plan: Plan, part: Plan) {
    && (forall i :: 0 <= i < |part.inputs| ==> part.inputs[i] in plan.inputs)
    && (forall i :: 0 <= i < |part.observations| ==> part.observations[i] in plan.observations)
  }

  /** A plan is what its contracts' plans add up to. */
  lemma {:induction false} PlanHasPart(cs: seq<Source>, fromBlock: nat, toBlock: nat, startBlock: nat, codeAt: (Address, nat) -> CodeRead,
                                      unavailable: set<Address>, i: nat)
    requires Checkable(cs) && i < |cs|
    requires PlanLogScan(cs, fromBlock, toBlock, startBlock, codeAt, unavailable).Success?
    ensures PlanContract(cs[i], fromBlock, toBlock, startBlock, codeAt, unavailable).Success?
    ensures PlansPart(PlanLogScan(cs, fromBlock, toBlock, startBlock, codeAt, unavailable).value,
                      PlanContract(cs[i], fromBlock, toBlock, startBlock, codeAt, unavailable).value)
  {
    if i < |cs| - 1 {
      PlanHasPart(cs[..|cs| - 1], fromBlock, toBlock, startBlock, codeAt, unavailable, i);
    }
  }

  /** Every input and every observation of a plan comes from one of its contracts. */
  lemma {:induction false} PlanIsParts(cs: seq<Source>, fromBlock: nat, toBlock: nat, startBlock: nat, codeAt: (Address, nat) -> CodeRead,
                                      unavailable: set<Address>)
    requires Checkable(cs)
    requires PlanLogScan(cs, fromBlock, toBlock, startBlock, codeAt, unavailable).Success?
    ensures var plan := PlanLogScan(cs, fromBlock, toBlock, startBlock, codeAt, unavailable).value;
            && (forall k :: 0 <= k < |plan.inputs| ==>
                  exists i :: 0 <= i < |cs| && FromContract(cs[i], fromBlock, toBlock, startBlock, codeAt, unavailable, plan.inputs[k]))
            && (forall k :: 0 <= k < |plan.observations| ==>
                  exists i :: 0 <= i < |cs| && ObservedFor(cs[i], fromBlock, toBlock, startBlock, codeAt, unavailable, plan.observations[k]))
  {
    if cs != [] {
      var front := cs[..|cs| - 1];
      PlanIsParts(front, fromBlock, toBlock, startBlock, codeAt, unavailable);
      var before := PlanLogScan(front, fromBlock, toBlock, startBlock, codeAt, unavailable).value;
      var plan := PlanLogScan(cs, fromBlock, toBlock, startBlock, codeAt, unavailable).value;
      forall k | 0 <= k < |plan.inputs|
        ensures exists i :: 0 <= i < |cs| && FromContract(cs[i], fromBlock, toBlock, startBlock, codeAt, unavailable, plan.inputs[k])
      {
        if k < |before.inputs| {
          var i :| 0 <= i < |front| && FromContract(front[i], fromBlock, toBlock, startBlock, codeAt, unavailable, before.inputs[k]);
          assert front[i] == cs[i];
        } else {
          assert FromContract(cs[|cs| - 1], fromBlock, toBlock, startBlock, codeAt, unavailable, plan.inputs[k]);
        }
      }
      forall k | 0 <= k < |plan.observations|
        ensures exists i :: 0 <= i < |cs| && ObservedFor(cs[i], fromBlock, toBlock, startBlock, codeAt, unavailable, plan.observations[k])
      {
        if k < |before.observations| {
          var i :| 0 <= i < |front| && ObservedFor(front[i], fromBlock, toBlock, startBlock, codeAt, unavailable, before.observations[k]);
          assert front[i] == cs[i];
        } else {
          assert ObservedFor(cs[|cs| - 1], fromBlock, toBlock, startBlock, codeAt, unavailable, plan.observations[k]);
        }
      }
    }
  }

  predicate FromContract(c: Source, fromBlock: nat, toBlock: nat, startBlock: nat, codeAt: (Address, nat) -> CodeRead,
                         unavailable: set<Address>, input: LogScanInput)
    requires c.row.checkedBlock.Some? ==> c.row.checkedBlock.value >= 0
  {
    var part := PlanContract(c, fromBlock, toBlock, startBlock, codeAt, unavailable);
    part.Success? && input in part.value.inputs
  }

  predicate ObservedFor(c: Source, fromBlock: nat, toBlock: nat, startBlock: nat, codeAt: (Address, nat) -> CodeRead,
                        unavailable: set<Address>, o: DeploymentObservation)
    requires c.row.checkedBlock.Some? ==> c.row.checkedBlock.value >= 0
  {
    var part := PlanContract(c, fromBlock, toBlock, startBlock, codeAt, unavailable);
    part.Success? && o in part.value.observations
  }

  /** Among the logs is one from every transaction of block `n` in which `a` emits something. */
  ghost predicate FoundFor(node: Node, logs: seq<FetchedLog>, a: Address, n: int) {
    forall x :: OnNode(node, x) && x.emitter == a && x.number == n ==>
      exists y :: y in logs && y.number == n && y.transactionHash == x.transactionHash
  }

  /** All input starts of a plan lie in the segment. */
  lemma PlanBounded(cs: seq<Source>, fromBlock: nat, toBlock: nat, startBlock: nat, codeAt: (Address, nat) -> CodeRead, unavailable: set<Address>)
    requires Checkable(cs) && Scannable(cs, fromBlock, startBlock) && fromBlock <= toBlock
    requires PlanLogScan(cs, fromBlock, toBlock, startBlock, codeAt, unavailable).Success?
    ensures Bounded(PlanLogScan(cs, fromBlock, toBlock, startBlock, codeAt, unavailable).value.inputs, toBlock)
    ensures forall input :: input in PlanLogScan(cs, fromBlock, toBlock, startBlock, codeAt, unavailable).value.inputs ==> fromBlock <= input.fromBlock
  {
    var inputs := PlanLogScan(cs, fromBlock, toBlock, startBlock, codeAt, unavailable).value.inputs;
    PlanIsParts(cs, fromBlock, toBlock, startBlock, codeAt, unavailable);
    forall k | 0 <= k < |inputs|
      ensures fromBlock <= inputs[k].fromBlock <= toBlock
    {
      var i :| 0 <= i < |cs| && FromContract(cs[i], fromBlock, toBlock, startBlock, codeAt, unavailable, inputs[k]);
      InputInSegment(cs[i], fromBlock, toBlock, startBlock, codeAt, unavailable);
    }
  }

  lemma InputInSegment(c: Source, fromBlock: nat, toBlock: nat, startBlock: nat, codeAt: (Address, nat) -> CodeRead, unavailable: set<Address>)
    requires Plannable(c, fromBlock, toBlock, startBlock)
    requires PlanContract(c, fromBlock, toBlock, startBlock, codeAt, unavailable).Success?
    ensures var plan := PlanContract(c, fromBlock, toBlock, startBlock, codeAt, unavailable).value;
            && |plan.inputs| <= 1 && |plan.observations| <= 1
            && (plan.inputs != [] ==> plan.inputs[0].address == c.address && fromBlock <= plan.inputs[0].fromBlock <= toBlock
                                      && startBlock <= plan.inputs[0].startBlock <= toBlock)
            && (plan.inputs != [] && KnownStart(c.row).Some? ==> plan.inputs[0].startBlock == Max(KnownStart(c.row).value, startBlock))
            && (plan.observations != [] ==>
                  && KnownStart(c.row).None? && plan.observations[0].contractAddress == c.address
                  && plan.observations[0].checkedBlock == toBlock
                  && (plan.observations[0].deployment.Some? ==> 0 <= plan.observations[0].deployment.value.block <= toBlock))
  {
    var checked := c.row.checkedBlock.Some?;
    var searchStart: nat := if checked then c.row.checkedBlock.value else startBlock;
    if KnownStart(c.row).None? && c.address !in unavailable {
      SearchFinds(searchStart, toBlock, (m: nat) => codeAt(c.address, m), checked);
    }
  }

  /** The segment holds a log from every transaction in which a planned contract emits something,
      wherever that is wanted. */
  lemma SegmentFinds(node: Node, rpc: Rpc, cs: seq<Source>, fromBlock: nat, toBlock: nat, startBlock: nat, unavailable: set<Address>, i: nat, n: int)
    requires HonestRpc(node, rpc) && TransactionsOnce(node)
    requires Checkable(cs) && Scannable(cs, fromBlock, startBlock) && fromBlock <= toBlock < |node.headers| && i < |cs|
    requires CodeStays(node, cs[i].address) && QuietWithoutCode(node, cs[i].address)
    requires !GenesisCode(cs[i], toBlock, startBlock, rpc.codeAt, unavailable)
    requires SegmentAnswer(rpc, cs, startBlock, unavailable, fromBlock, toBlock).Items?
    requires fromBlock <= n <= toBlock && WantedFrom(cs[i], startBlock) <= n
    ensures FoundFor(node, SegmentAnswer(rpc, cs, startBlock, unavailable, fromBlock, toBlock).items, cs[i].address, n)
  {
    var plan := PlanLogScan(cs, fromBlock, toBlock, startBlock, rpc.codeAt, unavailable).value;
    var logs := SegmentAnswer(rpc, cs, startBlock, unavailable, fromBlock, toBlock).items;
    PlanHasPart(cs, fromBlock, toBlock, startBlock, rpc.codeAt, unavailable, i);
    PlanBounded(cs, fromBlock, toBlock, startBlock, rpc.codeAt, unavailable);
    PlanAsksExactly(node, rpc, cs[i], fromBlock, toBlock, startBlock, unavailable);
    forall x | OnNode(node, x) && x.emitter == cs[i].address && x.number == n
      ensures exists y :: y in logs && y.number == n && y.transactionHash == x.transactionHash
    {
      OnNodeEmits(node, x);
      QueryFindsExactly(node, rpc, toBlock, plan.inputs, x);
      var part := PlanContract(cs[i], fromBlock, toBlock, startBlock, rpc.codeAt, unavailable).value;
      var k :| 0 <= k < |part.inputs| && part.inputs[k].address == x.emitter && part.inputs[k].fromBlock <= n;
      assert part.inputs[k] in plan.inputs;
      var y :| y in logs && SameLog(x, y);
      QueryFindsExactly(node, rpc, toBlock, plan.inputs, y);
    }
  }

  lemma OnNodeEmits(node: Node, x: FetchedLog)
    requires OnNode(node, x)
    ensures EmitsIn(node, x.emitter, x.number)
  {
    var r, l :| LogAt(node.world, x.number, x.blockHash, r, l, x);
    assert EmitsAt(node.world, x.emitter, node.headers[x.number].hash, x.logIndex, r, l);
    assert Emits(node.world, x.emitter, node.headers[x.number].hash, x.logIndex);
  }

  // ---------------------------------------------------------------- being served

  /** A code read that fails ends the scan, unless it may be tried on a narrower range. */
  lemma FailedReadNarrows(rpc: Rpc, cs: seq<Source>, fromBlock: nat, toBlock: nat, startBlock: nat, unavailable: set<Address>)
    requires Checkable(cs) && PlanLogScan(cs, fromBlock, toBlock, startBlock, rpc.codeAt, unavailable).Failure?
    ensures var answer := SegmentAnswer(rpc, cs, startBlock, unavailable, fromBlock, toBlock);
            !answer.Items? && exists a, n :: rpc.codeAt(a, n) == ReadFailed(answer.TooWide?)
  {
    FailedPlanHasRead(cs, fromBlock, toBlock, startBlock, rpc.codeAt, unavailable);
  }

  lemma {:induction false} FailedPlanHasRead(cs: seq<Source>, fromBlock: nat, toBlock: nat, startBlock: nat, codeAt: (Address, nat) -> CodeRead,
                                            unavailable: set<Address>)
    requires Checkable(cs) && PlanLogScan(cs, fromBlock, toBlock, startBlock, codeAt, unavailable).Failure?
    ensures exists a, n :: codeAt(a, n) == ReadFailed(PlanLogScan(cs, fromBlock, toBlock, startBlock, codeAt, unavailable).error.splittable)
  {
    if PlanLogScan(cs[..|cs| - 1], fromBlock, toBlock, startBlock, codeAt, unavailable).Failure? {
      FailedPlanHasRead(cs[..|cs| - 1], fromBlock, toBlock, startBlock, codeAt, unavailable);
    } else {
      var c := cs[|cs| - 1];
      var checked := c.row.checkedBlock.Some?;
      var from: nat := if checked then c.row.checkedBlock.value else startBlock;
      SearchFailsFor(from, toBlock, (n: nat) => codeAt(c.address, n), checked);
      var n :| from <= n <= toBlock && ((n: nat) => codeAt(c.address, n))(n)
          == ReadFailed(DeploymentSearch(from, toBlock, (n: nat) => codeAt(c.address, n), checked).splittable);
      assert codeAt(c.address, n).ReadFailed?;
    }
  }

  /** No address has two different rows. */
  predicate OneRowEach(cs: seq<Source>) {
    forall i, j :: 0 <= i < |cs| && 0 <= j < |cs| && cs[i].address == cs[j].address ==> cs[i] == cs[j]
  }

  lemma PlanSucceeds(cs: seq<Source>, fromBlock: nat, toBlock: nat, startBlock: nat, codeAt: (Address, nat) -> CodeRead, unavailable: set<Address>)
    requires Checkable(cs) && forall a, n :: !codeAt(a, n).ReadFailed?
    ensures PlanLogScan(cs, fromBlock, toBlock, startBlock, codeAt, unavailable).Success?
  {
    if PlanLogScan(cs, fromBlock, toBlock, startBlock, codeAt, unavailable).Failure? {
      FailedPlanHasRead(cs, fromBlock, toBlock, startBlock, codeAt, unavailable);
      assert false;
    }
  }

  /** Every input is the only one of one of the sources. */
  lemma InputIsOfSource(cs: seq<Source>, fromBlock: nat, toBlock: nat, startBlock: nat, codeAt: (Address, nat) -> CodeRead,
                        unavailable: set<Address>, k: nat) returns (i: nat)
    requires Checkable(cs) && Scannable(cs, fromBlock, startBlock) && fromBlock <= toBlock
    requires PlanLogScan(cs, fromBlock, toBlock, startBlock, codeAt, unavailable).Success?
    requires k < |PlanLogScan(cs, fromBlock, toBlock, startBlock, codeAt, unavailable).value.inputs|
    ensures i < |cs| && cs[i].address == PlanLogScan(cs, fromBlock, toBlock, startBlock, codeAt, unavailable).value.inputs[k].address
    ensures var part := PlanContract(cs[i], fromBlock, toBlock, startBlock, codeAt, unavailable);
            part.Success? && part.value.inputs == [PlanLogScan(cs, fromBlock, toBlock, startBlock, codeAt, unavailable).value.inputs[k]]
  {
    var inputs := PlanLogScan(cs, fromBlock, toBlock, startBlock, codeAt, unavailable).value.inputs;
    PlanIsParts(cs, fromBlock, toBlock, startBlock, codeAt, unavailable);
    i :| 0 <= i < |cs| && FromContract(cs[i], fromBlock, toBlock, startBlock, codeAt, unavailable, inputs[k]);
    InputInSegment(cs[i], fromBlock, toBlock, startBlock, codeAt, unavailable);
  }

  lemma PlanStartsOnce(cs: seq<Source>, fromBlock: nat, toBlock: nat, startBlock: nat, codeAt: (Address, nat) -> CodeRead, unavailable: set<Address>)
    requires Checkable(cs) && Scannable(cs, fromBlock, startBlock) && fromBlock <= toBlock && OneRowEach(cs)
    requires PlanLogScan(cs, fromBlock, toBlock, startBlock, codeAt, unavailable).Success?
    ensures OneStartEach(PlanLogScan(cs, fromBlock, toBlock, startBlock, codeAt, unavailable).value.inputs)
  {
    var inputs := PlanLogScan(cs, fromBlock, toBlock, startBlock, codeAt, unavailable).value.inputs;
    forall k, l | 0 <= k < |inputs| && 0 <= l < |inputs| && inputs[k].address == inputs[l].address
      ensures inputs[k].fromBlock == inputs[l].fromBlock
    {
      var i := InputIsOfSource(cs, fromBlock, toBlock, startBlock, codeAt, unavailable, k);
      var j := InputIsOfSource(cs, fromBlock, toBlock, startBlock, codeAt, unavailable, l);
      assert cs[i] == cs[j];
      assert [inputs[k]] == [inputs[l]];
    }
  }

  /** An obliging node serves some prefix of every range. */
  lemma SegmentServed(node: Node, rpc: Rpc, cs: seq<Source>, fromBlock: nat, toBlock: nat, startBlock: nat, unavailable: set<Address>)
    requires HonestRpc(node, rpc) && Obliging(rpc) && OneRowEach(cs)
    requires Checkable(cs) && Scannable(cs, fromBlock, startBlock) && fromBlock <= toBlock
    ensures var answer := SegmentAnswer(rpc, cs, startBlock, unavailable, fromBlock, toBlock);
            !answer.Refused? && (fromBlock == toBlock ==> answer.Items?)
  {
    PlanSucceeds(cs, fromBlock, toBlock, startBlock, rpc.codeAt, unavailable);
    PlanBounded(cs, fromBlock, toBlock, startBlock, rpc.codeAt, unavailable);
    PlanStartsOnce(cs, fromBlock, toBlock, startBlock, rpc.codeAt, unavailable);
    var inputs := PlanLogScan(cs, fromBlock, toBlock, startBlock, rpc.codeAt, unavailable).value.inputs;
    QueryServed(node, rpc, toBlock, inputs);
  }

  lemma NeverStuck(node: Node, rpc: Rpc, cs: seq<Source>, fromBlock: nat, toBlock: nat, startBlock: nat, unavailable: set<Address>)
    requires HonestRpc(node, rpc) && Obliging(rpc) && OneRowEach(cs)
    requires Checkable(cs) && Scannable(cs, fromBlock, startBlock)
    ensures !Stuck(SegmentQuery(rpc, cs, startBlock, unavailable), fromBlock, toBlock)
  {
    forall end: int | fromBlock <= end <= toBlock
      ensures !SegmentAnswer(rpc, cs, startBlock, unavailable, fromBlock, end).Refused?
      ensures end == fromBlock ==> SegmentAnswer(rpc, cs, startBlock, unavailable, fromBlock, end).Items?
    {
      SegmentServed(node, rpc, cs, fromBlock, end, startBlock, unavailable);
    }
  }
}
