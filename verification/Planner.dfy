/** From where on each known contract has to be asked for its logs, and what may be claimed once a
    segment is stored. */
module Planner {
  import opened Records
  import opened World
  import opened LogScan
  import opened Node
  import Registry

  /** A contract as the indexer has it in memory: the configured deployment, if any, is laid over the stored one. */
  datatype Source = Source(address: Address, row: Registry.ContractRow)

  datatype LogScanInput = LogScanInput(address: Address, fromBlock: int, startBlock: int)

  datatype Plan = Plan(inputs: seq<LogScanInput>, observations: seq<DeploymentObservation>)

  /** Reading code failed; whether a narrower range may be tried. */
  datatype PlanError = PlanError(splittable: bool)

  function KnownStart(row: Registry.ContractRow): Option<int> {
    if row.deployment.Some? then Some(row.deployment.value.block)
    else if row.discovery.Some? then Some(row.discovery.value.block)
    else None
  }

  function WholeSegment(c: Source, fromBlock: int, startBlock: int): Plan {
    Plan([LogScanInput(c.address, fromBlock,
                       Max(if c.row.discovery.Some? then c.row.discovery.value.block else startBlock, startBlock))], [])
  }

  function PlanContract(c: Source, fromBlock: nat, toBlock: nat, startBlock: nat, codeAt: (Address, nat) -> CodeRead,
                        historicalCodeUnavailable: set<Address>): Result<Plan, PlanError>
    requires c.row.checkedBlock.Some? ==> c.row.checkedBlock.value >= 0
  {
    var known := KnownStart(c.row);
    if known.Some? then
      var coverageStart := Max(known.value, startBlock);
      Success(Plan(if coverageStart > toBlock then []
                else [LogScanInput(c.address, Max(coverageStart, fromBlock), coverageStart)], []))
    else if c.address in historicalCodeUnavailable then Success(WholeSegment(c, fromBlock, startBlock))
    else
      var checked := c.row.checkedBlock.Some?;
      var searchStart: nat := if checked then c.row.checkedBlock.value else startBlock;
      if toBlock <= searchStart && !checked then Success(Plan([LogScanInput(c.address, fromBlock, startBlock)], []))
      else
        match DeploymentSearch(searchStart, toBlock, (n: nat) => codeAt(c.address, n), checked)
        case SearchFailed(splittable) => Failure(PlanError(splittable))
        case Unavailable => Success(WholeSegment(c, fromBlock, startBlock))
        case NotFound => Success(Plan([], [DeploymentObservation(c.address, toBlock, None)]))
        case Found(d) =>
          Success(Plan([LogScanInput(c.address, Max(d.block, fromBlock), Max(d.block, startBlock))],
                    [DeploymentObservation(c.address, toBlock, Some(d))]))
  }

  predicate Checkable(cs: seq<Source>) {
    forall i :: 0 <= i < |cs| && cs[i].row.checkedBlock.Some? ==> cs[i].row.checkedBlock.value >= 0
  }

  function PlanLogScan(cs: seq<Source>, fromBlock: nat, toBlock: nat, startBlock: nat, codeAt: (Address, nat) -> CodeRead,
                       historicalCodeUnavailable: set<Address>): Result<Plan, PlanError>
    requires Checkable(cs)
  {
    if cs == [] then Success(Plan([], []))
    else
      var front := PlanLogScan(cs[..|cs| - 1], fromBlock, toBlock, startBlock, codeAt, historicalCodeUnavailable);
      var last := PlanContract(cs[|cs| - 1], fromBlock, toBlock, startBlock, codeAt, historicalCodeUnavailable);
      if front.Failure? then front
      else if last.Failure? then last
      else Success(Plan(front.value.inputs + last.value.inputs, front.value.observations + last.value.observations))
  }

  // ---------------------------------------------------------------- what a plan asks for

  predicate Asked(plan: Plan, a: Address, n: int) {
    exists i :: 0 <= i < |plan.inputs| && plan.inputs[i].address == a && plan.inputs[i].fromBlock <= n
  }

  /** The first block of which a contract's logs are wanted. */
  function WantedFrom(c: Source, startBlock: nat): int {
    var known := KnownStart(c.row);
    if known.Some? then Max(known.value, startBlock) else startBlock
  }

  /** Code at block 0 that nothing on file accounts for: the planner takes it for a node that cannot
      serve history, and the contract for not deployed. */
  predicate GenesisCode(c: Source, toBlock: nat, startBlock: nat, codeAt: (Address, nat) -> CodeRead, historicalCodeUnavailable: set<Address>) {
    && KnownStart(c.row).None? && c.address !in historicalCodeUnavailable && c.row.checkedBlock.None?
    && startBlock == 0 && toBlock > 0 && codeAt(c.address, toBlock) == Code(true) && codeAt(c.address, 0) == Code(true)
  }

  ghost predicate EmitsIn(node: Node, a: Address, n: int) {
    0 <= n < |node.headers| && exists i :: Emits(node.world, a, node.headers[n].hash, i)
  }

  /** Every log wanted from the segment is asked for. */
  ghost predicate AsksForAll(node: Node, plan: Plan, c: Source, fromBlock: int, toBlock: int, startBlock: nat) {
    forall n :: EmitsIn(node, c.address, n) && fromBlock <= n <= toBlock && WantedFrom(c, startBlock) <= n ==>
      Asked(plan, c.address, n)
  }

  /** A log is only emitted where there is code, now and at every later block. */
  lemma EmitterHasCode(node: Node, rpc: Rpc, a: Address, n: int, m: nat)
    requires HonestRpc(node, rpc) && CodeStays(node, a) && QuietWithoutCode(node, a)
    requires EmitsIn(node, a, n) && n <= m < |node.headers| && rpc.codeAt(a, m).Code?
    ensures rpc.codeAt(a, m) == Code(true)
  {
  }

  lemma SilentWithoutCode(node: Node, rpc: Rpc, a: Address, m: nat)
    requires HonestRpc(node, rpc) && CodeStays(node, a) && QuietWithoutCode(node, a)
    requires m < |node.headers| && rpc.codeAt(a, m) == Code(false)
    ensures forall n :: n <= m ==> !EmitsIn(node, a, n)
  {
  }

  predicate Plannable(c: Source, fromBlock: nat, toBlock: nat, startBlock: nat) {
    && startBlock <= fromBlock <= toBlock
    && (c.row.checkedBlock.Some? ==> 0 <= c.row.checkedBlock.value < fromBlock)
  }

  /** A contract whose deployment has to be looked for, and no code at block 0 to be mistaken about. */
  lemma SearchedPlanAsks(node: Node, rpc: Rpc, c: Source, fromBlock: nat, toBlock: nat, startBlock: nat, n: int)
    requires HonestRpc(node, rpc) && CodeStays(node, c.address) && QuietWithoutCode(node, c.address)
    requires Plannable(c, fromBlock, toBlock, startBlock) && toBlock < |node.headers|
    requires KnownStart(c.row).None?
    requires PlanContract(c, fromBlock, toBlock, startBlock, rpc.codeAt, {}).Success?
    requires !GenesisCode(c, toBlock, startBlock, rpc.codeAt, {})
    requires EmitsIn(node, c.address, n) && fromBlock <= n <= toBlock
    ensures Asked(PlanContract(c, fromBlock, toBlock, startBlock, rpc.codeAt, {}).value, c.address, n)
  {
    var plan := PlanContract(c, fromBlock, toBlock, startBlock, rpc.codeAt, {}).value;
    var checked := c.row.checkedBlock.Some?;
    var searchStart: nat := if checked then c.row.checkedBlock.value else startBlock;
    if searchStart < toBlock {
      var codeAt := (m: nat) => rpc.codeAt(c.address, m);
      SearchFinds(searchStart, toBlock, codeAt, checked);
      var search := DeploymentSearch(searchStart, toBlock, codeAt, checked);
      if codeAt(toBlock).Code? {
        EmitterHasCode(node, rpc, c.address, n, toBlock);
      }
      if search.Found? && search.deployment.exact && Holds(codeAt, search.deployment.block - 1, false) {
        SilentWithoutCode(node, rpc, c.address, search.deployment.block - 1);
      }
    }
    assert |plan.inputs| == 1 && plan.inputs[0].fromBlock <= n;
  }

  /** A plan asks for every log the segment holds from the wanted start on, exactly unless code at
      block 0 was explained away although the contract is emitting. */
  lemma PlanAsksExactly(node: Node, rpc: Rpc, c: Source, fromBlock: nat, toBlock: nat, startBlock: nat, historicalCodeUnavailable: set<Address>)
    requires HonestRpc(node, rpc) && CodeStays(node, c.address) && QuietWithoutCode(node, c.address)
    requires Plannable(c, fromBlock, toBlock, startBlock) && toBlock < |node.headers|
    requires PlanContract(c, fromBlock, toBlock, startBlock, rpc.codeAt, historicalCodeUnavailable).Success?
    ensures AsksForAll(node, PlanContract(c, fromBlock, toBlock, startBlock, rpc.codeAt, historicalCodeUnavailable).value,
                       c, fromBlock, toBlock, startBlock) <==>
            !(&& GenesisCode(c, toBlock, startBlock, rpc.codeAt, historicalCodeUnavailable)
              && exists n :: EmitsIn(node, c.address, n) && fromBlock <= n <= toBlock)
  {
    var plan := PlanContract(c, fromBlock, toBlock, startBlock, rpc.codeAt, historicalCodeUnavailable).value;
    if GenesisCode(c, toBlock, startBlock, rpc.codeAt, historicalCodeUnavailable) {
      SearchFinds(startBlock, toBlock, (m: nat) => rpc.codeAt(c.address, m), false);
      assert plan.inputs == [];
    } else {
      forall n | EmitsIn(node, c.address, n) && fromBlock <= n <= toBlock && WantedFrom(c, startBlock) <= n
        ensures Asked(plan, c.address, n)
      {
        if KnownStart(c.row).None? && c.address !in historicalCodeUnavailable {
          SearchedPlanAsks(node, rpc, c, fromBlock, toBlock, startBlock, n);
        } else {
          assert |plan.inputs| == 1 && plan.inputs[0].fromBlock <= n;
        }
      }
    }
  }

  // ---------------------------------------------------------------- and nothing else

  /** Of a contract whose start is known exactly the blocks from there on are asked for, and nothing is
      looked for. */
  lemma KnownPlanExactly(c: Source, fromBlock: nat, toBlock: nat, startBlock: nat, codeAt: (Address, nat) -> CodeRead,
                         historicalCodeUnavailable: set<Address>, n: int)
    requires Plannable(c, fromBlock, toBlock, startBlock) && fromBlock <= n <= toBlock
    requires c.row.deployment.Some? || c.row.discovery.Some?
    ensures var plan := PlanContract(c, fromBlock, toBlock, startBlock, codeAt, historicalCodeUnavailable);
            && plan.Success? && plan.value.observations == []
            && (forall i :: 0 <= i < |plan.value.inputs| ==> plan.value.inputs[i].address == c.address && fromBlock <= plan.value.inputs[i].fromBlock)
            && (Asked(plan.value, c.address, n) <==>
                  if c.row.deployment.Some? then c.row.deployment.value.block <= n else c.row.discovery.value.block <= n)
  {
    var plan := PlanContract(c, fromBlock, toBlock, startBlock, codeAt, historicalCodeUnavailable).value;
    if plan.inputs != [] {
      assert plan.inputs[0].fromBlock <= n ==> Asked(plan, c.address, n);
    }
  }

  /** All code can be read, and stays. */
  ghost predicate Archive(rpc: Rpc, a: Address) {
    && (forall n :: rpc.codeAt(a, n).Code?)
    && (forall m, n :: m <= n && rpc.codeAt(a, m) == Code(true) ==> rpc.codeAt(a, n) == Code(true))
  }

  /** Of any other contract the first block with code is looked for, from the last check or the start on, and
      what is found is what is recorded and where the logs are asked for: nothing before code appears. There
      is nothing to look for in the start block itself, and code at block 0 is not believed. */
  lemma SearchedPlanExactly(rpc: Rpc, c: Source, fromBlock: nat, toBlock: nat, startBlock: nat, historicalCodeUnavailable: set<Address>, n: int)
    requires Plannable(c, fromBlock, toBlock, startBlock) && fromBlock <= n <= toBlock
    requires c.row.deployment.None? && c.row.discovery.None? && c.address !in historicalCodeUnavailable && Archive(rpc, c.address)
    requires c.row.checkedBlock.Some? ==> rpc.codeAt(c.address, c.row.checkedBlock.value) == Code(false)
    ensures var plan := PlanContract(c, fromBlock, toBlock, startBlock, rpc.codeAt, historicalCodeUnavailable);
            && plan.Success?
            && if c.row.checkedBlock.None? && toBlock == startBlock then
                 plan.value == Plan([LogScanInput(c.address, fromBlock, startBlock)], [])
               else
                 && |plan.value.observations| == 1
                 && var o := plan.value.observations[0];
                    && o.contractAddress == c.address && o.checkedBlock == toBlock
                    && if rpc.codeAt(c.address, toBlock) == Code(false) || (c.row.checkedBlock.None? && startBlock == 0 && rpc.codeAt(c.address, 0) == Code(true))
                       then o.deployment.None? && plan.value.inputs == []
                       else
                         && o.deployment.Some? && 0 <= o.deployment.value.block <= toBlock
                         && rpc.codeAt(c.address, o.deployment.value.block) == Code(true)
                         && (if o.deployment.value.exact
                             then o.deployment.value.block > 0 && rpc.codeAt(c.address, o.deployment.value.block - 1) == Code(false)
                             else c.row.checkedBlock.None? && o.deployment.value.block == startBlock)
                         && plan.value.inputs == [LogScanInput(c.address, Max(o.deployment.value.block, fromBlock), Max(o.deployment.value.block, startBlock))]
  {
    var checked := c.row.checkedBlock.Some?;
    var searchStart: nat := if checked then c.row.checkedBlock.value else startBlock;
    var codeAt := (m: nat) => rpc.codeAt(c.address, m);
    SearchFinds(searchStart, toBlock, codeAt, checked);
    SearchFailsFor(searchStart, toBlock, codeAt, checked);
    assert codeAt(toBlock) == rpc.codeAt(c.address, toBlock) && codeAt(0) == rpc.codeAt(c.address, 0);
  }

  /** Where old code cannot be read, everything in the segment is asked for and nothing recorded. */
  lemma UnreadablePlanExactly(c: Source, fromBlock: nat, toBlock: nat, startBlock: nat, codeAt: (Address, nat) -> CodeRead,
                              historicalCodeUnavailable: set<Address>)
    requires Plannable(c, fromBlock, toBlock, startBlock) && c.row.deployment.None? && c.row.discovery.None?
    requires c.address in historicalCodeUnavailable || codeAt(c.address, toBlock).HistoricalCodeUnavailable?
    requires c.row.checkedBlock.Some? || startBlock < toBlock
    ensures PlanContract(c, fromBlock, toBlock, startBlock, codeAt, historicalCodeUnavailable)
            == Success(Plan([LogScanInput(c.address, fromBlock, startBlock)], []))
  {
  }
}
