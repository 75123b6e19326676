/** What is claimed about retrieved history once a segment is stored. */
module Cursors {
  import opened Records
  import opened Rules
  import opened Planner
  import opened Coverage
  import LogScan
  import Registry

  predicate TracksFilteredHistory(kind: string) {
    kind == "reputationToken" || kind == "weth" || kind == "usdc"
  }

  /** The first input for an address. */
  function InputFor(inputs: seq<LogScanInput>, a: Address): (input: Option<LogScanInput>)
    ensures input.Some? ==> input.value in inputs && input.value.address == a
    ensures input.None? <==> forall i :: 0 <= i < |inputs| ==> inputs[i].address != a
  {
    if inputs == [] then None
    else if inputs[0].address == a then Some(inputs[0])
    else InputFor(inputs[1..], a)
  }

  /** Where the claim about a contract starts. */
  function ClaimStart(a: Address, row: Registry.ContractRow, inputs: seq<LogScanInput>, configuredStartBlock: int, coverageStartBlock: int): int {
    var input := InputFor(inputs, a);
    Max(configuredStartBlock,
        if input.Some? then input.value.startBlock
        else if row.deployment.Some? then row.deployment.value.block
        else if row.discovery.Some? then row.discovery.value.block
        else if TracksFilteredHistory(row.identity.kind) then coverageStartBlock
        else configuredStartBlock)
  }

  /** The cursor, if any, that the end of a segment writes for a contract. */
  function CursorFor(a: Address, row: Registry.ContractRow, inputs: seq<LogScanInput>, endBlock: int, configuredStartBlock: int,
                     coverageStartBlock: int): Option<LogScanCursor>
  {
    var kind := row.identity.kind;
    if && !TracksFilteredHistory(kind)
       && (!IsProtocolActivitySource(kind) || (InputFor(inputs, a).None? && row.discovery.None?))
    then None
    else
      var start := ClaimStart(a, row, inputs, configuredStartBlock, coverageStartBlock);
      if start > endBlock then None else Some(LogScanCursor(a, start, endBlock))
  }

  /** The claim is that of the blocks from `from`, or the configured start, on, if there are any. */
  ghost predicate Claims(cursor: Option<LogScanCursor>, a: Address, from: int, configuredStartBlock: int, endBlock: int) {
    cursor == if from <= endBlock && configuredStartBlock <= endBlock
              then Some(LogScanCursor(a, if from < configuredStartBlock then configuredStartBlock else from, endBlock))
              else None
  }

  /** Which contracts are claimed, and from where on: what was asked of it comes first, then its deployment,
      then its announcement. */
  lemma ClaimsExactly(a: Address, row: Registry.ContractRow, inputs: seq<LogScanInput>, endBlock: int, configuredStartBlock: int,
                      coverageStartBlock: int)
    ensures var cursor, kind := CursorFor(a, row, inputs, endBlock, configuredStartBlock, coverageStartBlock), row.identity.kind;
            var asked := exists i :: 0 <= i < |inputs| && inputs[i].address == a;
            if kind in {"multicall3", "proxyDeployer", "scalarOutcomes"} then cursor.None?
            else if kind !in {"reputationToken", "weth", "usdc"} && !asked && row.discovery.None? then cursor.None?
            else
              && (forall i :: 0 <= i < |inputs| && inputs[i].address == a && (forall j :: 0 <= j < i ==> inputs[j].address != a) ==>
                    Claims(cursor, a, inputs[i].startBlock, configuredStartBlock, endBlock))
              && (!asked && row.deployment.Some? ==> Claims(cursor, a, row.deployment.value.block, configuredStartBlock, endBlock))
              && (!asked && row.deployment.None? && row.discovery.Some? ==>
                    Claims(cursor, a, row.discovery.value.block, configuredStartBlock, endBlock))
              && (!asked && row.deployment.None? && row.discovery.None? ==> Claims(cursor, a, coverageStartBlock, configuredStartBlock, endBlock))
  {
    forall i | 0 <= i < |inputs| && inputs[i].address == a && (forall j :: 0 <= j < i ==> inputs[j].address != a)
      ensures InputFor(inputs, a) == Some(inputs[i])
    {
      FirstInput(inputs, a, i);
    }
  }

  lemma {:induction false} FirstInput(inputs: seq<LogScanInput>, a: Address, i: nat)
    requires i < |inputs| && inputs[i].address == a && forall j :: 0 <= j < i ==> inputs[j].address != a
    ensures InputFor(inputs, a) == Some(inputs[i])
  {
    if i > 0 {
      FirstInput(inputs[1..], a, i - 1);
    }
  }

  predicate IsCursor(contracts: Contracts, inputs: seq<LogScanInput>, endBlock: int, configuredStartBlock: int, coverageStartBlock: int,
                     c: LogScanCursor)
  {
    && c.contractAddress in contracts
    && CursorFor(c.contractAddress, contracts[c.contractAddress], inputs, endBlock, configuredStartBlock, coverageStartBlock) == Some(c)
  }

  /** The cursors of all contracts, one each. */
  method LogScanCursorUpdates(contracts: Contracts, inputs: seq<LogScanInput>, endBlock: int, configuredStartBlock: int, coverageStartBlock: int)
    returns (cursors: seq<LogScanCursor>)
    ensures forall c :: c in cursors <==> IsCursor(contracts, inputs, endBlock, configuredStartBlock, coverageStartBlock, c)
    ensures forall i, j :: 0 <= i < j < |cursors| ==> cursors[i].contractAddress != cursors[j].contractAddress
  {
    cursors := [];
    var rest := contracts.Keys;
    while rest != {}
      invariant rest <= contracts.Keys
      invariant forall c :: c in cursors <==>
                  c.contractAddress !in rest && IsCursor(contracts, inputs, endBlock, configuredStartBlock, coverageStartBlock, c)
      invariant forall i, j :: 0 <= i < j < |cursors| ==> cursors[i].contractAddress != cursors[j].contractAddress
      decreases |rest|
    {
      var a :| a in rest;
      rest := rest - {a};
      var cursor := CursorFor(a, contracts[a], inputs, endBlock, configuredStartBlock, coverageStartBlock);
      if cursor.Some? {
        cursors := cursors + [cursor.value];
      }
    }
  }

  /** A contract as the indexer holds it in memory: a configured deployment replaces the stored one,
      and otherwise a known deployment is not before the announcement. */
  predicate InMemory(startBlock: nat, configured: Overlay, a: Address, row: Registry.ContractRow) {
    if a in configured then row.deployment == Some(Deployment(configured[a], true)) else InOrder(startBlock, row)
  }

  /** Inputs start no earlier than what is covered, for contracts whose deployment is in order. */
  predicate InputsInOrder(startBlock: nat, configured: Overlay, contracts: Contracts, inputs: seq<LogScanInput>) {
    forall i :: 0 <= i < |inputs| && inputs[i].address in contracts ==>
      var a := inputs[i].address;
      InMemory(startBlock, configured, a, contracts[a]) ==> EffectiveStart(startBlock, configured, a, contracts[a]) <= inputs[i].startBlock
  }

  /** No claim reaches below the effective start of its contract. */
  lemma ClaimIsCovered(startBlock: nat, configured: Overlay, contracts: Contracts, inputs: seq<LogScanInput>, endBlock: int,
                       coverageStartBlock: int, c: LogScanCursor)
    requires IsCursor(contracts, inputs, endBlock, startBlock, coverageStartBlock, c)
    requires InputsInOrder(startBlock, configured, contracts, inputs)
    requires InMemory(startBlock, configured, c.contractAddress, contracts[c.contractAddress])
    ensures EffectiveStart(startBlock, configured, c.contractAddress, contracts[c.contractAddress]) <= c.startBlock
    ensures 0 <= c.startBlock <= c.lastRetrievedBlock == endBlock
  {
  }

  /** The plan's inputs for a contract whose deployment is known: each starts there. */
  predicate StartsAtDeployment(startBlock: nat, row: Registry.ContractRow, inputs: seq<LogScanInput>, a: Address) {
    row.deployment.Some? ==>
      forall i :: 0 <= i < |inputs| && inputs[i].address == a ==> inputs[i].startBlock == Max(row.deployment.value.block, startBlock)
  }

  /** What the planner asks of such a contract. */
  lemma PlanStartsAtDeployment(c: Source, fromBlock: nat, toBlock: nat, startBlock: nat, codeAt: (Address, nat) -> LogScan.CodeRead,
                               historicalCodeUnavailable: set<Address>)
    requires c.row.checkedBlock.Some? ==> c.row.checkedBlock.value >= 0
    ensures var plan := PlanContract(c, fromBlock, toBlock, startBlock, codeAt, historicalCodeUnavailable);
            plan.Success? ==> StartsAtDeployment(startBlock, c.row, plan.value.inputs, c.address)
  {
  }

  /** For a contract known by its announcement, with a deployment on file that is not before the start
      block, the claim written at a segment's end is covered exactly if the deployment is not before
      the announcement, whatever was scanned. */
  lemma ClaimCoveredExactly(startBlock: nat, configured: Overlay, contracts: Contracts, inputs: seq<LogScanInput>, endBlock: int,
                            coverageStartBlock: int, c: LogScanCursor)
    requires IsCursor(contracts, inputs, endBlock, startBlock, coverageStartBlock, c) && c.contractAddress !in configured
    requires var row := contracts[c.contractAddress];
             && row.discovery.Some? && row.deployment.Some? && startBlock <= row.deployment.value.block
             && StartsAtDeployment(startBlock, row, inputs, c.contractAddress)
    ensures c.startBlock == contracts[c.contractAddress].deployment.value.block
    ensures EffectiveStart(startBlock, configured, c.contractAddress, contracts[c.contractAddress]) <= c.startBlock
            <==> InOrder(startBlock, contracts[c.contractAddress])
  {
    var input := InputFor(inputs, c.contractAddress);
    if input.Some? {
      var i :| 0 <= i < |inputs| && inputs[i] == input.value;
    }
  }
}
