/** The periodic look at one contract whose deployment is not on file. */
module DeploymentCheck {
  import opened Records
  import opened Runs
  import opened LogScan
  import opened CoverageProofs
  import Database
  import Registry
  import Reorg
  import Scanner = ScannerDatabase

  const RECHECK_AFTER := 100

  /** No deployment on file, and not looked at lately. */
  predicate Candidate(row: Registry.ContractRow, boundary: nat) {
    && row.canonical && row.deployment.None?
    && (row.checkedBlock.None? || row.checkedBlock.value <= (if boundary >= RECHECK_AFTER then boundary - RECHECK_AFTER else -1))
  }

  /** What a search through the checkpoint comes to for the contract. */
  function Observed(a: Address, boundary: nat, search: Search): Option<DeploymentObservation> {
    match search
    case Found(d) => Some(DeploymentObservation(a, boundary, Some(d)))
    case NotFound => Some(DeploymentObservation(a, boundary, None))
    case _ => None
  }

  /** The deployment found lies between the start and the checkpoint, so it can be recorded. */
  lemma ObservationIsLegal(a: Address, startBlock: nat, boundary: nat, codeAt: nat -> CodeRead)
    ensures var o := Observed(a, boundary, DeploymentSearch(startBlock, boundary, codeAt, false));
            o.Some? ==>
              && Registry.ObservationError(boundary, o.value).None?
              && (o.value.deployment.Some? ==>
                    startBlock <= o.value.deployment.value.block <= boundary && LogScan.Holds(codeAt, o.value.deployment.value.block, true))
  {
    SearchFinds(startBlock, boundary, codeAt, false);
  }

  // ---------------------------------------------------------------- whose turn it is

  function LastChecked(row: Registry.ContractRow): int {
    if row.checkedBlock.Some? then row.checkedBlock.value else -1
  }

  function Waiting(contracts: map<Address, Registry.ContractRow>, boundary: nat, unavailable: set<Address>): set<Address> {
    set a | a in contracts && Candidate(contracts[a], boundary) && a !in unavailable
  }

  lemma {:induction false} SomeoneIsFirst(contracts: map<Address, Registry.ContractRow>, waiting: set<Address>) returns (first: Address)
    requires waiting != {} && waiting <= contracts.Keys
    ensures first in waiting && forall b :: b in waiting ==> LastChecked(contracts[first]) <= LastChecked(contracts[b])
    decreases |waiting|
  {
    var a: Address :| a in waiting;
    if waiting == {a} {
      first := a;
    } else {
      var other := SomeoneIsFirst(contracts, waiting - {a});
      first := if LastChecked(contracts[a]) <= LastChecked(contracts[other]) then a else other;
    }
  }

  /** A contract that is to be looked at: it is canonical, no deployment is on file, its last check, if any,
      is a hundred blocks old, and its old code can be read. */
  ghost predicate IsDue(contracts: map<Address, Registry.ContractRow>, boundary: nat, unavailable: set<Address>, a: Address) {
    && a in contracts && a !in unavailable
    && contracts[a].canonical && contracts[a].deployment.None?
    && (contracts[a].checkedBlock.Some? ==> contracts[a].checkedBlock.value + 100 <= boundary || contracts[a].checkedBlock.value < 0)
  }

  /** Never looked at, or not later than any other that is due. */
  ghost predicate GoesFirst(contracts: map<Address, Registry.ContractRow>, boundary: nat, unavailable: set<Address>, a: Address) {
    && IsDue(contracts, boundary, unavailable, a)
    && (contracts[a].checkedBlock.Some? ==>
          forall b :: IsDue(contracts, boundary, unavailable, b) ==>
            if contracts[b].checkedBlock.Some? then contracts[a].checkedBlock.value <= contracts[b].checkedBlock.value
            else contracts[a].checkedBlock.value < 0)
  }

  /** What the code of a contract says about where it was deployed: nowhere yet, where it first shows, or at
      or before the start. Code at block 0 is not believed, nor code in the start block alone. */
  ghost predicate ShowsDeployment(codeAt: nat -> CodeRead, startBlock: nat, boundary: nat, deployment: Option<Deployment>) {
    if boundary <= startBlock || codeAt(boundary) == Code(false) || (startBlock == 0 && codeAt(0) == Code(true)) then deployment.None?
    else
      && deployment.Some? && startBlock <= deployment.value.block <= boundary && codeAt(deployment.value.block) == Code(true)
      && if deployment.value.exact then startBlock < deployment.value.block && codeAt(deployment.value.block - 1) == Code(false)
         else deployment.value.block == startBlock
  }

  lemma ShownExactly(a: Address, startBlock: nat, boundary: nat, codeAt: nat -> CodeRead)
    ensures var o := Observed(a, boundary, DeploymentSearch(startBlock, boundary, codeAt, false));
            && (o.Some? ==> o.value.contractAddress == a && o.value.checkedBlock == boundary
                            && ShowsDeployment(codeAt, startBlock, boundary, o.value.deployment))
            && (o.None? ==> exists n :: startBlock <= n <= boundary && !codeAt(n).Code?)
  {
    SearchFinds(startBlock, boundary, codeAt, false);
    SearchFailsFor(startBlock, boundary, codeAt, false);
  }

  /** Looks for the deployment of the contract whose turn it is, from the start block through the checkpoint,
      and records what it finds; nothing happens exactly if none is due, or a read fails. A deployment
      recorded before the announcement on file is one where the node shows code. */
  method RefreshContractDeployment(db: Scanner.ScannerDatabase, codeAt: (Address, nat) -> CodeRead, unavailable: set<Address>)
    returns (recorded: Option<DeploymentObservation>)
    requires db.Valid()
    modifies db
    ensures db.Valid()
    ensures recorded.None? ==> Reorg.Unchanged(db, old(db.Snapshot()), old(db.chain)) && db.steps == old(db.steps)
    ensures recorded.None? && old(db.indexedBlock).Some? ==>
      var boundary := old(db.indexedBlock).value;
      || (forall a :: !IsDue(old(db.contracts), boundary, unavailable, a))
      || exists a, n :: GoesFirst(old(db.contracts), boundary, unavailable, a) && old(db.startBlock) <= n <= boundary && !codeAt(a, n).Code?
    ensures recorded.Some? ==>
      var o, s := recorded.value, old(db.Snapshot());
      && Genuine(s, RecordDeployment(o)) && db.steps == old(db.steps) + [RecordDeployment(o)]
      && db.Snapshot() == Database.RecordDeployment(s, o) && db.chain == old(db.chain)
      && s.ledger.indexedBlock == Some(o.checkedBlock)
      && GoesFirst(s.registry.contracts, o.checkedBlock, unavailable, o.contractAddress)
      && ShowsDeployment((n: nat) => codeAt(o.contractAddress, n), s.ledger.startBlock, o.checkedBlock, o.deployment)
      && (!Observes(s, o) ==>
            o.deployment.Some? && codeAt(o.contractAddress, o.deployment.value.block) == Code(true)
            && o.deployment.value.block < s.registry.contracts[o.contractAddress].discovery.value.block)
  {
    recorded := None;
    var checkpoint := db.Checkpoint();
    CheckpointBlock(db, checkpoint);
    if checkpoint.None? {
      return;
    }
    var boundary := checkpoint.value.number;
    var waiting := Waiting(db.contracts, boundary, unavailable);
    if waiting == {} {
      assert forall a :: IsDue(db.contracts, boundary, unavailable, a) ==> a in waiting;
      return;
    }
    ghost var someone := SomeoneIsFirst(db.contracts, waiting);
    var a: Address :| a in waiting && forall b :: b in waiting ==> LastChecked(db.contracts[a]) <= LastChecked(db.contracts[b]);
    FirstInTurn(db.contracts, boundary, unavailable, a);
    var codeOf := (n: nat) => codeAt(a, n);
    var search := FindContractDeploymentBlock(db.startBlock, boundary, codeOf, false);
    ObservationIsLegal(a, db.startBlock, boundary, codeOf);
    ShownExactly(a, db.startBlock, boundary, codeOf);
    recorded := Observed(a, boundary, search);
    if recorded.Some? {
      db.RecordContractDeployment(recorded.value);
    }
  }

  lemma CheckpointBlock(db: Scanner.ScannerDatabase, checkpoint: Option<BlockRef>)
    requires db.Valid()
    requires checkpoint.None? <==> db.chain == map[]
    requires checkpoint.Some? ==> checkpoint.value.number == Tip(db.Snapshot().ledger) && checkpoint.value.number in db.chain
    ensures db.indexedBlock == if checkpoint.Some? then Some(checkpoint.value.number) else None
  {
  }

  lemma FirstInTurn(contracts: map<Address, Registry.ContractRow>, boundary: nat, unavailable: set<Address>, a: Address)
    requires var waiting := Waiting(contracts, boundary, unavailable);
             a in waiting && forall b :: b in waiting ==> LastChecked(contracts[a]) <= LastChecked(contracts[b])
    ensures GoesFirst(contracts, boundary, unavailable, a)
  {
    forall b | IsDue(contracts, boundary, unavailable, b)
      ensures b in Waiting(contracts, boundary, unavailable)
    {
    }
  }
}
