/** Whole runs of the store: any number of transactions in any order, refused ones included. */
module Runs {
  import opened Records
  import opened Database
  import opened LedgerProofs
  import Ledger
  import Registry
  import RegistryProofs
  import SeedProofs
  import Tokens

  datatype Step =
    | Append(b: IndexedBlock)
    | RewindTo(ancestor: int, ancestorHash: Option<Hash>)
    | Advance(startBlock: nat)
    | SeedManifest(startBlock: nat, manifest: seq<ManifestContract>)
    | RecordDeployment(o: DeploymentObservation)

  ghost function Attempt(s: Store, step: Step): Result<Store, DatabaseError> {
    match step
    case Append(b) => StoreBlock(s, b)
    case RewindTo(ancestor, ancestorHash) => Rewind(s, ancestor, ancestorHash)
    case Advance(startBlock) => Success(AdvanceStart(s, startBlock))
    case SeedManifest(startBlock, manifest) => Seed(s, startBlock, manifest)
    case RecordDeployment(o) => Success(Database.RecordDeployment(s, o))
  }

  /** A refused transaction rolls back. */
  ghost function Apply(s: Store, step: Step): Store {
    var result := Attempt(s, step);
    if result.Success? then result.value else s
  }

  predicate Resets(s: Store, step: Step) {
    match step
    case Advance(startBlock) => startBlock > s.ledger.startBlock
    case SeedManifest(_, manifest) => Registry.ManifestChanged(s.registry, manifest) && s.ledger.indexedBlock.Some?
    case _ => false
  }

  /** The canonical chain after a step, by number. */
  ghost function NextChain(s: Store, chain: Chain, step: Step): Chain {
    if Attempt(s, step).Failure? then chain
    else if Resets(s, step) then map[]
    else match step
      case Append(b) => chain[b.number := b]
      case RewindTo(ancestor, _) => Kept(chain, ancestor)
      case _ => chain
  }

  /** The step leads from one store and chain to the other. */
  ghost predicate StepsTo(s: Store, chain: Chain, step: Step, t: Store, after: Chain) {
    t == Apply(s, step) && after == NextChain(s, chain, step)
  }

  /** One rewind, or none, leads from one store and chain to the other. */
  ghost predicate MaybeRewound(s: Store, chain: Chain, t: Store, after: Chain) {
    (t == s && after == chain) || exists ancestor, ancestorHash :: StepsTo(s, chain, RewindTo(ancestor, ancestorHash), t, after)
  }

  ghost function Run(s: Store, steps: seq<Step>): Store {
    if steps == [] then s else Apply(Run(s, steps[..|steps| - 1]), steps[|steps| - 1])
  }

  ghost function History(s: Store, steps: seq<Step>): Chain {
    if steps == [] then map[]
    else NextChain(Run(s, steps[..|steps| - 1]), History(s, steps[..|steps| - 1]), steps[|steps| - 1])
  }

  /** What the chain guarantees about an offered block: a hash fixes the header, and a discovery on
      file for the same block, address and transaction says the same. A deployment is looked for up
      to the checkpoint. */
  predicate Genuine(s: Store, step: Step) {
    && (step.Append? ==> Offered(s.ledger, step.b) && RegistryProofs.Announced(s.registry, step.b))
    && (step.RecordDeployment? ==>
          s.ledger.indexedBlock.Some? && Registry.ObservationError(s.ledger.indexedBlock.value, step.o).None?)
  }

  ghost predicate GenuineRun(s: Store, steps: seq<Step>) {
    forall i {:trigger Genuine(Run(s, steps[..i]), steps[i])} :: 0 <= i < |steps| ==> Genuine(Run(s, steps[..i]), steps[i])
  }

  function Tip(l: Ledger.Ledger): int {
    if l.indexedBlock.None? then -1 else l.indexedBlock.value
  }

  /** Everything a block brings along belongs to its own number. */
  predicate WellPlaced(n: int, b: IndexedBlock) {
    && b.number == n
    && (forall i :: 0 <= i < |b.contracts| ==> b.contracts[i].position.Some? && b.contracts[i].position.value.block == n)
    && (forall i :: 0 <= i < |b.observations| ==> Registry.ObservationError(b.number, b.observations[i]).None?)
    && (forall i :: 0 <= i < |b.tokenMetadata| ==> b.tokenMetadata[i].readBlock == n)
  }

  predicate AllWellPlaced(chain: Chain) {
    forall n {:trigger WellPlaced(n, chain[n])} :: n in chain ==> WellPlaced(n, chain[n])
  }

  /** All tables agree with the canonical chain. */
  ghost predicate Sound(s: Store, chain: Chain) {
    && AllWellPlaced(chain)
    && Holds(s.ledger, chain)
    && RegistryProofs.Registered(s.registry, s.ledger.startBlock, Tip(s.ledger), chain)
    && Tokens.Attached(s.tokens, s.ledger.blocks)
    && Tokens.Single(s.tokens, chain)
  }

  lemma AppendKeepsLedger(s: Store, chain: Chain, b: IndexedBlock)
    requires Sound(s, chain) && Genuine(s, Append(b)) && StoreBlock(s, b).Success?
    ensures b.number == Next(s.ledger)
    ensures Holds(StoreBlock(s, b).value.ledger, chain[b.number := b])
  {
    StoreAcceptsExactly(s.ledger, chain, b);
    StoreKeeps(s.ledger, chain, b);
  }

  lemma AppendKeepsRegistry(s: Store, chain: Chain, b: IndexedBlock)
    requires Sound(s, chain) && Genuine(s, Append(b)) && StoreBlock(s, b).Success?
    requires b.number == Next(s.ledger)
    ensures RegistryProofs.Registered(StoreBlock(s, b).value.registry, s.ledger.startBlock, b.number, chain[b.number := b])
  {
    RegistryProofs.StoreKeeps(s.registry, s.ledger.startBlock, Tip(s.ledger), chain, b);
  }

  lemma AppendKeepsTokens(s: Store, chain: Chain, b: IndexedBlock)
    requires Sound(s, chain) && Genuine(s, Append(b)) && StoreBlock(s, b).Success?
    requires b.number == Next(s.ledger)
    ensures Tokens.Single(StoreBlock(s, b).value.tokens, chain[b.number := b])
  {
    Tokens.StoreKeeps(s.tokens, s.ledger.blocks, chain, b);
  }

  lemma AppendKeepsSound(s: Store, chain: Chain, b: IndexedBlock)
    requires Sound(s, chain) && Genuine(s, Append(b)) && StoreBlock(s, b).Success?
    ensures Sound(StoreBlock(s, b).value, chain[b.number := b])
  {
    AppendKeepsLedger(s, chain, b);
    AppendKeepsRegistry(s, chain, b);
    AppendKeepsTokens(s, chain, b);
    AppendKeepsAttached(s, b);
    AppendIsWellPlaced(s, chain, b);
  }

  lemma AppendIsWellPlaced(s: Store, chain: Chain, b: IndexedBlock)
    requires Sound(s, chain) && StoreBlock(s, b).Success?
    ensures AllWellPlaced(chain[b.number := b])
    ensures var after := StoreBlock(s, b).value.ledger;
            after.startBlock == s.ledger.startBlock && Tip(after) == b.number
  {
  }

  lemma AppendKeepsAttached(s: Store, b: IndexedBlock)
    requires Tokens.Attached(s.tokens, s.ledger.blocks) && Offered(s.ledger, b) && StoreBlock(s, b).Success?
    ensures Tokens.Attached(StoreBlock(s, b).value.tokens, StoreBlock(s, b).value.ledger.blocks)
  {
    var after := StoreBlock(s, b).value;
    forall k | k in after.tokens
      ensures k.blockHash in after.ledger.blocks && after.ledger.blocks[k.blockHash].number == after.tokens[k].readBlock
    {
      Tokens.StoredRow(s.tokens, b.number, b.hash, b.tokenMetadata, k);
    }
  }

  lemma RewindKeepsSound(s: Store, chain: Chain, ancestor: int, ancestorHash: Option<Hash>)
    requires Sound(s, chain) && Rewind(s, ancestor, ancestorHash).Success?
    ensures Sound(Rewind(s, ancestor, ancestorHash).value, Kept(chain, ancestor))
    ensures Tokens.Current(Rewind(s, ancestor, ancestorHash).value.tokens, Kept(chain, ancestor))
  {
    RewindAcceptsExactly(s.ledger, chain, ancestor, ancestorHash);
    RewindKeeps(s.ledger, chain, ancestor, ancestorHash);
    RegistryProofs.RewindKeeps(s.registry, s.ledger.startBlock, Tip(s.ledger), chain, ancestor);
    Tokens.RewindKeeps(s.tokens, s.ledger.blocks, chain, ancestor);
    RewindKeepsAttached(s, ancestor, ancestorHash);
    KeptIsWellPlaced(chain, ancestor);
  }

  lemma RewindKeepsAttached(s: Store, ancestor: int, ancestorHash: Option<Hash>)
    requires Tokens.Attached(s.tokens, s.ledger.blocks) && Rewind(s, ancestor, ancestorHash).Success?
    ensures Tokens.Attached(Rewind(s, ancestor, ancestorHash).value.tokens, Rewind(s, ancestor, ancestorHash).value.ledger.blocks)
  {
  }

  lemma KeptIsWellPlaced(chain: Chain, ancestor: int)
    requires AllWellPlaced(chain)
    ensures AllWellPlaced(Kept(chain, ancestor))
  {
  }

  lemma InvalidateKeepsSound(s: Store, chain: Chain, startBlock: nat)
    requires Sound(s, chain) && s.ledger.startBlock <= startBlock
    ensures Sound(Invalidate(s, startBlock), map[])
  {
    InvalidateKeeps(s.ledger, chain, startBlock);
    RegistryProofs.InvalidateKeeps(s.registry, s.ledger.startBlock, Tip(s.ledger), chain, startBlock);
  }

  lemma SeedKeepsSound(s: Store, chain: Chain, startBlock: nat, manifest: seq<ManifestContract>)
    requires Sound(s, chain) && Seed(s, startBlock, manifest).Success?
    ensures Sound(Seed(s, startBlock, manifest).value, NextChain(s, chain, SeedManifest(startBlock, manifest)))
  {
    var seeded := s.(registry := Registry.Seed(s.registry, startBlock, manifest));
    SeedProofs.SeedKeeps(s.registry, startBlock, Tip(s.ledger), chain, manifest);
    InvalidateKeepsSound(seeded, chain, startBlock);
  }

  lemma StepKeepsSound(s: Store, chain: Chain, step: Step)
    requires Sound(s, chain) && Genuine(s, step)
    ensures Sound(Apply(s, step), NextChain(s, chain, step))
  {
    if Attempt(s, step).Success? {
      match step
      case Append(b) => AppendKeepsSound(s, chain, b);
      case RewindTo(ancestor, ancestorHash) => RewindKeepsSound(s, chain, ancestor, ancestorHash);
      case Advance(startBlock) =>
        if startBlock > s.ledger.startBlock {
          InvalidateKeepsSound(s, chain, startBlock);
        }
      case SeedManifest(startBlock, manifest) => SeedKeepsSound(s, chain, startBlock, manifest);
      case RecordDeployment(_) =>
    }
  }

  lemma {:induction false} RunIsSound(startBlock: nat, steps: seq<Step>)
    requires GenuineRun(Created(startBlock), steps)
    ensures Sound(Run(Created(startBlock), steps), History(Created(startBlock), steps))
  {
    var s0 := Created(startBlock);
    if steps == [] {
      EmptyHolds(startBlock);
    } else {
      var front := steps[..|steps| - 1];
      assert forall i :: 0 <= i < |front| ==> front[..i] == steps[..i] && front[i] == steps[i];
      RunIsSound(startBlock, front);
      assert Genuine(Run(s0, front), steps[|steps| - 1]);
      StepKeepsSound(Run(s0, front), History(s0, front), steps[|steps| - 1]);
    }
  }

  /** Recording a deployment touches one row of the contract table. */
  lemma RecordedStore(s: Store, chain: Chain, o: DeploymentObservation)
    ensures Apply(s, RecordDeployment(o)) == s.(registry := s.registry.(contracts := Registry.Observe(s.registry.contracts, o)))
    ensures NextChain(s, chain, RecordDeployment(o)) == chain
  {
  }

  // ---------------------------------------------------------------- growing a run

  /** The store and the chain are what the steps lead to from a new store. */
  ghost predicate Traced(startBlock: nat, steps: seq<Step>, s: Store, chain: Chain) {
    && GenuineRun(Created(startBlock), steps)
    && s == Run(Created(startBlock), steps)
    && chain == History(Created(startBlock), steps)
  }

  lemma RunExtends(s: Store, steps: seq<Step>, step: Step)
    ensures Run(s, steps + [step]) == Apply(Run(s, steps), step)
    ensures History(s, steps + [step]) == NextChain(Run(s, steps), History(s, steps), step)
  {
    var longer := steps + [step];
    assert longer[..|longer| - 1] == steps && longer[|longer| - 1] == step;
  }

  lemma GenuineExtends(s: Store, steps: seq<Step>, step: Step)
    requires GenuineRun(s, steps) && Genuine(Run(s, steps), step)
    ensures GenuineRun(s, steps + [step])
  {
    var longer := steps + [step];
    forall i | 0 <= i < |longer|
      ensures Genuine(Run(s, longer[..i]), longer[i])
    {
      assert longer[..i] == steps[..i];
      if i == |steps| {
        assert steps[..i] == steps;
      } else {
        assert Genuine(Run(s, steps[..i]), steps[i]);
      }
    }
  }

  lemma TraceExtends(startBlock: nat, steps: seq<Step>, s: Store, chain: Chain, step: Step)
    requires Traced(startBlock, steps, s, chain) && Genuine(s, step)
    ensures Traced(startBlock, steps + [step], Apply(s, step), NextChain(s, chain, step))
  {
    RunExtends(Created(startBlock), steps, step);
    GenuineExtends(Created(startBlock), steps, step);
  }

  /** The authors' integrity audit stays empty in every reachable state. */
  lemma AuditNeverReports(startBlock: nat, steps: seq<Step>)
    requires GenuineRun(Created(startBlock), steps)
    ensures Ledger.AuditClean(Run(Created(startBlock), steps).ledger)
  {
    RunIsSound(startBlock, steps);
    HoldsPassesAudit(Run(Created(startBlock), steps).ledger, History(Created(startBlock), steps));
  }

  // ---------------------------------------------------------------- refinement of a store that never saw a reorg

  /** What readers of canonical rows see. */
  ghost function CanonicalHeaders(l: Ledger.Ledger): map<Hash, (nat, Hash)> {
    map h | h in l.blocks && l.blocks[h].canonical :: (l.blocks[h].number, l.blocks[h].parentHash)
  }

  ghost function CanonicalEvidence(l: Ledger.Ledger): map<EvidenceKey, (nat, Json)> {
    map k | k in l.evidence && l.evidence[k].canonical :: (l.evidence[k].number, l.evidence[k].data)
  }

  ghost function CanonicalDiscoveries(r: Registry.Registry): map<Registry.DiscoveryKey, Registry.DiscoveryRow> {
    map k | k in r.discoveries && r.discoveries[k].canonical :: r.discoveries[k]
  }

  /** Two stores that hold the same chain show the same canonical rows. */
  lemma ViewDetermined(s: Store, t: Store, chain: Chain)
    requires Sound(s, chain) && Sound(t, chain)
    ensures CanonicalHeaders(s.ledger) == CanonicalHeaders(t.ledger)
    ensures CanonicalEvidence(s.ledger) == CanonicalEvidence(t.ledger)
    ensures CanonicalDiscoveries(s.registry) == CanonicalDiscoveries(t.registry)
  {
    assert CanonicalHeaders(s.ledger) == CanonicalHeaders(t.ledger) by {
      HeadersWithin(s, t, chain);
      HeadersWithin(t, s, chain);
      SameMap(CanonicalHeaders(s.ledger), CanonicalHeaders(t.ledger));
    }
    assert CanonicalEvidence(s.ledger) == CanonicalEvidence(t.ledger) by {
      EvidenceWithin(s, t, chain);
      EvidenceWithin(t, s, chain);
      SameMap(CanonicalEvidence(s.ledger), CanonicalEvidence(t.ledger));
    }
    assert CanonicalDiscoveries(s.registry) == CanonicalDiscoveries(t.registry) by {
      DiscoveriesWithin(s, t, chain);
      DiscoveriesWithin(t, s, chain);
      SameMap(CanonicalDiscoveries(s.registry), CanonicalDiscoveries(t.registry));
    }
  }

  predicate Within<K, V(==)>(m: map<K, V>, n: map<K, V>) {
    forall k :: k in m ==> k in n && n[k] == m[k]
  }

  lemma SameMap<K, V>(m: map<K, V>, n: map<K, V>)
    requires Within(m, n) && Within(n, m)
    ensures m == n
  {
  }

  lemma HeadersWithin(s: Store, t: Store, chain: Chain)
    requires Sound(s, chain) && Sound(t, chain)
    ensures Within(CanonicalHeaders(s.ledger), CanonicalHeaders(t.ledger))
  {
    forall h | h in CanonicalHeaders(s.ledger)
      ensures h in CanonicalHeaders(t.ledger) && CanonicalHeaders(t.ledger)[h] == CanonicalHeaders(s.ledger)[h]
    {
      var n := s.ledger.blocks[h].number;
      assert HasBlock(s.ledger.blocks, n, chain[n]) && HasBlock(t.ledger.blocks, n, chain[n]);
    }
  }

  lemma EvidenceWithin(s: Store, t: Store, chain: Chain)
    requires Sound(s, chain) && Sound(t, chain)
    ensures Within(CanonicalEvidence(s.ledger), CanonicalEvidence(t.ledger))
  {
    forall k | k in CanonicalEvidence(s.ledger)
      ensures k in CanonicalEvidence(t.ledger) && CanonicalEvidence(t.ledger)[k] == CanonicalEvidence(s.ledger)[k]
    {
      var n := s.ledger.evidence[k].number;
      assert RowJustified(chain, k, s.ledger.evidence[k]);
      assert HasRow(s.ledger.evidence, k, chain[n].evidence[k]) && HasRow(t.ledger.evidence, k, chain[n].evidence[k]);
      assert Acceptable(n, chain[n]) && HasBlock(t.ledger.blocks, n, chain[n]);
      assert RowFiled(t.ledger.blocks, k, t.ledger.evidence[k]);
    }
  }

  lemma DiscoveriesWithin(s: Store, t: Store, chain: Chain)
    requires Sound(s, chain) && Sound(t, chain)
    ensures Within(CanonicalDiscoveries(s.registry), CanonicalDiscoveries(t.registry))
  {
  }

  /** A new store that ingests the blocks of `chain` from `startBlock` through `n`, and nothing else. */
  function FreshStore(startBlock: nat, chain: Chain, n: int): Result<Store, DatabaseError>
    requires forall m :: startBlock <= m <= n ==> m in chain
    decreases n
  {
    if n < startBlock then Success(Created(startBlock))
    else
      match FreshStore(startBlock, chain, n - 1)
      case Failure(e) => Failure(e)
      case Success(s) => StoreBlock(s, chain[n])
  }

  /** A store that has seen nothing but `chain`. */
  ghost predicate Unspoilt(t: Store, startBlock: nat, chain: Chain) {
    && Sound(t, chain)
    && t.ledger.startBlock == startBlock
    && (forall h :: h in t.ledger.blocks ==> t.ledger.blocks[h].canonical)
    && (forall k :: k in t.registry.discoveries ==> t.registry.discoveries[k].canonical)
  }

  lemma {:induction false} FreshStoreIsSound(s: Store, chain: Chain, n: int)
    requires Sound(s, chain)
    requires forall m :: s.ledger.startBlock <= m <= n ==> m in chain
    ensures FreshStore(s.ledger.startBlock, chain, n).Success?
    ensures Unspoilt(FreshStore(s.ledger.startBlock, chain, n).value, s.ledger.startBlock, Kept(chain, n))
    decreases n
  {
    var start := s.ledger.startBlock;
    if n < start {
      EmptyHolds(start);
      assert Kept(chain, n) == map[];
    } else {
      FreshStoreIsSound(s, chain, n - 1);
      NextUnspoilt(s, chain, FreshStore(start, chain, n - 1).value, n);
    }
  }

  lemma NextUnspoilt(s: Store, chain: Chain, t: Store, n: int)
    requires Sound(s, chain) && s.ledger.startBlock <= n
    requires forall m :: s.ledger.startBlock <= m <= n ==> m in chain
    requires Unspoilt(t, s.ledger.startBlock, Kept(chain, n - 1))
    ensures StoreBlock(t, chain[n]).Success?
    ensures Unspoilt(StoreBlock(t, chain[n]).value, s.ledger.startBlock, Kept(chain, n))
  {
    var b := chain[n];
    assert Kept(chain, n - 1)[n := b] == Kept(chain, n);
    FreshBlockIsGenuine(s, chain, t, n);
    FreshBlockIsAccepted(s, chain, t, n);
    AppendKeepsSound(t, Kept(chain, n - 1), b);
    NothingOrphaned(t, b);
  }

  lemma NothingOrphaned(t: Store, b: IndexedBlock)
    requires StoreBlock(t, b).Success?
    requires forall h :: h in t.ledger.blocks ==> t.ledger.blocks[h].canonical
    requires forall k :: k in t.registry.discoveries ==> t.registry.discoveries[k].canonical
    ensures var after := StoreBlock(t, b).value;
            && after.ledger.startBlock == t.ledger.startBlock
            && (forall h :: h in after.ledger.blocks ==> after.ledger.blocks[h].canonical)
            && (forall k :: k in after.registry.discoveries ==> after.registry.discoveries[k].canonical)
  {
    OnlyCanonical(t.registry, b.number, b.hash, b.contracts);
  }

  lemma FreshBlockIsAccepted(s: Store, chain: Chain, t: Store, n: int)
    requires Sound(s, chain) && s.ledger.startBlock <= n
    requires forall m :: s.ledger.startBlock <= m <= n ==> m in chain
    requires Unspoilt(t, s.ledger.startBlock, Kept(chain, n - 1))
    requires Genuine(t, Append(chain[n]))
    ensures StoreBlock(t, chain[n]).Success? && chain[n].number == n
  {
    var kept := Kept(chain, n - 1);
    assert Acceptable(n, chain[n]) && WellPlaced(n, chain[n]);
    NextIsNext(t.ledger, s.ledger.startBlock, chain, n);
    StoreAcceptsExactly(t.ledger, kept, chain[n]);
  }

  lemma NextIsNext(l: Ledger.Ledger, startBlock: nat, chain: Chain, n: int)
    requires Holds(l, Kept(chain, n - 1)) && l.startBlock == startBlock <= n
    requires forall m :: startBlock <= m <= n ==> m in chain
    ensures Next(l) == n
  {
    assert n == startBlock || n - 1 in Kept(chain, n - 1);
    assert n !in Kept(chain, n - 1);
  }

  lemma {:induction false} OnlyCanonical(r: Registry.Registry, n: nat, hash: Hash, cs: seq<DiscoveredContract>)
    requires Registry.StoreContracts(r, n, hash, cs).Success?
    requires forall k :: k in r.discoveries ==> r.discoveries[k].canonical
    ensures var d := Registry.StoreContracts(r, n, hash, cs).value.discoveries;
            forall k :: k in d ==> d[k].canonical
  {
    if cs != [] {
      OnlyCanonical(r, n, hash, cs[..|cs| - 1]);
    }
  }

  /** In a store that has seen nothing but the chain so far, the next block of the chain is new. */
  lemma FreshBlockIsGenuine(s: Store, chain: Chain, t: Store, n: int)
    requires Sound(s, chain) && n in chain && s.ledger.startBlock <= n
    requires Unspoilt(t, s.ledger.startBlock, Kept(chain, n - 1))
    ensures Genuine(t, Append(chain[n]))
  {
    var b := chain[n];
    assert HasBlock(s.ledger.blocks, n, b) && Acceptable(n, b);
    forall h | h in t.ledger.blocks
      ensures h != b.hash
    {
      var m := t.ledger.blocks[h].number;
      assert m in chain && chain[m].hash == h && HasBlock(s.ledger.blocks, m, chain[m]);
    }
    forall k | k in t.ledger.evidence
      ensures k.blockHash != b.hash
    {
      assert RowFiled(t.ledger.blocks, k, t.ledger.evidence[k]);
    }
    forall i | 0 <= i < |b.contracts|
      ensures RegistryProofs.AgreesWithFile(t.registry, b.hash, b.contracts[i])
    {
      assert RegistryProofs.OnFile(s.registry.discoveries, n, b.hash, b.contracts[i]);
      forall k | k in t.registry.discoveries
        ensures k.blockHash != b.hash
      {
        var m := t.registry.discoveries[k].number;
        assert RegistryProofs.Announces(chain[m], k, m) && HasBlock(s.ledger.blocks, m, chain[m]);
      }
    }
  }

  /** After any run of appends, rewinds, start advances and manifest seedings, the canonical blocks,
      evidence rows and discoveries are those of a new store that ingested the current canonical
      chain and nothing else. */
  lemma RunRefinesFreshStore(startBlock: nat, steps: seq<Step>)
    requires GenuineRun(Created(startBlock), steps)
    ensures var s, chain := Run(Created(startBlock), steps), History(Created(startBlock), steps);
            && (forall m :: s.ledger.startBlock <= m <= Tip(s.ledger) ==> m in chain)
            && var anew := FreshStore(s.ledger.startBlock, chain, Tip(s.ledger));
               && anew.Success?
               && CanonicalHeaders(s.ledger) == CanonicalHeaders(anew.value.ledger)
               && CanonicalEvidence(s.ledger) == CanonicalEvidence(anew.value.ledger)
               && CanonicalDiscoveries(s.registry) == CanonicalDiscoveries(anew.value.registry)
  {
    var s, chain := Run(Created(startBlock), steps), History(Created(startBlock), steps);
    RunIsSound(startBlock, steps);
    FreshStoreIsSound(s, chain, Tip(s.ledger));
    assert Kept(chain, Tip(s.ledger)) == chain;
    ViewDetermined(s, FreshStore(s.ledger.startBlock, chain, Tip(s.ledger)).value, chain);
  }

  /** So whoever reads canonical rows only sees no difference. */
  lemma ReadersSeeNoDifference(startBlock: nat, steps: seq<Step>, h: Hash, k: EvidenceKey, d: Registry.DiscoveryKey)
    requires GenuineRun(Created(startBlock), steps)
    ensures var s, chain := Run(Created(startBlock), steps), History(Created(startBlock), steps);
            && (forall m :: s.ledger.startBlock <= m <= Tip(s.ledger) ==> m in chain)
            && FreshStore(s.ledger.startBlock, chain, Tip(s.ledger)).Success?
            && var t := FreshStore(s.ledger.startBlock, chain, Tip(s.ledger)).value;
               && (h in s.ledger.blocks && s.ledger.blocks[h].canonical <==> h in t.ledger.blocks && t.ledger.blocks[h].canonical)
               && (h in s.ledger.blocks && s.ledger.blocks[h].canonical ==>
                     s.ledger.blocks[h].number == t.ledger.blocks[h].number && s.ledger.blocks[h].parentHash == t.ledger.blocks[h].parentHash)
               && (k in s.ledger.evidence && s.ledger.evidence[k].canonical <==> k in t.ledger.evidence && t.ledger.evidence[k].canonical)
               && (k in s.ledger.evidence && s.ledger.evidence[k].canonical ==>
                     s.ledger.evidence[k].number == t.ledger.evidence[k].number && s.ledger.evidence[k].data == t.ledger.evidence[k].data)
               && (d in s.registry.discoveries && s.registry.discoveries[d].canonical
                   <==> d in t.registry.discoveries && t.registry.discoveries[d].canonical)
               && (d in s.registry.discoveries && s.registry.discoveries[d].canonical ==>
                     s.registry.discoveries[d] == t.registry.discoveries[d])
  {
    RunRefinesFreshStore(startBlock, steps);
    var s := Run(Created(startBlock), steps);
    var t := FreshStore(s.ledger.startBlock, History(Created(startBlock), steps), Tip(s.ledger)).value;
    assert h in CanonicalHeaders(s.ledger) <==> h in CanonicalHeaders(t.ledger);
    assert h in CanonicalHeaders(s.ledger) ==> CanonicalHeaders(s.ledger)[h] == CanonicalHeaders(t.ledger)[h];
    assert k in CanonicalEvidence(s.ledger) <==> k in CanonicalEvidence(t.ledger);
    assert k in CanonicalEvidence(s.ledger) ==> CanonicalEvidence(s.ledger)[k] == CanonicalEvidence(t.ledger)[k];
    assert d in CanonicalDiscoveries(s.registry) <==> d in CanonicalDiscoveries(t.registry);
    assert d in CanonicalDiscoveries(s.registry) ==> CanonicalDiscoveries(s.registry)[d] == CanonicalDiscoveries(t.registry)[d];
  }
}
