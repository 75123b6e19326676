/** The state a database is in between any two transactions of the indexer, whatever chain the node
    was on: all tables agree with the canonical chain, every followed contract is covered, and the rows
    on file say what the world says of their blocks. */
module Readiness {
  import opened Records
  import opened Database
  import opened LedgerProofs
  import opened Runs
  import opened World
  import opened Coverage
  import opened CoverageProofs
  import Ledger
  import Registry
  import RegistryProofs
  import Reorg
  import SeedProofs

  // ---------------------------------------------------------------- agreeing with the world

  predicate HeaderAgrees(w: World, h: Hash, row: Ledger.BlockRow) {
    row.number == w.number(h) && row.parentHash == w.parent(h)
  }

  predicate DiscoveryAgrees(w: World, k: Registry.DiscoveryKey, row: Registry.DiscoveryRow) {
    row.number == w.number(k.blockHash) && row.identity == w.identity(k.blockHash, k.txHash, k.address)
  }

  predicate PayloadAgrees(w: World, k: EvidenceKey, data: Json) {
    KeepsPayload(k.table) ==> data == w.payload(k)
  }

  /** What is on file, canonical or not, is what the world says. */
  ghost predicate AgreesWithWorld(w: World, s: Store) {
    && (forall h {:trigger HeaderAgrees(w, h, s.ledger.blocks[h])} :: h in s.ledger.blocks ==> HeaderAgrees(w, h, s.ledger.blocks[h]))
    && (forall k {:trigger DiscoveryAgrees(w, k, s.registry.discoveries[k])} :: k in s.registry.discoveries ==>
          DiscoveryAgrees(w, k, s.registry.discoveries[k]))
    && (forall k {:trigger PayloadAgrees(w, k, s.ledger.evidence[k].data)} :: k in s.ledger.evidence ==>
          PayloadAgrees(w, k, s.ledger.evidence[k].data))
    && AllWitnessed(w, s.registry.contracts.Keys, s.ledger.evidence.Keys)
  }

  predicate AnnouncementAgrees(w: World, h: Hash, c: DiscoveredContract) {
    && !c.identity.provenance.Manifest?
    && (c.position.Some? ==> c.position.value.block == w.number(h) && c.identity == w.identity(h, c.position.value.txHash, c.address))
  }

  /** The block says what the world says of it. */
  ghost predicate TrueBlock(w: World, b: IndexedBlock) {
    && b.number == w.number(b.hash) && b.parentHash == w.parent(b.hash)
    && Filed(b) && RegistryProofs.DistinctAddresses(b.contracts)
    && (forall i {:trigger AnnouncementAgrees(w, b.hash, b.contracts[i])} :: 0 <= i < |b.contracts| ==>
          AnnouncementAgrees(w, b.hash, b.contracts[i]))
    && (forall k {:trigger PayloadAgrees(w, k, b.evidence[k])} :: k in b.evidence ==> PayloadAgrees(w, k, b.evidence[k]))
  }

  /** A true block is always acceptable to tables that agree with the world. */
  lemma TrueBlockIsGenuine(w: World, s: Store, b: IndexedBlock)
    requires AgreesWithWorld(w, s) && TrueBlock(w, b)
    ensures Genuine(s, Append(b))
  {
    assert b.hash in s.ledger.blocks ==> HeaderAgrees(w, b.hash, s.ledger.blocks[b.hash]);
    forall k | k in b.evidence && k in s.ledger.evidence && KeepsPayload(k.table)
      ensures s.ledger.evidence[k].data == b.evidence[k]
    {
      assert PayloadAgrees(w, k, s.ledger.evidence[k].data) && PayloadAgrees(w, k, b.evidence[k]);
    }
    forall i | 0 <= i < |b.contracts|
      ensures RegistryProofs.AgreesWithFile(s.registry, b.hash, b.contracts[i])
    {
      var c := b.contracts[i];
      assert AnnouncementAgrees(w, b.hash, c);
      if c.position.Some? {
        var k := Registry.DiscoveryKey(c.address, b.hash, c.position.value.txHash);
        assert k in s.registry.discoveries ==> DiscoveryAgrees(w, k, s.registry.discoveries[k]);
      }
    }
  }

  predicate IsAnnouncement(c: DiscoveredContract, k: Registry.DiscoveryKey) {
    c.address == k.address && c.position.Some? && c.position.value.txHash == k.txHash
  }

  lemma {:induction false} DiscoveryRowsAre(r: Registry.Registry, n: nat, hash: Hash, cs: seq<DiscoveredContract>, k: Registry.DiscoveryKey)
    requires Registry.StoreContracts(r, n, hash, cs).Success?
    ensures var d := Registry.StoreContracts(r, n, hash, cs).value.discoveries;
            k in d ==>
              || (k in r.discoveries && d[k].number == r.discoveries[k].number && d[k].identity == r.discoveries[k].identity)
              || (k.blockHash == hash && d[k].number == n
                  && exists i :: 0 <= i < |cs| && IsAnnouncement(cs[i], k) && d[k].identity == cs[i].identity)
  {
    if cs != [] {
      var front := cs[..|cs| - 1];
      assert forall i :: 0 <= i < |front| ==> front[i] == cs[i];
      DiscoveryRowsAre(r, n, hash, front, k);
      assert IsAnnouncement(cs[|cs| - 1], k) || !IsAnnouncement(cs[|cs| - 1], k);
    }
  }

  lemma StoredDiscoveryAgrees(w: World, s: Store, b: IndexedBlock, k: Registry.DiscoveryKey)
    requires AgreesWithWorld(w, s) && TrueBlock(w, b) && StoreBlock(s, b).Success?
    requires k in StoreBlock(s, b).value.registry.discoveries
    ensures DiscoveryAgrees(w, k, StoreBlock(s, b).value.registry.discoveries[k])
  {
    var d := StoreBlock(s, b).value.registry.discoveries;
    DiscoveryRowsAre(s.registry, b.number, b.hash, b.contracts, k);
    if k in s.registry.discoveries {
      assert DiscoveryAgrees(w, k, s.registry.discoveries[k]);
    }
    forall i | 0 <= i < |b.contracts| && IsAnnouncement(b.contracts[i], k)
      ensures b.contracts[i].identity == w.identity(b.hash, k.txHash, k.address)
    {
      assert AnnouncementAgrees(w, b.hash, b.contracts[i]);
    }
  }

  lemma StoredBlockAgrees(w: World, s: Store, b: IndexedBlock, h: Hash)
    requires AgreesWithWorld(w, s) && TrueBlock(w, b) && StoreBlock(s, b).Success?
    requires h in StoreBlock(s, b).value.ledger.blocks
    ensures HeaderAgrees(w, h, StoreBlock(s, b).value.ledger.blocks[h])
  {
    assert h in s.ledger.blocks ==> HeaderAgrees(w, h, s.ledger.blocks[h]);
  }

  lemma StoredPayloadAgrees(w: World, s: Store, b: IndexedBlock, k: EvidenceKey)
    requires AgreesWithWorld(w, s) && TrueBlock(w, b) && StoreBlock(s, b).Success?
    requires k in StoreBlock(s, b).value.ledger.evidence
    ensures PayloadAgrees(w, k, StoreBlock(s, b).value.ledger.evidence[k].data)
  {
    if k in s.ledger.evidence {
      assert PayloadAgrees(w, k, s.ledger.evidence[k].data);
    }
    if k in b.evidence {
      assert PayloadAgrees(w, k, b.evidence[k]);
    }
  }

  /** The rows of a block are about what is known once it is stored. */
  ghost predicate BlockWitnessed(w: World, s: Store, b: IndexedBlock) {
    AllWitnessed(w, s.registry.contracts.Keys + RegistryProofs.Addresses(b.contracts), b.evidence.Keys)
  }

  lemma StoredKeys(s: Store, b: IndexedBlock)
    requires StoreBlock(s, b).Success? && RegistryProofs.DistinctAddresses(b.contracts)
    ensures s.registry.contracts.Keys + RegistryProofs.Addresses(b.contracts) <= StoreBlock(s, b).value.registry.contracts.Keys
    ensures StoreBlock(s, b).value.ledger.evidence.Keys == s.ledger.evidence.Keys + b.evidence.Keys
  {
    var found := Registry.StoreContracts(s.registry, b.number, b.hash, b.contracts).value;
    forall a | a in s.registry.contracts.Keys + RegistryProofs.Addresses(b.contracts)
      ensures a in StoreBlock(s, b).value.registry.contracts
    {
      FoundRow(s.registry, b.number, b.hash, b.contracts, a);
      ObservedRow(found.contracts, b.number, b.observations, a);
    }
  }

  lemma StoredWitnessed(w: World, s: Store, b: IndexedBlock)
    requires AgreesWithWorld(w, s) && TrueBlock(w, b) && BlockWitnessed(w, s, b) && StoreBlock(s, b).Success?
    ensures AllWitnessed(w, StoreBlock(s, b).value.registry.contracts.Keys, StoreBlock(s, b).value.ledger.evidence.Keys)
  {
    var after := StoreBlock(s, b).value;
    StoredKeys(s, b);
    MoreKnown(w, s.registry.contracts.Keys, after.registry.contracts.Keys, s.ledger.evidence.Keys);
    MoreKnown(w, s.registry.contracts.Keys + RegistryProofs.Addresses(b.contracts), after.registry.contracts.Keys, b.evidence.Keys);
  }

  lemma StoredAgrees(w: World, s: Store, b: IndexedBlock)
    requires AgreesWithWorld(w, s) && TrueBlock(w, b) && BlockWitnessed(w, s, b) && StoreBlock(s, b).Success?
    ensures AgreesWithWorld(w, StoreBlock(s, b).value)
  {
    var after := StoreBlock(s, b).value;
    StoredWitnessed(w, s, b);
    forall h | h in after.ledger.blocks
      ensures HeaderAgrees(w, h, after.ledger.blocks[h])
    {
      StoredBlockAgrees(w, s, b, h);
    }
    forall k | k in after.registry.discoveries
      ensures DiscoveryAgrees(w, k, after.registry.discoveries[k])
    {
      StoredDiscoveryAgrees(w, s, b, k);
    }
    forall k | k in after.ledger.evidence
      ensures PayloadAgrees(w, k, after.ledger.evidence[k].data)
    {
      StoredPayloadAgrees(w, s, b, k);
    }
  }

  /** Same rows, apart from their flags. */
  predicate SameRecords(s: Store, t: Store) {
    && s.ledger.blocks.Keys == t.ledger.blocks.Keys
    && (forall h :: h in s.ledger.blocks ==> t.ledger.blocks[h].number == s.ledger.blocks[h].number
                                             && t.ledger.blocks[h].parentHash == s.ledger.blocks[h].parentHash)
    && s.ledger.evidence.Keys == t.ledger.evidence.Keys
    && (forall k :: k in s.ledger.evidence ==> t.ledger.evidence[k].data == s.ledger.evidence[k].data)
    && s.registry.discoveries.Keys == t.registry.discoveries.Keys
    && (forall k :: k in s.registry.discoveries ==> t.registry.discoveries[k].number == s.registry.discoveries[k].number
                                                    && t.registry.discoveries[k].identity == s.registry.discoveries[k].identity)
    && s.registry.contracts.Keys <= t.registry.contracts.Keys
  }

  lemma SameRecordsAgree(w: World, s: Store, t: Store)
    requires AgreesWithWorld(w, s) && SameRecords(s, t)
    ensures AgreesWithWorld(w, t)
  {
    MoreKnown(w, s.registry.contracts.Keys, t.registry.contracts.Keys, s.ledger.evidence.Keys);
    forall h | h in t.ledger.blocks
      ensures HeaderAgrees(w, h, t.ledger.blocks[h])
    {
      assert HeaderAgrees(w, h, s.ledger.blocks[h]);
    }
    forall k | k in t.registry.discoveries
      ensures DiscoveryAgrees(w, k, t.registry.discoveries[k])
    {
      assert DiscoveryAgrees(w, k, s.registry.discoveries[k]);
    }
    forall k | k in t.ledger.evidence
      ensures PayloadAgrees(w, k, t.ledger.evidence[k].data)
    {
      assert PayloadAgrees(w, k, s.ledger.evidence[k].data);
    }
  }

  lemma ResetKeepsRecords(s: Store, startBlock: nat)
    ensures SameRecords(s, Invalidate(s, startBlock))
  {
  }

  lemma SeedKeepsRecords(s: Store, startBlock: nat, manifest: seq<ManifestContract>)
    ensures SameRecords(s, s.(registry := Registry.Seed(s.registry, startBlock, manifest)))
  {
    SeedProofs.UpsertedRow(Registry.UnseedManifest(s.registry.contracts), manifest, 0);
  }

  lemma RewindKeepsRecords(s: Store, ancestor: int, ancestorHash: Option<Hash>)
    requires Rewind(s, ancestor, ancestorHash).Success?
    ensures SameRecords(s, Rewind(s, ancestor, ancestorHash).value)
  {
  }

  /** Nothing but storing a block changes what the rows say. */
  lemma OtherStepsKeepRecords(s: Store, step: Step)
    requires !step.Append?
    ensures SameRecords(s, Apply(s, step))
  {
    if Attempt(s, step).Success? {
      match step
      case RewindTo(ancestor, ancestorHash) => RewindKeepsRecords(s, ancestor, ancestorHash);
      case Advance(startBlock) => ResetKeepsRecords(s, startBlock);
      case SeedManifest(startBlock, manifest) =>
        SeedKeepsRecords(s, startBlock, manifest);
        ResetKeepsRecords(s.(registry := Registry.Seed(s.registry, startBlock, manifest)), startBlock);
      case RecordDeployment(o) =>
    }
  }

  ghost predicate TrueStep(w: World, s: Store, step: Step) {
    && (step.Append? ==> TrueBlock(w, step.b) && BlockWitnessed(w, s, step.b))
    && (step.RecordDeployment? ==> Genuine(s, step))
  }

  lemma TrueStepIsGenuine(w: World, s: Store, step: Step)
    requires AgreesWithWorld(w, s) && TrueStep(w, s, step)
    ensures Genuine(s, step)
  {
    if step.Append? {
      TrueBlockIsGenuine(w, s, step.b);
    }
  }

  lemma StepKeepsAgreement(w: World, s: Store, step: Step)
    requires AgreesWithWorld(w, s) && TrueStep(w, s, step)
    ensures AgreesWithWorld(w, Apply(s, step))
  {
    if step.Append? {
      if StoreBlock(s, step.b).Success? {
        StoredAgrees(w, s, step.b);
      }
    } else {
      OtherStepsKeepRecords(s, step);
      SameRecordsAgree(w, s, Apply(s, step));
    }
  }

  // ---------------------------------------------------------------- the configured contracts

  /** Every contract with a configured deployment is one of the manifest's. */
  ghost predicate ConfiguredSeeded(s: Store, configured: Overlay) {
    forall a :: a in configured ==>
      a in s.registry.contracts && s.registry.contracts[a].identity.provenance.Manifest? && s.registry.contracts[a].canonical
  }

  lemma AppendKeepsConfigured(configured: Overlay, s: Store, chain: Chain, b: IndexedBlock)
    requires Sound(s, chain) && Genuine(s, Append(b)) && StoreBlock(s, b).Success? && AnnouncesNew(configured, s, b)
    requires ConfiguredSeeded(s, configured)
    ensures ConfiguredSeeded(StoreBlock(s, b).value, configured)
  {
    forall a | a in configured
      ensures a in StoreBlock(s, b).value.registry.contracts && SameTracking(s.registry.contracts[a], StoreBlock(s, b).value.registry.contracts[a])
    {
      KnownRowStays(s, chain, configured, b, a);
    }
  }

  /** Seeding makes every manifest contract canonical. */
  lemma SeedMakesConfigured(configured: Overlay, s: Store, chain: Chain, startBlock: nat, manifest: seq<ManifestContract>)
    requires Sound(s, chain) && Seed(s, startBlock, manifest).Success?
    requires forall a :: a in configured ==> SeedProofs.Configured(manifest, a)
    ensures ConfiguredSeeded(Seed(s, startBlock, manifest).value, configured)
  {
    var after := Seed(s, startBlock, manifest).value;
    SeedStep(s, chain, startBlock, manifest);
    forall a | a in configured
      ensures a in after.registry.contracts && after.registry.contracts[a].identity.provenance.Manifest? && after.registry.contracts[a].canonical
    {
      SeedProofs.SeededRow(s.registry, startBlock, Tip(s.ledger), chain, manifest, a);
    }
  }

  lemma RewindKeepsConfigured(configured: Overlay, s: Store, ancestor: int, ancestorHash: Option<Hash>)
    requires ConfiguredSeeded(s, configured) && Rewind(s, ancestor, ancestorHash).Success?
    ensures ConfiguredSeeded(Rewind(s, ancestor, ancestorHash).value, configured)
  {
  }

  // ---------------------------------------------------------------- being ready

  ghost predicate Ready(s: Store, chain: Chain, w: World, configured: Overlay) {
    && Sound(s, chain)
    && Tracking(w, configured, s, chain)
    && AgreesWithWorld(w, s)
    && ConfiguredSeeded(s, configured)
  }

  ghost predicate ReadyStep(w: World, configured: Overlay, s: Store, step: Step) {
    TrueStep(w, s, step) && CompleteStep(w, configured, s, step)
  }

  lemma StepKeepsConfigured(w: World, configured: Overlay, s: Store, chain: Chain, step: Step)
    requires Sound(s, chain) && Genuine(s, step) && CompleteStep(w, configured, s, step) && ConfiguredSeeded(s, configured)
    ensures ConfiguredSeeded(Apply(s, step), configured)
  {
    if Attempt(s, step).Success? {
      match step
      case Append(b) => AppendKeepsConfigured(configured, s, chain, b);
      case RewindTo(ancestor, ancestorHash) => RewindKeepsConfigured(configured, s, ancestor, ancestorHash);
      case Advance(startBlock) =>
      case SeedManifest(startBlock, manifest) => SeedMakesConfigured(configured, s, chain, startBlock, manifest);
      case RecordDeployment(o) =>
    }
  }

  lemma StepKeepsReady(w: World, configured: Overlay, s: Store, chain: Chain, step: Step)
    requires Ready(s, chain, w, configured) && ReadyStep(w, configured, s, step)
    ensures Ready(Apply(s, step), NextChain(s, chain, step), w, configured)
  {
    TrueStepIsGenuine(w, s, step);
    StepKeepsSound(s, chain, step);
    StepKeepsTracking(w, configured, s, chain, step);
    StepKeepsAgreement(w, s, step);
    StepKeepsConfigured(w, configured, s, chain, step);
  }

  // ---------------------------------------------------------------- manifest contracts stay

  /** Every manifest contract is still one, and described the same. */
  predicate ManifestKept(s: Store, t: Store) {
    forall a :: a in s.registry.contracts && s.registry.contracts[a].identity.provenance.Manifest? ==>
      a in t.registry.contracts && t.registry.contracts[a].identity == s.registry.contracts[a].identity
  }

  lemma {:induction false} AnnouncementsKeepManifest(r: Registry.Registry, n: nat, hash: Hash, cs: seq<DiscoveredContract>, a: Address)
    requires Registry.StoreContracts(r, n, hash, cs).Success?
    requires a in r.contracts && r.contracts[a].identity.provenance.Manifest?
    ensures var after := Registry.StoreContracts(r, n, hash, cs).value.contracts;
            a in after && after[a].identity == r.contracts[a].identity
  {
    if cs != [] {
      AnnouncementsKeepManifest(r, n, hash, cs[..|cs| - 1], a);
    }
  }

  lemma AppendKeepsManifest(s: Store, b: IndexedBlock)
    requires StoreBlock(s, b).Success?
    ensures ManifestKept(s, StoreBlock(s, b).value)
  {
    forall a | a in s.registry.contracts && s.registry.contracts[a].identity.provenance.Manifest?
      ensures var after := StoreBlock(s, b).value.registry.contracts; a in after && after[a].identity == s.registry.contracts[a].identity
    {
      AnnouncementsKeepManifest(s.registry, b.number, b.hash, b.contracts, a);
      ObservedRow(Registry.StoreContracts(s.registry, b.number, b.hash, b.contracts).value.contracts, b.number, b.observations, a);
    }
  }

  lemma RewindKeepsManifest(s: Store, chain: Chain, t: Store, after: Chain)
    requires Sound(s, chain) && MaybeRewound(s, chain, t, after)
    ensures ManifestKept(s, t)
  {
  }

  // ---------------------------------------------------------------- rewinds

  lemma MaybeRewoundStaysReady(s: Store, chain: Chain, w: World, configured: Overlay, t: Store, after: Chain)
    requires Ready(s, chain, w, configured) && MaybeRewound(s, chain, t, after)
    ensures Ready(t, after, w, configured)
  {
    if !(t == s && after == chain) {
      var ancestor, ancestorHash :| StepsTo(s, chain, RewindTo(ancestor, ancestorHash), t, after);
      StepKeepsReady(w, configured, s, chain, RewindTo(ancestor, ancestorHash));
    }
  }

  /** Rewinds ask nothing. */
  lemma RewindsStayComplete(w: World, configured: Overlay, s0: Store, steps: seq<Step>, longer: seq<Step>)
    requires Reorg.OnlyRewound(steps, longer)
    ensures CompleteRun(w, configured, s0, steps) ==> CompleteRun(w, configured, s0, longer)
  {
    if CompleteRun(w, configured, s0, steps) {
      forall i | 0 <= i < |longer|
        ensures CompleteStep(w, configured, Run(s0, longer[..i]), longer[i])
      {
        if i < |steps| {
          assert longer[..i] == steps[..i] && longer[i] == steps[i];
        }
      }
    }
  }

  // ---------------------------------------------------------------- the beginning

  /** A new database is ready once a manifest with the configured contracts has been seeded. */
  lemma SeededIsReady(w: World, configured: Overlay, startBlock: nat, manifest: seq<ManifestContract>)
    requires forall a :: a in configured ==> SeedProofs.Configured(manifest, a)
    ensures Seed(Created(startBlock), startBlock, manifest).Success?
    ensures Ready(Apply(Created(startBlock), SeedManifest(startBlock, manifest)), map[], w, configured)
  {
    var s0, step := Created(startBlock), SeedManifest(startBlock, manifest);
    EmptyHolds(startBlock);
    StepKeepsSound(s0, map[], step);
    StepKeepsTracking(w, configured, s0, map[], step);
    StepKeepsAgreement(w, s0, step);
    SeedMakesConfigured(configured, s0, map[], startBlock, manifest);
    assert NextChain(s0, map[], step) == map[];
  }
}
