/** Every step keeps the coverage of followed contracts, whichever way a run goes. */
module CoverageProofs {
  import opened Records
  import opened Database
  import opened LedgerProofs
  import opened Runs
  import opened World
  import opened Coverage
  import Registry
  import RegistryProofs
  import SeedProofs

  // ---------------------------------------------------------------- what a block has to bring along

  ghost predicate BringsLogs(w: World, configured: Overlay, after: Store, b: IndexedBlock) {
    forall a :: a in after.registry.contracts && Followed(after.registry.contracts[a]) ==>
      EffectiveStart(after.ledger.startBlock, configured, a, after.registry.contracts[a]) <= b.number ==> EvidenceStored(w, a, b)
  }

  /** A cursor that claims no more than is covered, provided its contract's deployment is in order. */
  predicate CursorFits(startBlock: nat, configured: Overlay, contracts: map<Address, Registry.ContractRow>, c: LogScanCursor) {
    var a := c.contractAddress;
    && a in contracts && contracts[a].canonical
    && (a in configured || InOrder(startBlock, contracts[a]) ==> CursorBelongs(startBlock, configured, contracts, a, c.startBlock))
  }

  ghost predicate BringsCursors(configured: Overlay, after: Store, b: IndexedBlock) {
    forall i :: 0 <= i < |b.logScanCursors| ==>
      CursorFits(after.ledger.startBlock, configured, after.registry.contracts, b.logScanCursors[i])
  }

  /** The observed deployment is not before the announcement on file. */
  predicate Observes(s: Store, o: DeploymentObservation) {
    o.deployment.Some? && o.contractAddress in s.registry.contracts ==>
      var row := s.registry.contracts[o.contractAddress];
      row.discovery.Some? && row.discovery.value.block >= s.ledger.startBlock ==> row.discovery.value.block <= o.deployment.value.block
  }

  /** The block announces new contracts only, carries every log of what is followed once it is stored,
      and its cursors and deployments claim no more than that. */
  ghost predicate Complete(w: World, configured: Overlay, s: Store, b: IndexedBlock) {
    && AnnouncesNew(configured, s, b)
    && (forall i :: 0 <= i < |b.observations| ==>
          b.observations[i].contractAddress !in RegistryProofs.Addresses(b.contracts) && Observes(s, b.observations[i]))
    && (StoreBlock(s, b).Success? ==>
          BringsLogs(w, configured, StoreBlock(s, b).value, b) && BringsCursors(configured, StoreBlock(s, b).value, b))
  }

  ghost predicate AnnouncesNew(configured: Overlay, s: Store, b: IndexedBlock) {
    forall i :: 0 <= i < |b.contracts| ==> Unknown(s.registry.contracts, configured, b.contracts[i].address)
  }

  /** What is asked of a step: a deployment that is recorded may be any. */
  ghost predicate CompleteStep(w: World, configured: Overlay, s: Store, step: Step) {
    match step
    case Append(b) => Complete(w, configured, s, b)
    case SeedManifest(_, manifest) => forall a :: a in configured ==> SeedProofs.Configured(manifest, a)
    case _ => true
  }

  // ---------------------------------------------------------------- storing a block

  lemma AppendKeepsCovered(w: World, configured: Overlay, s: Store, chain: Chain, b: IndexedBlock)
    requires Sound(s, chain) && Genuine(s, Append(b)) && StoreBlock(s, b).Success?
    requires Covered(w, configured, s, chain) && Complete(w, configured, s, b)
    ensures Covered(w, configured, StoreBlock(s, b).value, chain[b.number := b])
  {
    var after := StoreBlock(s, b).value;
    AppendKeepsLedger(s, chain, b);
    forall a | a in after.registry.contracts && Followed(after.registry.contracts[a])
      ensures CoveredFrom(w, EffectiveStart(after.ledger.startBlock, configured, a, after.registry.contracts[a]), a, chain[b.number := b])
    {
      ContractStaysCovered(w, configured, s, chain, b, a);
    }
  }

  lemma ContractStaysCovered(w: World, configured: Overlay, s: Store, chain: Chain, b: IndexedBlock, a: Address)
    requires Sound(s, chain) && Genuine(s, Append(b)) && StoreBlock(s, b).Success? && b.number == Next(s.ledger)
    requires Covered(w, configured, s, chain) && AnnouncesNew(configured, s, b)
    requires BringsLogs(w, configured, StoreBlock(s, b).value, b)
    requires var after := StoreBlock(s, b).value; a in after.registry.contracts && Followed(after.registry.contracts[a])
    ensures var after := StoreBlock(s, b).value;
            CoveredFrom(w, EffectiveStart(after.ledger.startBlock, configured, a, after.registry.contracts[a]), a, chain[b.number := b])
  {
    var row := StoreBlock(s, b).value.registry.contracts[a];
    StoredRowIs(s, chain, configured, b, a);
    forall n | n in chain && EffectiveStart(s.ledger.startBlock, configured, a, row) <= n
      ensures EvidenceStored(w, a, chain[n])
    {
      EarlierBlockCovered(w, configured, s, chain, b, a, n, row);
    }
  }

  lemma EarlierBlockCovered(w: World, configured: Overlay, s: Store, chain: Chain, b: IndexedBlock, a: Address, n: int,
                            after: Registry.ContractRow)
    requires Sound(s, chain) && Covered(w, configured, s, chain) && b.number == Next(s.ledger)
    requires AnnouncesNew(configured, s, b)
    requires n in chain && StoredRow(s.registry.contracts, b, a, after) && Followed(after)
    requires EffectiveStart(s.ledger.startBlock, configured, a, after) <= n
    ensures EvidenceStored(w, a, chain[n])
  {
  }

  lemma KnownRowStays(s: Store, chain: Chain, configured: Overlay, b: IndexedBlock, a: Address)
    requires Sound(s, chain) && Genuine(s, Append(b)) && StoreBlock(s, b).Success? && AnnouncesNew(configured, s, b)
    requires a in s.registry.contracts && s.registry.contracts[a].canonical
    ensures a in StoreBlock(s, b).value.registry.contracts
    ensures SameTracking(s.registry.contracts[a], StoreBlock(s, b).value.registry.contracts[a])
  {
    StoredRowIs(s, chain, configured, b, a);
  }

  lemma AppendKeepsOnce(configured: Overlay, s: Store, chain: Chain, b: IndexedBlock)
    requires Sound(s, chain) && Genuine(s, Append(b)) && StoreBlock(s, b).Success?
    requires AnnouncedOnce(s.registry.discoveries)
    requires AnnouncesNew(configured, s, b)
    ensures AnnouncedOnce(StoreBlock(s, b).value.registry.discoveries)
  {
    var d, e := s.registry.discoveries, StoreBlock(s, b).value.registry.discoveries;
    forall k | k in e && e[k].canonical
      ensures e[k].number == b.number || (k in d && d[k].canonical && d[k].number == e[k].number)
      ensures e[k].number == b.number ==> !Registry.HasDiscovery(d, k.address)
    {
      DiscoveryNewOrKept(configured, s, chain, b, k);
    }
    forall k | k in d && d[k].canonical
      ensures Registry.HasDiscovery(d, k.address)
    {
      assert Registry.CanonicalDiscovery(d, k.address, k);
    }
  }

  lemma DiscoveryNewOrKept(configured: Overlay, s: Store, chain: Chain, b: IndexedBlock, k: Registry.DiscoveryKey)
    requires Sound(s, chain) && Genuine(s, Append(b)) && StoreBlock(s, b).Success?
    requires AnnouncesNew(configured, s, b)
    requires var e := StoreBlock(s, b).value.registry.discoveries; k in e && e[k].canonical
    ensures var d, e := s.registry.discoveries, StoreBlock(s, b).value.registry.discoveries;
            && (e[k].number == b.number || (k in d && d[k].canonical && d[k].number == e[k].number))
            && (e[k].number == b.number ==> !Registry.HasDiscovery(d, k.address))
  {
    var d, e := s.registry.discoveries, StoreBlock(s, b).value.registry.discoveries;
    AppendKeepsLedger(s, chain, b);
    AppendKeepsRegistry(s, chain, b);
    AppendIsWellPlaced(s, chain, b);
    var longer := chain[b.number := b];
    assert RegistryProofs.Announces(longer[e[k].number], k, e[k].number);
    if e[k].number == b.number {
      var j :| 0 <= j < |b.contracts| && b.contracts[j].address == k.address;
      assert Unknown(s.registry.contracts, configured, k.address);
      if k.address in s.registry.contracts {
        assert RegistryProofs.RowOk(d, s.ledger.startBlock, k.address, s.registry.contracts[k.address]);
      }
    } else {
      EarlierDiscovery(s.registry, chain, k, e[k].number);
    }
  }

  lemma EarlierDiscovery(r: Registry.Registry, chain: Chain, k: Registry.DiscoveryKey, n: nat)
    requires RegistryProofs.DiscoveriesMatch(r.discoveries, chain)
    requires n in chain && RegistryProofs.Announces(chain[n], k, n)
    ensures k in r.discoveries && r.discoveries[k].canonical && r.discoveries[k].number == n
  {
  }

  lemma AppendKeepsOverlay(configured: Overlay, s: Store, chain: Chain, b: IndexedBlock)
    requires Sound(s, chain) && Genuine(s, Append(b)) && StoreBlock(s, b).Success?
    requires OverlayIsManifest(configured, s.registry.contracts) && AnnouncesNew(configured, s, b)
    ensures OverlayIsManifest(configured, StoreBlock(s, b).value.registry.contracts)
  {
    forall a | a in configured && a in StoreBlock(s, b).value.registry.contracts
      ensures StoreBlock(s, b).value.registry.contracts[a].identity.provenance.Manifest?
    {
      StoredRowIs(s, chain, configured, b, a);
    }
  }

  lemma AppendKeepsTracking(w: World, configured: Overlay, s: Store, chain: Chain, b: IndexedBlock)
    requires Sound(s, chain) && Genuine(s, Append(b)) && StoreBlock(s, b).Success?
    requires Tracking(w, configured, s, chain) && Complete(w, configured, s, b)
    ensures Tracking(w, configured, StoreBlock(s, b).value, chain[b.number := b])
  {
    AppendKeepsCovered(w, configured, s, chain, b);
    AppendKeepsOverlay(configured, s, chain, b);
    AppendKeepsOnce(configured, s, chain, b);
  }

  // ---------------------------------------------------------------- rewinding

  /** With no contract announced twice, a rewind only ever takes contracts away. */
  lemma RewoundRow(d: map<Registry.DiscoveryKey, Registry.DiscoveryRow>, startBlock: nat, ancestor: int, a: Address,
                   row: Registry.ContractRow)
    requires AnnouncedOnce(d) && RegistryProofs.RowOk(d, startBlock, a, row)
    ensures Registry.RestoredRow(Registry.OrphanDiscoveries(d, ancestor), a,
                                 Registry.OrphanContract(Registry.ForgetDeployment(row, ancestor), startBlock, ancestor))
            == Registry.OrphanContract(Registry.ForgetDeployment(row, ancestor), startBlock, ancestor)
  {
    var e := Registry.OrphanDiscoveries(d, ancestor);
    var orphaned := Registry.OrphanContract(Registry.ForgetDeployment(row, ancestor), startBlock, ancestor);
    if !orphaned.canonical && Registry.HasDiscovery(d, a) {
      var j :| Registry.IsLatest(d, a, j) && row.discovery == Some(Position(d[j].number, j.txHash));
      forall k
        ensures !Registry.CanonicalDiscovery(e, a, k)
      {
        assert Registry.CanonicalDiscovery(e, a, k) ==> Registry.CanonicalDiscovery(d, a, k);
      }
    } else if !orphaned.canonical {
      forall k
        ensures !Registry.CanonicalDiscovery(e, a, k)
      {
        assert !Registry.CanonicalDiscovery(d, a, k);
      }
    }
  }

  lemma OrphanedRow(configured: Overlay, d: map<Registry.DiscoveryKey, Registry.DiscoveryRow>, startBlock: nat,
                    ancestor: int, a: Address, row: Registry.ContractRow)
    requires a in configured ==> row.identity.provenance.Manifest?
    requires RegistryProofs.RowOk(d, startBlock, a, row)
    ensures var after := Registry.OrphanContract(Registry.ForgetDeployment(row, ancestor), startBlock, ancestor);
            && after.identity == row.identity
            && (after.canonical ==> SameTracking(row, after))
            && (row.canonical && !after.canonical ==> ancestor < EffectiveStart(startBlock, configured, a, row))
            && (DeploymentInOrder(startBlock, row) ==> DeploymentInOrder(startBlock, after))
  {
  }

  /** What a rewind does to a contract row. */
  predicate RowRewound(startBlock: nat, configured: Overlay, ancestor: int, a: Address, before: Registry.ContractRow, after: Registry.ContractRow) {
    && after.identity == before.identity
    && (after.canonical ==> SameTracking(before, after))
    && (before.canonical && !after.canonical ==> ancestor < EffectiveStart(startBlock, configured, a, before))
    && (DeploymentInOrder(startBlock, before) ==> DeploymentInOrder(startBlock, after))
  }

  lemma RewoundRowIs(configured: Overlay, s: Store, chain: Chain, ancestor: int, ancestorHash: Option<Hash>, a: Address)
    requires Sound(s, chain) && Rewind(s, ancestor, ancestorHash).Success?
    requires OverlayIsManifest(configured, s.registry.contracts) && AnnouncedOnce(s.registry.discoveries)
    ensures var after := Rewind(s, ancestor, ancestorHash).value.registry.contracts;
            && (a in after <==> a in s.registry.contracts)
            && (a in after ==> RowRewound(s.ledger.startBlock, configured, ancestor, a, s.registry.contracts[a], after[a]))
  {
    if a in s.registry.contracts {
      RewoundRow(s.registry.discoveries, s.ledger.startBlock, ancestor, a, s.registry.contracts[a]);
      OrphanedRow(configured, s.registry.discoveries, s.ledger.startBlock, ancestor, a, s.registry.contracts[a]);
    }
  }

  lemma RewindKeepsCovered(w: World, configured: Overlay, s: Store, chain: Chain, ancestor: int, ancestorHash: Option<Hash>)
    requires Sound(s, chain) && Rewind(s, ancestor, ancestorHash).Success?
    requires Tracking(w, configured, s, chain)
    ensures Covered(w, configured, Rewind(s, ancestor, ancestorHash).value, Kept(chain, ancestor))
  {
    var after := Rewind(s, ancestor, ancestorHash).value;
    forall a | a in after.registry.contracts && Followed(after.registry.contracts[a])
      ensures CoveredFrom(w, EffectiveStart(after.ledger.startBlock, configured, a, after.registry.contracts[a]), a, Kept(chain, ancestor))
    {
      RewoundRowIs(configured, s, chain, ancestor, ancestorHash, a);
      assert Followed(s.registry.contracts[a]);
      assert CoveredFrom(w, EffectiveStart(s.ledger.startBlock, configured, a, s.registry.contracts[a]), a, chain);
    }
  }

  lemma RewindKeepsTracking(w: World, configured: Overlay, s: Store, chain: Chain, ancestor: int, ancestorHash: Option<Hash>)
    requires Sound(s, chain) && Rewind(s, ancestor, ancestorHash).Success?
    requires Tracking(w, configured, s, chain)
    ensures Tracking(w, configured, Rewind(s, ancestor, ancestorHash).value, Kept(chain, ancestor))
  {
    RewindKeepsCovered(w, configured, s, chain, ancestor, ancestorHash);
    forall a
      ensures var after := Rewind(s, ancestor, ancestorHash).value.registry.contracts;
              a in after ==> a in s.registry.contracts && after[a].identity == s.registry.contracts[a].identity
    {
      RewoundRowIs(configured, s, chain, ancestor, ancestorHash, a);
    }
    OrphansStayOnce(s.registry.discoveries, ancestor);
  }

  lemma OrphansStayOnce(d: map<Registry.DiscoveryKey, Registry.DiscoveryRow>, ancestor: int)
    requires AnnouncedOnce(d)
    ensures AnnouncedOnce(Registry.OrphanDiscoveries(d, ancestor))
  {
  }

  // ---------------------------------------------------------------- discarding all, seeding, recording a deployment

  lemma InvalidateKeepsTracking(w: World, configured: Overlay, s: Store, startBlock: nat)
    requires OverlayIsManifest(configured, s.registry.contracts)
    ensures Tracking(w, configured, Invalidate(s, startBlock), map[])
  {
  }

  /** With nothing indexed there is nothing to claim. */
  lemma NothingIndexedIsTracked(w: World, configured: Overlay, s: Store, chain: Chain)
    requires Sound(s, chain) && s.ledger.indexedBlock.None?
    requires OverlayIsManifest(configured, s.registry.contracts)
    ensures Tracking(w, configured, s, chain)
  {
  }

  lemma OverlaySeeded(configured: Overlay, s: Store, chain: Chain, startBlock: nat, manifest: seq<ManifestContract>)
    requires Sound(s, chain) && Seed(s, startBlock, manifest).Success?
    requires forall a :: a in configured ==> SeedProofs.Configured(manifest, a)
    ensures OverlayIsManifest(configured, Registry.Seed(s.registry, startBlock, manifest).contracts)
  {
    forall a
      ensures var seeded := Registry.Seed(s.registry, startBlock, manifest);
              a in configured && a in seeded.contracts ==> seeded.contracts[a].identity.provenance.Manifest?
    {
      SeedProofs.SeededRow(s.registry, startBlock, Tip(s.ledger), chain, manifest, a);
    }
  }

  predicate SameRow(before: map<Address, Registry.ContractRow>, after: map<Address, Registry.ContractRow>, a: Address) {
    && (a in before <==> a in after)
    && (a in before ==> SameTracking(before[a], after[a]) && after[a].deployment == before[a].deployment)
  }

  /** Seeding an unchanged manifest leaves what a contract row says about tracking as it was. */
  lemma UnchangedManifestRow(s: Store, chain: Chain, startBlock: nat, manifest: seq<ManifestContract>, a: Address)
    requires Sound(s, chain) && startBlock == s.ledger.startBlock
    requires !Registry.ManifestChanged(s.registry, manifest)
    ensures SameRow(s.registry.contracts, Registry.Seed(s.registry, startBlock, manifest).contracts, a)
  {
    var r := s.registry;
    SeedProofs.SeededRow(r, startBlock, Tip(s.ledger), chain, manifest, a);
    forall m
      ensures m in manifest <==> m in Registry.StoredManifest(r)
    {
      assert m in multiset(manifest) <==> m in multiset(Registry.StoredManifest(r));
    }
    if SeedProofs.Configured(manifest, a) {
      var i :| SeedProofs.LastFor(manifest, a, i)
               && Registry.Seed(r, startBlock, manifest).contracts[a].identity == Registry.ManifestIdentity(manifest[i]);
      assert manifest[i] in Registry.StoredManifest(r);
    } else if a in r.contracts && r.contracts[a].identity.provenance.Manifest? {
      assert RegistryProofs.RowOk(r.discoveries, startBlock, a, r.contracts[a]);
      StoredIsConfigured(r, manifest, a);
      assert false;
    }
  }

  lemma StoredIsConfigured(r: Registry.Registry, manifest: seq<ManifestContract>, a: Address)
    requires forall m :: m in manifest <==> m in Registry.StoredManifest(r)
    requires a in r.contracts && r.contracts[a].identity.provenance.Manifest? && r.contracts[a].canonical
    ensures SeedProofs.Configured(manifest, a)
  {
    var m := ManifestContract(a, r.contracts[a].identity.displayLabel, r.contracts[a].identity.kind);
    assert m in Registry.StoredManifest(r);
    var i :| 0 <= i < |manifest| && manifest[i] == m;
  }

  ghost predicate SameRows(before: map<Address, Registry.ContractRow>, after: map<Address, Registry.ContractRow>) {
    forall a :: SameRow(before, after, a)
  }

  lemma UnchangedManifestRows(s: Store, chain: Chain, startBlock: nat, manifest: seq<ManifestContract>)
    requires Sound(s, chain) && startBlock == s.ledger.startBlock
    requires !Registry.ManifestChanged(s.registry, manifest)
    ensures SameRows(s.registry.contracts, Registry.Seed(s.registry, startBlock, manifest).contracts)
  {
    forall a
      ensures SameRow(s.registry.contracts, Registry.Seed(s.registry, startBlock, manifest).contracts, a)
    {
      UnchangedManifestRow(s, chain, startBlock, manifest, a);
    }
  }

  lemma SameRowsTracked(w: World, configured: Overlay, s: Store, t: Store, chain: Chain)
    requires Tracking(w, configured, s, chain)
    requires t.ledger == s.ledger && t.registry.discoveries == s.registry.discoveries
    requires SameRows(s.registry.contracts, t.registry.contracts)
    ensures Tracking(w, configured, t, chain)
  {
    forall a | a in t.registry.contracts
      ensures a in configured ==> t.registry.contracts[a].identity.provenance.Manifest?
      ensures Followed(t.registry.contracts[a]) ==>
                CoveredFrom(w, EffectiveStart(t.ledger.startBlock, configured, a, t.registry.contracts[a]), a, chain)
    {
      assert SameRow(s.registry.contracts, t.registry.contracts, a);
    }
  }

  /** Whatever deployment is recorded, coverage is about the announcement. */
  lemma RecordKeepsTracking(w: World, configured: Overlay, s: Store, chain: Chain, o: DeploymentObservation)
    requires Tracking(w, configured, s, chain)
    ensures Tracking(w, configured, Database.RecordDeployment(s, o), chain)
  {
  }

  lemma SeedKeepsTracking(w: World, configured: Overlay, s: Store, chain: Chain, startBlock: nat, manifest: seq<ManifestContract>)
    requires Sound(s, chain) && startBlock == s.ledger.startBlock
    requires Tracking(w, configured, s, chain)
    requires forall a :: a in configured ==> SeedProofs.Configured(manifest, a)
    ensures var seeded := s.(registry := Registry.Seed(s.registry, startBlock, manifest));
            && (s.ledger.indexedBlock.None? || !Registry.ManifestChanged(s.registry, manifest) ==>
                  Tracking(w, configured, seeded, chain))
            && Tracking(w, configured, Invalidate(seeded, startBlock), map[])
  {
    var registry := Registry.Seed(s.registry, startBlock, manifest);
    var seeded := s.(registry := registry);
    OverlaySeeded(configured, s, chain, startBlock, manifest);
    InvalidateKeepsTracking(w, configured, seeded, startBlock);
    if s.ledger.indexedBlock.None? {
      SeedProofs.SeedKeeps(s.registry, startBlock, Tip(s.ledger), chain, manifest);
      NothingIndexedIsTracked(w, configured, seeded, chain);
    } else if !Registry.ManifestChanged(s.registry, manifest) {
      UnchangedManifestRows(s, chain, startBlock, manifest);
      SameRowsTracked(w, configured, s, seeded, chain);
    }
  }

  // ---------------------------------------------------------------- whole runs

  /** What seeding comes to, and the chain with it. */
  lemma SeedStep(s: Store, chain: Chain, startBlock: nat, manifest: seq<ManifestContract>)
    requires Seed(s, startBlock, manifest).Success?
    ensures startBlock == s.ledger.startBlock
    ensures var seeded := s.(registry := Registry.Seed(s.registry, startBlock, manifest));
            if Registry.ManifestChanged(s.registry, manifest) && s.ledger.indexedBlock.Some?
            then Seed(s, startBlock, manifest).value == Invalidate(seeded, startBlock)
                 && NextChain(s, chain, SeedManifest(startBlock, manifest)) == map[]
            else Seed(s, startBlock, manifest).value == seeded && NextChain(s, chain, SeedManifest(startBlock, manifest)) == chain
  {
  }

  lemma SeedStepKeepsTracking(w: World, configured: Overlay, s: Store, chain: Chain, startBlock: nat, manifest: seq<ManifestContract>)
    requires Sound(s, chain) && Tracking(w, configured, s, chain)
    requires forall a :: a in configured ==> SeedProofs.Configured(manifest, a)
    requires Seed(s, startBlock, manifest).Success?
    ensures Tracking(w, configured, Seed(s, startBlock, manifest).value, NextChain(s, chain, SeedManifest(startBlock, manifest)))
  {
    SeedStep(s, chain, startBlock, manifest);
    SeedKeepsTracking(w, configured, s, chain, startBlock, manifest);
  }

  lemma StepKeepsTracking(w: World, configured: Overlay, s: Store, chain: Chain, step: Step)
    requires Sound(s, chain) && Genuine(s, step) && CompleteStep(w, configured, s, step)
    requires Tracking(w, configured, s, chain)
    ensures Tracking(w, configured, Apply(s, step), NextChain(s, chain, step))
  {
    if Attempt(s, step).Success? {
      match step
      case Append(b) => AppendKeepsTracking(w, configured, s, chain, b);
      case RewindTo(ancestor, ancestorHash) => RewindKeepsTracking(w, configured, s, chain, ancestor, ancestorHash);
      case Advance(startBlock) => AdvanceKeepsTracking(w, configured, s, chain, startBlock);
      case SeedManifest(startBlock, manifest) => SeedStepKeepsTracking(w, configured, s, chain, startBlock, manifest);
      case RecordDeployment(o) => RecordKeepsTracking(w, configured, s, chain, o);
    }
  }

  lemma AdvanceKeepsTracking(w: World, configured: Overlay, s: Store, chain: Chain, startBlock: nat)
    requires Sound(s, chain) && Tracking(w, configured, s, chain)
    ensures Tracking(w, configured, Invalidate(s, startBlock), map[])
  {
  }

  ghost predicate CompleteRun(w: World, configured: Overlay, s: Store, steps: seq<Step>) {
    forall i {:trigger CompleteStep(w, configured, Run(s, steps[..i]), steps[i])} :: 0 <= i < |steps| ==>
      CompleteStep(w, configured, Run(s, steps[..i]), steps[i])
  }

  lemma CompleteExtends(w: World, configured: Overlay, s: Store, steps: seq<Step>, step: Step)
    requires CompleteRun(w, configured, s, steps) && CompleteStep(w, configured, Run(s, steps), step)
    ensures CompleteRun(w, configured, s, steps + [step])
  {
    var longer := steps + [step];
    forall i | 0 <= i < |longer|
      ensures CompleteStep(w, configured, Run(s, longer[..i]), longer[i])
    {
      assert longer[..i] == steps[..i];
      if i == |steps| {
        assert steps[..i] == steps;
      } else {
        assert CompleteStep(w, configured, Run(s, steps[..i]), steps[i]);
      }
    }
  }

  /** Whatever the order of complete blocks, rewinds, resets, restarts and recorded deployments, the
      logs of every followed contract are covered. */
  lemma {:induction false} RunIsTracked(w: World, configured: Overlay, startBlock: nat, steps: seq<Step>)
    requires GenuineRun(Created(startBlock), steps) && CompleteRun(w, configured, Created(startBlock), steps)
    ensures Tracking(w, configured, Run(Created(startBlock), steps), History(Created(startBlock), steps))
  {
    var s0 := Created(startBlock);
    if steps != [] {
      var front, last := steps[..|steps| - 1], steps[|steps| - 1];
      assert forall i :: 0 <= i < |front| ==> front[..i] == steps[..i] && front[i] == steps[i];
      RunIsTracked(w, configured, startBlock, front);
      RunIsSound(startBlock, front);
      assert Genuine(Run(s0, front), last) && CompleteStep(w, configured, Run(s0, front), last);
      StepKeepsTracking(w, configured, Run(s0, front), History(s0, front), last);
    }
  }
}
