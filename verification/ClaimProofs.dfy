/** No cursor claims more than is covered, as long as no deployment is recorded before the block that
    announced its contract: one contract at a time, through whole runs. */
module ClaimProofs {
  import opened Records
  import opened Database
  import opened LedgerProofs
  import opened Runs
  import opened World
  import opened Coverage
  import opened CoverageProofs
  import Ledger
  import Registry
  import RegistryProofs
  import SeedProofs

  // ---------------------------------------------------------------- storing a block

  lemma AppendKeepsInOrder(w: World, configured: Overlay, s: Store, chain: Chain, b: IndexedBlock, a: Address)
    requires Sound(s, chain) && Genuine(s, Append(b)) && StoreBlock(s, b).Success? && Complete(w, configured, s, b)
    requires a in s.registry.contracts ==> DeploymentInOrder(s.ledger.startBlock, s.registry.contracts[a])
    requires a in StoreBlock(s, b).value.registry.contracts
    ensures DeploymentInOrder(s.ledger.startBlock, StoreBlock(s, b).value.registry.contracts[a])
  {
    FoundRow(s.registry, b.number, b.hash, b.contracts, a);
    StoredRowIs(s, chain, configured, b, a);
    var found := Registry.StoreContracts(s.registry, b.number, b.hash, b.contracts).value;
    ObservedRow(found.contracts, b.number, b.observations, a);
    if a in RegistryProofs.Addresses(b.contracts) {
      var i :| 0 <= i < |b.contracts| && b.contracts[i].address == a;
      assert found.contracts[a] == Registry.UpsertContract(s.registry.contracts, b.contracts[i], b.number)[a];
    }
  }

  lemma {:induction false} UpsertedCursor(cursors: map<Address, Ledger.CursorRow>, cs: seq<LogScanCursor>, a: Address)
    ensures var after := Ledger.UpsertCursors(cursors, cs);
            a in after ==>
              || (a in cursors && after[a].startBlock == cursors[a].startBlock)
              || exists i :: 0 <= i < |cs| && cs[i].contractAddress == a && after[a].startBlock == cs[i].startBlock
  {
    if cs != [] {
      var front, last := cs[..|cs| - 1], cs[|cs| - 1];
      assert forall i :: 0 <= i < |front| ==> front[i] == cs[i];
      UpsertedCursor(cursors, front, a);
      if a == last.contractAddress {
        assert cs[|cs| - 1] == last;
      }
    }
  }

  lemma AppendKeepsCursor(w: World, configured: Overlay, s: Store, chain: Chain, b: IndexedBlock, a: Address)
    requires Sound(s, chain) && Genuine(s, Append(b)) && StoreBlock(s, b).Success? && Complete(w, configured, s, b)
    requires ClaimKept(configured, s, a)
    requires var after := StoreBlock(s, b).value;
             a !in configured && a in after.registry.contracts ==> InOrder(s.ledger.startBlock, after.registry.contracts[a])
    ensures var after := StoreBlock(s, b).value;
            a in after.ledger.cursors ==>
              CursorBelongs(after.ledger.startBlock, configured, after.registry.contracts, a, after.ledger.cursors[a].startBlock)
  {
    var after := StoreBlock(s, b).value;
    AppendIsWellPlaced(s, chain, b);
    UpsertedCursor(s.ledger.cursors, b.logScanCursors, a);
    if a in s.ledger.cursors {
      KnownRowStays(s, chain, configured, b, a);
    }
    forall i | 0 <= i < |b.logScanCursors| && b.logScanCursors[i].contractAddress == a
      ensures CursorFits(after.ledger.startBlock, configured, after.registry.contracts, b.logScanCursors[i])
    {
    }
  }

  lemma AppendKeepsClaim(w: World, configured: Overlay, s: Store, chain: Chain, b: IndexedBlock, a: Address)
    requires Sound(s, chain) && Genuine(s, Append(b)) && StoreBlock(s, b).Success? && Complete(w, configured, s, b)
    requires ClaimKept(configured, s, a)
    ensures ClaimKept(configured, StoreBlock(s, b).value, a)
  {
    AppendIsWellPlaced(s, chain, b);
    if a !in configured && a in StoreBlock(s, b).value.registry.contracts {
      AppendKeepsInOrder(w, configured, s, chain, b, a);
    }
    AppendKeepsCursor(w, configured, s, chain, b, a);
  }

  // ---------------------------------------------------------------- the other steps

  lemma RewindKeepsClaim(configured: Overlay, s: Store, chain: Chain, ancestor: int, ancestorHash: Option<Hash>, a: Address)
    requires Sound(s, chain) && Rewind(s, ancestor, ancestorHash).Success?
    requires OverlayIsManifest(configured, s.registry.contracts) && AnnouncedOnce(s.registry.discoveries)
    requires ClaimKept(configured, s, a)
    ensures ClaimKept(configured, Rewind(s, ancestor, ancestorHash).value, a)
  {
    RewoundRowIs(configured, s, chain, ancestor, ancestorHash, a);
    var after := Rewind(s, ancestor, ancestorHash).value;
    assert a in after.ledger.cursors ==> a in s.ledger.cursors && s.ledger.cursors[a].startBlock <= ancestor;
  }

  /** With all canonical history discarded nothing is claimed. */
  lemma InvalidateKeepsClaim(configured: Overlay, s: Store, startBlock: nat, a: Address)
    ensures ClaimKept(configured, Invalidate(s, startBlock), a)
  {
  }

  lemma NothingIndexedNothingClaimed(configured: Overlay, s: Store, chain: Chain, a: Address)
    requires Sound(s, chain) && s.ledger.indexedBlock.None?
    ensures ClaimKept(configured, s, a)
  {
  }

  lemma SameRowKeepsClaim(configured: Overlay, s: Store, t: Store, a: Address)
    requires ClaimKept(configured, s, a) && t.ledger == s.ledger && SameRow(s.registry.contracts, t.registry.contracts, a)
    ensures ClaimKept(configured, t, a)
  {
  }

  lemma SeedKeepsClaim(configured: Overlay, s: Store, chain: Chain, startBlock: nat, manifest: seq<ManifestContract>, a: Address)
    requires Sound(s, chain) && ClaimKept(configured, s, a)
    requires Seed(s, startBlock, manifest).Success?
    ensures ClaimKept(configured, Seed(s, startBlock, manifest).value, a)
  {
    SeedStep(s, chain, startBlock, manifest);
    var seeded := s.(registry := Registry.Seed(s.registry, startBlock, manifest));
    InvalidateKeepsClaim(configured, seeded, startBlock, a);
    if s.ledger.indexedBlock.None? {
      SeedProofs.SeedKeeps(s.registry, startBlock, Tip(s.ledger), chain, manifest);
      NothingIndexedNothingClaimed(configured, seeded, chain, a);
    } else if !Registry.ManifestChanged(s.registry, manifest) {
      UnchangedManifestRow(s, chain, startBlock, manifest, a);
      SameRowKeepsClaim(configured, s, seeded, a);
    }
  }

  /** A deployment recorded for a contract leaves its claim in order exactly if it is not before the
      announcement on file. */
  lemma RecordKeepsClaimExactly(configured: Overlay, s: Store, o: DeploymentObservation)
    requires var a := o.contractAddress;
             ClaimKept(configured, s, a) && a !in configured && a in s.registry.contracts && s.registry.contracts[a].canonical
    ensures ClaimKept(configured, Database.RecordDeployment(s, o), o.contractAddress) <==> Observes(s, o)
  {
  }

  /** It has no bearing on other contracts, nor on those with a configured deployment. */
  lemma RecordKeepsOtherClaims(configured: Overlay, s: Store, o: DeploymentObservation, a: Address)
    requires ClaimKept(configured, s, a)
    requires a != o.contractAddress || a in configured || Observes(s, o)
    ensures ClaimKept(configured, Database.RecordDeployment(s, o), a)
  {
  }

  // ---------------------------------------------------------------- whole runs

  /** The step records no deployment of `a` that is before its announcement. */
  predicate KeepsOrder(configured: Overlay, s: Store, step: Step, a: Address) {
    step.RecordDeployment? && step.o.contractAddress == a && a !in configured ==> Observes(s, step.o)
  }

  lemma StepKeepsClaim(w: World, configured: Overlay, s: Store, chain: Chain, step: Step, a: Address)
    requires Sound(s, chain) && Genuine(s, step) && CompleteStep(w, configured, s, step)
    requires OverlayIsManifest(configured, s.registry.contracts) && AnnouncedOnce(s.registry.discoveries)
    requires ClaimKept(configured, s, a) && KeepsOrder(configured, s, step, a)
    ensures ClaimKept(configured, Apply(s, step), a)
  {
    if Attempt(s, step).Success? {
      match step
      case Append(b) => AppendKeepsClaim(w, configured, s, chain, b, a);
      case RewindTo(ancestor, ancestorHash) => RewindKeepsClaim(configured, s, chain, ancestor, ancestorHash, a);
      case Advance(startBlock) => InvalidateKeepsClaim(configured, s, startBlock, a);
      case SeedManifest(startBlock, manifest) => SeedKeepsClaim(configured, s, chain, startBlock, manifest, a);
      case RecordDeployment(o) => RecordKeepsOtherClaims(configured, s, o, a);
    }
  }

  ghost predicate OrderKept(configured: Overlay, s: Store, steps: seq<Step>, a: Address) {
    forall i :: 0 <= i < |steps| ==> KeepsOrder(configured, Run(s, steps[..i]), steps[i], a)
  }

  /** Through whole runs, a contract for which no deployment was ever recorded before its announcement
      has a cursor that claims no more than is covered. */
  lemma {:induction false} RunKeepsClaim(w: World, configured: Overlay, startBlock: nat, steps: seq<Step>, a: Address)
    requires GenuineRun(Created(startBlock), steps) && CompleteRun(w, configured, Created(startBlock), steps)
    requires OrderKept(configured, Created(startBlock), steps, a)
    ensures ClaimKept(configured, Run(Created(startBlock), steps), a)
  {
    var s0 := Created(startBlock);
    if steps != [] {
      var front, last := steps[..|steps| - 1], steps[|steps| - 1];
      assert forall i :: 0 <= i < |front| ==> front[..i] == steps[..i] && front[i] == steps[i];
      RunKeepsClaim(w, configured, startBlock, front, a);
      RunIsSound(startBlock, front);
      RunIsTracked(w, configured, startBlock, front);
      assert Genuine(Run(s0, front), last) && CompleteStep(w, configured, Run(s0, front), last);
      assert KeepsOrder(configured, Run(s0, front), last, a);
      StepKeepsClaim(w, configured, Run(s0, front), History(s0, front), last, a);
    }
  }

  /** In every reachable state every log of a followed contract, from its effective start through the
      checkpoint, is a canonical row. */
  lemma RunHasLogsOnFile(w: World, configured: Overlay, startBlock: nat, steps: seq<Step>, a: Address, n: int, i: nat)
    requires GenuineRun(Created(startBlock), steps) && CompleteRun(w, configured, Created(startBlock), steps)
    requires var s := Run(Created(startBlock), steps);
             && a in s.registry.contracts && Followed(s.registry.contracts[a])
             && EffectiveStart(s.ledger.startBlock, configured, a, s.registry.contracts[a]) <= n <= Tip(s.ledger)
    ensures var s, chain := Run(Created(startBlock), steps), History(Created(startBlock), steps);
            n in chain && (Emits(w, a, chain[n].hash, i) ==>
              var k := EvidenceKey(Logs, chain[n].hash, i);
              k in s.ledger.evidence && s.ledger.evidence[k].canonical && s.ledger.evidence[k].number == n)
  {
    RunIsSound(startBlock, steps);
    RunIsTracked(w, configured, startBlock, steps);
    FollowedLogsOnFile(w, configured, Run(Created(startBlock), steps), History(Created(startBlock), steps), a, n, i);
  }

  /** And so is every log between the two ends of a cursor. */
  lemma RunCursorsClaimOnlyCovered(w: World, configured: Overlay, startBlock: nat, steps: seq<Step>, a: Address, n: int, i: nat)
    requires GenuineRun(Created(startBlock), steps) && CompleteRun(w, configured, Created(startBlock), steps)
    requires OrderKept(configured, Created(startBlock), steps, a)
    requires var s := Run(Created(startBlock), steps);
             a in s.ledger.cursors && s.ledger.cursors[a].startBlock <= n <= s.ledger.cursors[a].lastRetrievedBlock
    ensures var s, chain := Run(Created(startBlock), steps), History(Created(startBlock), steps);
            n in chain && a in s.registry.contracts
            && (Followed(s.registry.contracts[a]) && Emits(w, a, chain[n].hash, i) ==>
              var k := EvidenceKey(Logs, chain[n].hash, i);
              k in s.ledger.evidence && s.ledger.evidence[k].canonical && s.ledger.evidence[k].number == n)
  {
    RunIsSound(startBlock, steps);
    RunIsTracked(w, configured, startBlock, steps);
    RunKeepsClaim(w, configured, startBlock, steps, a);
    CursorsClaimOnlyCovered(w, configured, Run(Created(startBlock), steps), History(Created(startBlock), steps), a, n, i);
  }
}
