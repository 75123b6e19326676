/** What the soundness of runs means for orphaned rows, for the contract registry and for token
    metadata. */
module RunConsequences {
  import opened Records
  import opened Database
  import opened LedgerProofs
  import opened Runs
  import Ledger
  import Registry
  import RegistryProofs

  // ---------------------------------------------------------------- nothing is ever deleted

  /** Every row of `s` is still there in `t`, under the same number, with the payload if that is kept. */
  predicate Survive(s: Store, t: Store) {
    && (forall h :: h in s.ledger.blocks ==>
          h in t.ledger.blocks && t.ledger.blocks[h].number == s.ledger.blocks[h].number
          && t.ledger.blocks[h].parentHash == s.ledger.blocks[h].parentHash)
    && (forall k :: k in s.ledger.evidence ==>
          k in t.ledger.evidence && t.ledger.evidence[k].number == s.ledger.evidence[k].number
          && (KeepsPayload(k.table) ==> t.ledger.evidence[k].data == s.ledger.evidence[k].data))
    && (forall k :: k in s.registry.discoveries ==>
          k in t.registry.discoveries && t.registry.discoveries[k].number == s.registry.discoveries[k].number
          && t.registry.discoveries[k].identity == s.registry.discoveries[k].identity)
  }

  lemma {:induction false} DiscoveriesSurvive(r: Registry.Registry, n: nat, hash: Hash, cs: seq<DiscoveredContract>)
    requires Registry.StoreContracts(r, n, hash, cs).Success?
    ensures var d := Registry.StoreContracts(r, n, hash, cs).value.discoveries;
            forall k :: k in r.discoveries ==>
              k in d && d[k].number == r.discoveries[k].number && d[k].identity == r.discoveries[k].identity
  {
    if cs != [] {
      DiscoveriesSurvive(r, n, hash, cs[..|cs| - 1]);
    }
  }

  lemma AppendSurvives(s: Store, b: IndexedBlock)
    requires StoreBlock(s, b).Success?
    ensures Survive(s, StoreBlock(s, b).value)
  {
    DiscoveriesSurvive(s.registry, b.number, b.hash, b.contracts);
  }

  lemma RewindSurvives(s: Store, ancestor: int, ancestorHash: Option<Hash>)
    requires Rewind(s, ancestor, ancestorHash).Success?
    ensures Survive(s, Rewind(s, ancestor, ancestorHash).value)
  {
  }

  lemma StepSurvives(s: Store, step: Step)
    ensures Survive(s, Apply(s, step))
  {
    if Attempt(s, step).Success? {
      match step
      case Append(b) => AppendSurvives(s, b);
      case RewindTo(ancestor, ancestorHash) => RewindSurvives(s, ancestor, ancestorHash);
      case _ =>
    }
  }

  lemma {:induction false} RunSurvives(s: Store, steps: seq<Step>, i: nat)
    requires i <= |steps|
    ensures Survive(Run(s, steps[..i]), Run(s, steps))
  {
    if i == |steps| {
      assert steps[..i] == steps;
    } else {
      var front := steps[..|steps| - 1];
      assert front[..i] == steps[..i];
      RunSurvives(s, front, i);
      StepSurvives(Run(s, front), steps[|steps| - 1]);
    }
  }

  /** A block accepted at any point of a run stays on file, and it is canonical in the end exactly
      when the canonical chain still has it at its number. */
  lemma OrphansStayOnFile(startBlock: nat, steps: seq<Step>, i: nat)
    requires GenuineRun(Created(startBlock), steps)
    requires i < |steps| && steps[i].Append? && Attempt(Run(Created(startBlock), steps[..i]), steps[i]).Success?
    ensures var l, chain, b := Run(Created(startBlock), steps).ledger, History(Created(startBlock), steps), steps[i].b;
            && b.hash in l.blocks
            && l.blocks[b.hash].number == b.number && l.blocks[b.hash].parentHash == b.parentHash
            && (l.blocks[b.hash].canonical <==> b.number in chain && chain[b.number].hash == b.hash)
  {
    var s0 := Created(startBlock);
    assert steps[..i + 1][..i] == steps[..i];
    assert Genuine(Run(s0, steps[..i]), steps[i]);
    AcceptedIsOnFile(Run(s0, steps[..i]), steps[i].b);
    RunSurvives(s0, steps, i + 1);
    RunIsSound(startBlock, steps);
    CanonicalExactly(Run(s0, steps).ledger, History(s0, steps), steps[i].b.hash);
  }

  /** So do its evidence rows: each is canonical in the end exactly when the canonical chain's block at
      its number brought it along, and shows what was first stored if its table never rewrites. */
  lemma OrphanedEvidenceStays(startBlock: nat, steps: seq<Step>, i: nat, k: EvidenceKey)
    requires GenuineRun(Created(startBlock), steps)
    requires i < |steps| && steps[i].Append? && Attempt(Run(Created(startBlock), steps[..i]), steps[i]).Success?
    requires k in steps[i].b.evidence
    ensures var l, chain, b := Run(Created(startBlock), steps).ledger, History(Created(startBlock), steps), steps[i].b;
            && k in l.evidence && l.evidence[k].number == b.number
            && (l.evidence[k].canonical <==> b.number in chain && k in chain[b.number].evidence)
            && (l.evidence[k].canonical ==> chain[b.number].hash == b.hash && l.evidence[k].data == chain[b.number].evidence[k])
            && (!l.evidence[k].canonical ==> !l.evidence[k].finalized)
            && (KeepsPayload(k.table) ==> l.evidence[k].data == b.evidence[k])
  {
    var s0 := Created(startBlock);
    assert steps[..i + 1][..i] == steps[..i];
    assert Genuine(Run(s0, steps[..i]), steps[i]);
    assert forall j :: 0 <= j < i ==> steps[..i][..j] == steps[..j] && steps[..i][j] == steps[j];
    RunIsSound(startBlock, steps[..i]);
    AcceptedEvidenceIsOnFile(Run(s0, steps[..i]), History(s0, steps[..i]), steps[i].b, k);
    RunSurvives(s0, steps, i + 1);
    RunIsSound(startBlock, steps);
    RowCanonicalExactly(Run(s0, steps).ledger, History(s0, steps), k);
  }

  lemma AcceptedEvidenceIsOnFile(s: Store, chain: Chain, b: IndexedBlock, k: EvidenceKey)
    requires Sound(s, chain) && Genuine(s, Append(b)) && StoreBlock(s, b).Success? && k in b.evidence
    ensures var rows := StoreBlock(s, b).value.ledger.evidence;
            && k in rows && rows[k].number == b.number && k.blockHash == b.hash
            && (KeepsPayload(k.table) ==> rows[k].data == b.evidence[k])
  {
    if k in s.ledger.evidence {
      assert RowFiled(s.ledger.blocks, k, s.ledger.evidence[k]);
    }
  }

  lemma RowCanonicalExactly(l: Ledger.Ledger, chain: Chain, k: EvidenceKey)
    requires Holds(l, chain) && k in l.evidence
    ensures var row := l.evidence[k];
            && (row.canonical <==> row.number in chain && k in chain[row.number].evidence)
            && (row.canonical ==> chain[row.number].hash == k.blockHash && row.data == chain[row.number].evidence[k])
            && (!row.canonical ==> !row.finalized)
  {
    var row := l.evidence[k];
    assert RowFiled(l.blocks, k, row) && RowJustified(chain, k, row);
    if row.number in chain && k in chain[row.number].evidence {
      assert HasRow(l.evidence, k, chain[row.number].evidence[k]) && Acceptable(row.number, chain[row.number]);
    }
  }

  lemma AcceptedIsOnFile(s: Store, b: IndexedBlock)
    requires Genuine(s, Append(b)) && StoreBlock(s, b).Success?
    ensures var l := StoreBlock(s, b).value.ledger;
            b.hash in l.blocks && l.blocks[b.hash].number == b.number && l.blocks[b.hash].parentHash == b.parentHash
  {
  }

  lemma CanonicalExactly(l: Ledger.Ledger, chain: Chain, h: Hash)
    requires Holds(l, chain) && h in l.blocks
    ensures l.blocks[h].canonical <==> l.blocks[h].number in chain && chain[l.blocks[h].number].hash == h
  {
    if l.blocks[h].number in chain {
      assert HasBlock(l.blocks, l.blocks[h].number, chain[l.blocks[h].number]);
    }
  }

  // ---------------------------------------------------------------- the registry after any rewinds

  ghost predicate Canonical(s: Store, a: Address) {
    a in s.registry.contracts && s.registry.contracts[a].canonical
  }

  /** A contract outside the manifest that was canonical and was found below the start block. */
  ghost predicate Retained(s: Store, a: Address) {
    && Canonical(s, a)
    && !s.registry.contracts[a].identity.provenance.Manifest?
    && RegistryProofs.Below(s.registry.contracts[a], s.ledger.startBlock)
  }

  lemma RewindRestores(s: Store, chain: Chain, ancestor: int, ancestorHash: Option<Hash>, a: Address)
    requires Sound(s, chain) && a in s.registry.contracts
    requires Rewind(s, ancestor, ancestorHash).Success?
    requires !s.registry.contracts[a].identity.provenance.Manifest?
    ensures var t := Rewind(s, ancestor, ancestorHash).value;
            && a in t.registry.contracts && !t.registry.contracts[a].identity.provenance.Manifest?
            && t.ledger.startBlock == s.ledger.startBlock
            && (Canonical(t, a) <==> Registry.HasDiscovery(t.registry.discoveries, a) || Retained(s, a))
            && (Registry.HasDiscovery(t.registry.discoveries, a) ==>
                  RegistryProofs.Carries(t.registry.discoveries, a, t.registry.contracts[a]))
            && (Retained(t, a) <==> Retained(s, a))
  {
    RowRestored(s.registry.discoveries, chain, s.ledger.startBlock, ancestor, a, s.registry.contracts[a]);
  }

  lemma RowRestored(d: map<Registry.DiscoveryKey, Registry.DiscoveryRow>, chain: Chain, startBlock: nat, ancestor: int,
                    a: Address, row: Registry.ContractRow)
    requires RegistryProofs.DiscoveriesMatch(d, chain) && RegistryProofs.RowOk(d, startBlock, a, row)
    requires forall n :: n in chain ==> startBlock <= n
    requires !row.identity.provenance.Manifest?
    ensures var e := Registry.OrphanDiscoveries(d, ancestor);
            var after := Registry.RestoredRow(e, a, Registry.OrphanContract(Registry.ForgetDeployment(row, ancestor), startBlock, ancestor));
            && !after.identity.provenance.Manifest?
            && (after.canonical <==> Registry.HasDiscovery(e, a) || (row.canonical && RegistryProofs.Below(row, startBlock)))
            && (Registry.HasDiscovery(e, a) ==> RegistryProofs.Carries(e, a, after))
            && (after.canonical && RegistryProofs.Below(after, startBlock) <==> row.canonical && RegistryProofs.Below(row, startBlock))
  {
    var e := Registry.OrphanDiscoveries(d, ancestor);
    var after := Registry.RestoredRow(e, a, Registry.OrphanContract(Registry.ForgetDeployment(row, ancestor), startBlock, ancestor));
    RegistryProofs.RewindKeepsDiscoveries(d, chain, ancestor);
    RegistryProofs.RewindRow(d, chain, startBlock, ancestor, a, row);
    assert !after.identity.provenance.Manifest?;
    RetainedHasNone(d, chain, startBlock, a, row);
    RetainedHasNone(e, Kept(chain, ancestor), startBlock, a, after);
    NoNewDiscovery(d, ancestor, a);
  }

  lemma NoNewDiscovery(d: map<Registry.DiscoveryKey, Registry.DiscoveryRow>, ancestor: int, a: Address)
    ensures Registry.HasDiscovery(Registry.OrphanDiscoveries(d, ancestor), a) ==> Registry.HasDiscovery(d, a)
  {
    if Registry.HasDiscovery(Registry.OrphanDiscoveries(d, ancestor), a) {
      var k :| Registry.CanonicalDiscovery(Registry.OrphanDiscoveries(d, ancestor), a, k);
      assert Registry.CanonicalDiscovery(d, a, k);
    }
  }

  /** A contract with a canonical discovery does not lie below the start block. */
  lemma RetainedHasNone(d: map<Registry.DiscoveryKey, Registry.DiscoveryRow>, chain: Chain, startBlock: nat, a: Address, row: Registry.ContractRow)
    requires RegistryProofs.DiscoveriesMatch(d, chain) && RegistryProofs.RowOk(d, startBlock, a, row)
    requires forall n :: n in chain ==> startBlock <= n
    requires !row.identity.provenance.Manifest?
    ensures RegistryProofs.Below(row, startBlock) ==> !Registry.HasDiscovery(d, a)
  {
  }

  predicate AllRewinds(steps: seq<Step>) {
    forall i :: 0 <= i < |steps| ==> steps[i].RewindTo?
  }

  /** After any rewinds, a contract outside the manifest is canonical exactly when a canonical
      discovery of it remains or it was retained below the start block to begin with; and the latest
      canonical discovery, if there is one, is what its row shows. */
  lemma {:induction false} RewindsRestoreRegistry(s: Store, chain: Chain, steps: seq<Step>, a: Address)
    requires Sound(s, chain) && AllRewinds(steps)
    requires a in s.registry.contracts && !s.registry.contracts[a].identity.provenance.Manifest?
    ensures exists after :: Sound(Run(s, steps), after)
    ensures var t := Run(s, steps);
            && a in t.registry.contracts && !t.registry.contracts[a].identity.provenance.Manifest?
            && t.ledger.startBlock == s.ledger.startBlock
            && (Canonical(t, a) <==> Registry.HasDiscovery(t.registry.discoveries, a) || Retained(s, a))
            && (Registry.HasDiscovery(t.registry.discoveries, a) ==>
                  RegistryProofs.Carries(t.registry.discoveries, a, t.registry.contracts[a]))
            && (Retained(t, a) <==> Retained(s, a))
  {
    if steps == [] {
      assert Sound(Run(s, steps), chain);
      assert RegistryProofs.RowOk(s.registry.discoveries, s.ledger.startBlock, a, s.registry.contracts[a]);
    } else {
      var front, last := steps[..|steps| - 1], steps[|steps| - 1];
      RewindsRestoreRegistry(s, chain, front, a);
      var middle := Run(s, front);
      var between :| Sound(middle, between);
      if Attempt(middle, last).Success? {
        RewindRestores(middle, between, last.ancestor, last.ancestorHash, a);
        RewindKeepsSound(middle, between, last.ancestor, last.ancestorHash);
        assert Sound(Run(s, steps), Kept(between, last.ancestor));
      } else {
        assert Run(s, steps) == middle;
      }
    }
  }
}
