/** Token metadata over whole runs: when a rewind can never run into the unique index over canonical
    token rows, and a run in which it does. */
module TokenRuns {
  import opened Records
  import opened Database
  import opened LedgerProofs
  import opened Runs
  import Ledger
  import Registry
  import Tokens

  /** Storing a block again reads again every token that was read at it before. */
  predicate Rereading(s: Store, step: Step) {
    step.Append? ==> Tokens.Rereads(s.tokens, step.b)
  }

  ghost predicate RereadingRun(s: Store, steps: seq<Step>) {
    forall i :: 0 <= i < |steps| ==> Rereading(Run(s, steps[..i]), steps[i])
  }

  lemma AppendKeepsCurrent(s: Store, chain: Chain, b: IndexedBlock)
    requires Sound(s, chain) && Genuine(s, Append(b)) && StoreBlock(s, b).Success? && Tokens.Rereads(s.tokens, b)
    requires Tokens.Current(s.tokens, chain)
    ensures Tokens.Current(StoreBlock(s, b).value.tokens, chain[b.number := b])
  {
    StoreAcceptsExactly(s.ledger, chain, b);
    Tokens.StoreKeepsCurrentExactly(s.tokens, s.ledger.blocks, chain, b);
  }

  lemma StepKeepsCurrent(s: Store, chain: Chain, step: Step)
    requires Sound(s, chain) && Genuine(s, step) && Rereading(s, step)
    requires Tokens.Current(s.tokens, chain)
    ensures Tokens.Current(Apply(s, step).tokens, NextChain(s, chain, step))
  {
    if Attempt(s, step).Success? {
      match step
      case Append(b) => AppendKeepsCurrent(s, chain, b);
      case RewindTo(ancestor, ancestorHash) =>
        RewindKeepsSound(s, chain, ancestor, ancestorHash);
      case _ =>
    }
  }

  lemma {:induction false} RunKeepsCurrent(startBlock: nat, steps: seq<Step>)
    requires GenuineRun(Created(startBlock), steps) && RereadingRun(Created(startBlock), steps)
    ensures Tokens.Current(Run(Created(startBlock), steps).tokens, History(Created(startBlock), steps))
  {
    var s0 := Created(startBlock);
    if steps != [] {
      var front := steps[..|steps| - 1];
      assert forall i :: 0 <= i < |front| ==> front[..i] == steps[..i] && front[i] == steps[i];
      assert Genuine(Run(s0, front), steps[|steps| - 1]) && Rereading(Run(s0, front), steps[|steps| - 1]);
      RunKeepsCurrent(startBlock, front);
      RunIsSound(startBlock, front);
      StepKeepsCurrent(Run(s0, front), History(s0, front), steps[|steps| - 1]);
    }
  }

  /** In such a run the canonical metadata of a token is always its newest reading on the canonical
      chain, and the legal rewinds are those the checkpoint allows. */
  lemma RereadingRewindsSucceed(startBlock: nat, steps: seq<Step>, ancestor: int, ancestorHash: Option<Hash>)
    requires GenuineRun(Created(startBlock), steps) && RereadingRun(Created(startBlock), steps)
    ensures var s := Run(Created(startBlock), steps);
            && Tokens.Current(s.tokens, History(Created(startBlock), steps))
            && Tokens.Single(s.tokens, History(Created(startBlock), steps))
            && (Rewind(s, ancestor, ancestorHash).Success? <==> Ledger.Rewind(s.ledger, ancestor, ancestorHash).Success?)
  {
    var s, chain := Run(Created(startBlock), steps), History(Created(startBlock), steps);
    RunIsSound(startBlock, steps);
    RunKeepsCurrent(startBlock, steps);
    Tokens.CurrentRewindSucceeds(s.tokens, s.ledger.blocks, chain, ancestor);
  }

  // ---------------------------------------------------------------- a rewind that is refused

  const TOKEN: Address := 7
  const TOKEN_ENTRY := ManifestContract(TOKEN, "token", "weth")
  const REREAD_AFTER := 25

  // A reading without decimals, and one with them.
  const BARE: Json := 0
  const FULL: Json := 1

  /** The canonical reading of a token, if there is one. */
  ghost predicate IsReading(rows: Tokens.TokenTable, a: Address, k: Tokens.TokenKey) {
    Tokens.CanonicalRow(rows, k) && k.address == a
  }

  /** A token is read if nothing is known of it, or again some blocks after a reading without decimals. */
  ghost predicate NeedsRead(rows: Tokens.TokenTable, a: Address, n: nat) {
    || (forall k :: !IsReading(rows, a, k))
    || (exists k :: IsReading(rows, a, k) && k in rows && rows[k].data == BARE && n >= rows[k].readBlock + REREAD_AFTER)
  }

  /** Every block stored reads the token exactly if it needs to. */
  ghost predicate ReadsAsNeeded(s: Store, step: Step) {
    step.Append? ==> (Tokens.ReadsToken(step.b.tokenMetadata, TOKEN) <==> NeedsRead(s.tokens, TOKEN, step.b.number))
  }

  ghost predicate DutifulRun(s: Store, steps: seq<Step>) {
    forall i {:trigger ReadsAsNeeded(Run(s, steps[..i]), steps[i])} :: 0 <= i < |steps| ==> ReadsAsNeeded(Run(s, steps[..i]), steps[i])
  }

  function Plain(n: nat, tokens: seq<TokenMetadata>): IndexedBlock {
    IndexedBlock(n, n + 1, n, 0, map[], [], [], tokens, [])
  }

  function ReadAt(n: nat, data: Json): seq<TokenMetadata> {
    [TokenMetadata(TOKEN, data, n)]
  }

  /** Plain blocks from one number through another, which read nothing. */
  function Quiet(from: nat, through: nat): seq<Step> {
    if from > through then [] else if through == 0 then [Append(Plain(0, []))] else Quiet(from, through - 1) + [Append(Plain(through, []))]
  }

  /** A token that cannot be read in full is read at blocks 0 and 25; everything is rewound; and when the
      same blocks return, the token can be read in full at block 0, so block 25 does not read it again.
      The reading on file at block 25 then makes a later rewind to block 25 impossible. */
  function ForgetfulRun(): seq<Step> {
    [SeedManifest(0, [TOKEN_ENTRY]), Append(Plain(0, ReadAt(0, BARE)))] + Quiet(1, 24)
    + [Append(Plain(25, ReadAt(25, BARE))), RewindTo(-1, None), Append(Plain(0, ReadAt(0, FULL)))] + Quiet(1, 26)
  }

  const REGISTERED := Registry.Registry(map[TOKEN := Registry.ContractRow(Registry.ManifestIdentity(TOKEN_ENTRY), None, true, None, None)], map[])

  /** A store whose canonical chain is the plain blocks from `start` through `tip`. */
  predicate PlainStore(s: Store, start: nat, tip: int) {
    && s.ledger.startBlock == start && s.ledger.evidence == map[] && s.ledger.cursors == map[]
    && s.registry == REGISTERED
    && tip >= start - 1
    && s.ledger.indexedBlock == (if tip == start - 1 then None else Some(tip))
    && s.ledger.indexedHash == (if tip == start - 1 then None else Some(tip + 1))
    && PlainBlocks(s.ledger.blocks, start, tip)
  }

  predicate PlainBlocks(blocks: map<Hash, Ledger.BlockRow>, start: nat, tip: int) {
    && (forall h :: h in blocks ==>
          h == blocks[h].number + 1 && blocks[h].parentHash == blocks[h].number
          && (blocks[h].canonical <==> start <= blocks[h].number <= tip))
    && (forall h: Hash :: start + 1 <= h <= tip + 1 ==> h in blocks)
  }

  // ---------------------------------------------------------------- its steps

  predicate IsPlain(b: IndexedBlock, n: nat) {
    && b.number == n && b.hash == n + 1 && b.parentHash == n && b.evidence == map[] && b.logScanCursors == [] && b.finalizedThrough == 0
  }

  lemma PlainLedger(l: Ledger.Ledger, start: nat, n: nat, b: IndexedBlock)
    requires l.startBlock == start <= n && l.evidence == map[] && l.cursors == map[] && PlainBlocks(l.blocks, start, n - 1) && IsPlain(b, n)
    requires l.indexedBlock == (if n == start then None else Some(n - 1)) && l.indexedHash == (if n == start then None else Some(n))
    ensures Ledger.StoreBlock(l, b).Success?
    ensures var after := Ledger.StoreBlock(l, b).value;
            && after.startBlock == start && after.evidence == map[] && after.cursors == map[]
            && after.indexedBlock == Some(n) && after.indexedHash == Some(n + 1) && PlainBlocks(after.blocks, start, n)
  {
    assert Ledger.UpsertEvidence(map[], b) == map[];
    assert !Ledger.CanonicalNumberClash(Ledger.UpsertBlock(l.blocks, b), b.hash);
  }

  predicate PlainReading(n: nat, tokens: seq<TokenMetadata>) {
    tokens == [] || tokens == ReadAt(n, BARE) || tokens == ReadAt(n, FULL)
  }

  lemma AppendPlain(s: Store, start: nat, n: nat, tokens: seq<TokenMetadata>)
    requires start <= n && PlainStore(s, start, n - 1) && PlainReading(n, tokens)
    ensures Genuine(s, Append(Plain(n, tokens))) && Attempt(s, Append(Plain(n, tokens))).Success?
    ensures var t := Apply(s, Append(Plain(n, tokens)));
            && PlainStore(t, start, n)
            && t.tokens == (if tokens == [] then s.tokens else Tokens.Upsert(s.tokens, n + 1, tokens[0]))
  {
    var b := Plain(n, tokens);
    PlainLedger(s.ledger, start, n, b);
    assert Tokens.Store(s.tokens, n, b.hash, []) == Success(s.tokens);
    if tokens != [] {
      assert tokens[..0] == [];
    }
    assert Registry.Store(s.registry, b) == Success(s.registry);
  }

  /** The readings of the token at blocks 0 and 25. */
  function Readings(data: Json, first: bool, second: bool): Tokens.TokenTable {
    map[Tokens.TokenKey(TOKEN, 1) := Tokens.TokenRow(0, data, first), Tokens.TokenKey(TOKEN, 26) := Tokens.TokenRow(25, BARE, second)]
  }

  function OneReading(): Tokens.TokenTable {
    map[Tokens.TokenKey(TOKEN, 1) := Tokens.TokenRow(0, BARE, true)]
  }

  lemma ReadingsReplace()
    ensures Tokens.Upsert(map[], 1, ReadAt(0, BARE)[0]) == OneReading()
    ensures Tokens.Upsert(OneReading(), 26, ReadAt(25, BARE)[0]) == Readings(BARE, false, true)
    ensures Tokens.Upsert(Readings(BARE, false, false), 1, ReadAt(0, FULL)[0]) == Readings(FULL, true, false)
  {
  }

  lemma NeedsWhen(n: nat)
    ensures NeedsRead(map[], TOKEN, n)
    ensures NeedsRead(OneReading(), TOKEN, n) <==> n >= 25
    ensures NeedsRead(Readings(BARE, false, false), TOKEN, n)
    ensures !NeedsRead(Readings(FULL, true, false), TOKEN, n)
  {
    assert IsReading(OneReading(), TOKEN, Tokens.TokenKey(TOKEN, 1));
    assert IsReading(Readings(FULL, true, false), TOKEN, Tokens.TokenKey(TOKEN, 1));
  }

  lemma RewindPlainLedger(l: Ledger.Ledger)
    requires l.startBlock == 0 && l.evidence == map[] && l.cursors == map[] && PlainBlocks(l.blocks, 0, 25)
    requires l.indexedBlock == Some(25) && l.indexedHash == Some(26)
    ensures Ledger.Rewind(l, -1, None).Success?
    ensures var after := Ledger.Rewind(l, -1, None).value;
            && after.startBlock == 0 && after.evidence == map[] && after.cursors == map[]
            && after.indexedBlock.None? && after.indexedHash.None? && PlainBlocks(after.blocks, 0, -1)
  {
  }

  lemma RegistryStays()
    ensures Registry.Rewind(REGISTERED, 0, -1) == REGISTERED
  {
    assert Registry.Rewind(REGISTERED, 0, -1).contracts == REGISTERED.contracts;
  }

  lemma RewindPlain(s: Store)
    requires PlainStore(s, 0, 25) && s.tokens == Readings(BARE, false, true)
    ensures Attempt(s, RewindTo(-1, None)).Success?
    ensures var t := Apply(s, RewindTo(-1, None));
            PlainStore(t, 0, -1) && t.tokens == Readings(BARE, false, false)
  {
    RewindPlainLedger(s.ledger);
    NothingToRestore(Ledger.Rewind(s.ledger, -1, None).value.blocks);
    RegistryStays();
  }

  lemma NothingToRestore(blocks: map<Hash, Ledger.BlockRow>)
    requires PlainBlocks(blocks, 0, -1)
    ensures Tokens.Rewind(Readings(BARE, false, true), blocks, -1) == Success(Readings(BARE, false, false))
  {
    assert Tokens.Orphan(Readings(BARE, false, true), -1) == Readings(BARE, false, false);
    assert Tokens.Restore(Readings(BARE, false, false), blocks) == Readings(BARE, false, false);
  }

  // ---------------------------------------------------------------- the whole run

  datatype State = State(store: Store, chain: Chain)

  /** One genuine and dutiful step. */
  ghost predicate Taken(from: State, step: Step, to: State) {
    && Genuine(from.store, step) && ReadsAsNeeded(from.store, step)
    && StepsTo(from.store, from.chain, step, to.store, to.chain)
  }

  ghost predicate Trail(states: seq<State>, steps: seq<Step>) {
    && |states| == |steps| + 1 && states[0] == State(Created(0), map[])
    && forall i {:trigger Taken(states[i], steps[i], states[i + 1])} :: 0 <= i < |steps| ==> Taken(states[i], steps[i], states[i + 1])
  }

  /** The steps lead there. */
  ghost predicate Led(steps: seq<Step>, to: State) {
    exists states {:trigger Trail(states, steps)} :: Trail(states, steps) && states[|steps|] == to
  }

  lemma LedOn(steps: seq<Step>, from: State, step: Step, to: State)
    requires Led(steps, from) && Taken(from, step, to)
    ensures Led(steps + [step], to)
  {
    var states :| Trail(states, steps) && states[|steps|] == from;
    var more, longer := states + [to], steps + [step];
    forall i | 0 <= i < |longer|
      ensures Taken(more[i], longer[i], more[i + 1])
    {
      if i < |steps| {
        assert Taken(states[i], steps[i], states[i + 1]);
      }
    }
    assert Trail(more, longer);
  }

  lemma {:induction false} TrailIsRun(states: seq<State>, steps: seq<Step>, i: nat)
    requires Trail(states, steps) && i <= |steps|
    ensures states[i] == State(Run(Created(0), steps[..i]), History(Created(0), steps[..i]))
  {
    if i > 0 {
      var j := i - 1;
      TrailIsRun(states, steps, j);
      assert Taken(states[j], steps[j], states[j + 1]);
      assert steps[..i][..j] == steps[..j];
    }
  }

  lemma LedIsRun(steps: seq<Step>, to: State)
    requires Led(steps, to)
    ensures GenuineRun(Created(0), steps) && DutifulRun(Created(0), steps)
    ensures to == State(Run(Created(0), steps), History(Created(0), steps))
  {
    var states :| Trail(states, steps) && states[|steps|] == to;
    forall i | 0 <= i < |steps|
      ensures Genuine(Run(Created(0), steps[..i]), steps[i]) && ReadsAsNeeded(Run(Created(0), steps[..i]), steps[i])
    {
      TrailIsRun(states, steps, i);
      assert Taken(states[i], steps[i], states[i + 1]);
    }
    TrailIsRun(states, steps, |steps|);
    assert steps[..|steps|] == steps;
  }

  /** And that is a plain store with these readings. */
  ghost predicate Reaches(steps: seq<Step>, to: State, start: nat, tip: int, rows: Tokens.TokenTable) {
    Led(steps, to) && PlainStore(to.store, start, tip) && to.store.tokens == rows
  }

  lemma ReadsOrNot(n: nat, tokens: seq<TokenMetadata>)
    requires PlainReading(n, tokens)
    ensures Tokens.ReadsToken(Plain(n, tokens).tokenMetadata, TOKEN) <==> tokens != []
  {
    assert tokens != [] ==> tokens[0].address == TOKEN;
  }

  lemma Appended(steps: seq<Step>, from: State, start: nat, n: nat, tokens: seq<TokenMetadata>) returns (to: State)
    requires Led(steps, from) && start <= n && PlainStore(from.store, start, n - 1) && PlainReading(n, tokens)
    requires tokens == [] <==> !NeedsRead(from.store.tokens, TOKEN, n)
    ensures Reaches(steps + [Append(Plain(n, tokens))], to, start, n,
                    if tokens == [] then from.store.tokens else Tokens.Upsert(from.store.tokens, n + 1, tokens[0]))
    ensures to.chain == from.chain[n := Plain(n, tokens)]
  {
    var step := Append(Plain(n, tokens));
    AppendPlain(from.store, start, n, tokens);
    ReadsOrNot(n, tokens);
    to := State(Apply(from.store, step), NextChain(from.store, from.chain, step));
    LedOn(steps, from, step, to);
  }

  /** Blocks that read nothing. */
  predicate Silent(before: Chain, from: nat, through: nat, after: Chain) {
    && (forall n :: n in before && n < from ==> n in after && after[n] == before[n])
    && (forall n :: from <= n <= through ==> n in after && after[n].tokenMetadata == [])
  }

  lemma {:induction false} QuietlyOn(steps: seq<Step>, from: State, start: nat, first: nat, through: nat) returns (to: State)
    requires Led(steps, from) && 1 <= first <= through + 1 && start <= first && PlainStore(from.store, start, first - 1)
    requires forall n :: first <= n <= through ==> !NeedsRead(from.store.tokens, TOKEN, n)
    ensures Reaches(steps + Quiet(first, through), to, start, through, from.store.tokens) && Silent(from.chain, first, through, to.chain)
    decreases through
  {
    QuietMore(steps, first, through);
    if first > through {
      to := from;
    } else {
      var before := QuietlyOn(steps, from, start, first, through - 1);
      to := Appended(steps + Quiet(first, through - 1), before, start, through, []);
    }
  }

  lemma QuietMore(steps: seq<Step>, from: nat, through: nat)
    requires 1 <= from
    ensures steps + Quiet(from, through) == if from > through then steps else steps + Quiet(from, through - 1) + [Append(Plain(through, []))]
  {
  }

  lemma TokenSeeded()
    ensures Registry.Seed(Registry.EMPTY, 0, [TOKEN_ENTRY]) == REGISTERED
  {
    var ms := [TOKEN_ENTRY];
    assert ms[..0] == [] && Registry.UnseedManifest(map[]) == map[];
    assert Registry.UpsertManifests(map[], ms) == REGISTERED.contracts;
    assert Registry.Restore(REGISTERED).contracts == REGISTERED.contracts;
    assert Registry.RestoreRetained(REGISTERED, 0).contracts == REGISTERED.contracts;
    assert Registry.RetireManifest(REGISTERED.contracts) == REGISTERED.contracts;
  }

  lemma SeededStore()
    ensures var t := Apply(Created(0), SeedManifest(0, [TOKEN_ENTRY]));
            PlainStore(t, 0, -1) && t.tokens == map[]
  {
    TokenSeeded();
  }

  lemma SeedReaches() returns (to: State)
    ensures Reaches([SeedManifest(0, [TOKEN_ENTRY])], to, 0, -1, map[])
  {
    var step := SeedManifest(0, [TOKEN_ENTRY]);
    SeededStore();
    var from := State(Created(0), map[]);
    to := State(Apply(Created(0), step), NextChain(Created(0), map[], step));
    assert Trail([from], []);
    LedOn([], from, step, to);
    assert [] + [step] == [step];
  }

  function Opening(): seq<Step> {
    [SeedManifest(0, [TOKEN_ENTRY])] + [Append(Plain(0, ReadAt(0, BARE)))] + Quiet(1, 24)
  }

  lemma OpeningReaches() returns (to: State)
    ensures Reaches(Opening(), to, 0, 24, OneReading())
  {
    ReadingsReplace();
    forall n: nat
      ensures NeedsRead(map[], TOKEN, n) && (NeedsRead(OneReading(), TOKEN, n) <==> n >= 25)
    {
      NeedsWhen(n);
    }
    to := SeedReaches();
    to := Appended([SeedManifest(0, [TOKEN_ENTRY])], to, 0, 0, ReadAt(0, BARE));
    to := QuietlyOn([SeedManifest(0, [TOKEN_ENTRY])] + [Append(Plain(0, ReadAt(0, BARE)))], to, 0, 1, 24);
  }

  /** The token is read at blocks 0 and 25, and cannot be read in full either time. */
  function FirstHalf(): seq<Step> {
    Opening() + [Append(Plain(25, ReadAt(25, BARE)))]
  }

  lemma FirstHalfReaches() returns (to: State)
    ensures Reaches(FirstHalf(), to, 0, 25, Readings(BARE, false, true))
  {
    ReadingsReplace();
    NeedsWhen(25);
    to := OpeningReaches();
    to := Appended(Opening(), to, 0, 25, ReadAt(25, BARE));
  }

  function SecondHalf(): seq<Step> {
    FirstHalf() + [RewindTo(-1, None)] + [Append(Plain(0, ReadAt(0, FULL)))] + Quiet(1, 26)
  }

  lemma RewoundReaches(steps: seq<Step>, from: State) returns (to: State)
    requires Reaches(steps, from, 0, 25, Readings(BARE, false, true))
    ensures Reaches(steps + [RewindTo(-1, None)], to, 0, -1, Readings(BARE, false, false))
  {
    RewindPlain(from.store);
    var step := RewindTo(-1, None);
    to := State(Apply(from.store, step), NextChain(from.store, from.chain, step));
    LedOn(steps, from, step, to);
  }

  lemma SecondHalfReaches() returns (to: State)
    ensures Reaches(SecondHalf(), to, 0, 26, Readings(FULL, true, false))
  {
    ReadingsReplace();
    forall n: nat
      ensures NeedsRead(Readings(BARE, false, false), TOKEN, n) && !NeedsRead(Readings(FULL, true, false), TOKEN, n)
    {
      NeedsWhen(n);
    }
    to := FirstHalfReaches();
    to := RewoundReaches(FirstHalf(), to);
    to := Appended(FirstHalf() + [RewindTo(-1, None)], to, 0, 0, ReadAt(0, FULL));
    to := QuietlyOn(FirstHalf() + [RewindTo(-1, None)] + [Append(Plain(0, ReadAt(0, FULL)))], to, 0, 1, 26);
  }

  lemma Pieces()
    ensures SecondHalf() == ForgetfulRun()
  {
  }

  lemma PlainRewindRefused(s: Store)
    requires PlainStore(s, 0, 26) && s.tokens == Readings(FULL, true, false)
    ensures Ledger.Rewind(s.ledger, 25, Some(26)).Success?
    ensures Rewind(s, 25, Some(26)) == Failure(TokensRefused(Tokens.DuplicateCanonicalToken))
  {
    var blocks := Ledger.OrphanBlocks(s.ledger.blocks, 25);
    var restored := Tokens.Restore(Tokens.Orphan(s.tokens, 25), blocks);
    var first, second := Tokens.TokenKey(TOKEN, 1), Tokens.TokenKey(TOKEN, 26);
    assert Tokens.Newest(Tokens.Orphan(s.tokens, 25), blocks, second);
    assert Tokens.CanonicalRow(restored, first) && Tokens.CanonicalRow(restored, second);
  }

  /** A run in which every block reads the token exactly when it needs to, and after which rewinding to
      block 25 is legal for the checkpoint and yet refused. */
  lemma ForgetfulRunIsRefused()
    ensures GenuineRun(Created(0), ForgetfulRun()) && DutifulRun(Created(0), ForgetfulRun())
    ensures var s := Run(Created(0), ForgetfulRun());
            && Ledger.Rewind(s.ledger, 25, Some(26)).Success?
            && Rewind(s, 25, Some(26)) == Failure(TokensRefused(Tokens.DuplicateCanonicalToken))
  {
    var to := SecondHalfReaches();
    Pieces();
    LedIsRun(ForgetfulRun(), to);
    PlainRewindRefused(to.store);
  }
}
