/** Indexing one block: the receipts its known logs select, and the contracts they announce, to a
    fixed point. */
module Discovery {
  import opened Records
  import opened World
  import opened Rules
  import Registry

  function RowOf(c: DiscoveredContract): Registry.ContractRow {
    Registry.ContractRow(c.identity, c.position, true, None, None)
  }

  /** The contract table after the discoveries `ds`. */
  function Table(current: Contracts, ds: seq<DiscoveredContract>): Contracts {
    if ds == [] then current else Table(current, ds[..|ds| - 1])[ds[|ds| - 1].address := RowOf(ds[|ds| - 1])]
  }

  // ---------------------------------------------------------------- what justifies a discovery

  /** A log of transaction `r`, sent by a contract of the table, announces the candidate. */
  predicate AnnouncedBy(w: World, table: Contracts, r: Receipt, l: int, c: Candidate) {
    && 0 <= l < |r.logs| && r.logs[l].emitter in table
    && c in DiscoveriesFrom(w.decode(table[r.logs[l].emitter].identity.kind, r.logs[l]), table)
  }

  ghost predicate EventJustifies(w: World, h: Hash, table: Contracts, c: DiscoveredContract) {
    exists r, l :: 0 <= r < |w.receipts(h)| && c.position.Some? && w.receipts(h)[r].txHash == c.position.value.txHash
                   && AnnouncedBy(w, table, w.receipts(h)[r], l, Candidate(c.address, c.identity.kind))
  }

  /** A price coordinator found in the same block names the contract as its approval registry. */
  ghost predicate CoordinatorJustifies(w: World, h: Hash, ds: seq<DiscoveredContract>, c: DiscoveredContract) {
    && c.identity.kind == "liquidationApprovalRegistry"
    && exists j :: 0 <= j < |ds| && ds[j].identity.kind == "priceCoordinator" && ds[j].position == c.position
                   && w.approvalRegistry(ds[j].address, h) == c.address
  }

  /** Discovery `i` follows from the contracts known at first and the discoveries before it. */
  ghost predicate Justified(w: World, h: Hash, current: Contracts, ds: seq<DiscoveredContract>, i: int) {
    && 0 <= i < |ds|
    && ds[i].position.Some?
    && ds[i].identity == w.identity(h, ds[i].position.value.txHash, ds[i].address).(kind := ds[i].identity.kind)
    && ((exists j :: 0 <= j <= i && EventJustifies(w, h, Table(current, ds[..j]), ds[i]))
        || CoordinatorJustifies(w, h, ds[..i], ds[i]))
  }

  ghost predicate AllJustified(w: World, h: Hash, current: Contracts, ds: seq<DiscoveredContract>) {
    forall i :: 0 <= i < |ds| ==> Justified(w, h, current, ds, i)
  }

  predicate Distinct(current: Contracts, ds: seq<DiscoveredContract>) {
    && (forall i :: 0 <= i < |ds| ==> ds[i].address !in current)
    && (forall i, j :: 0 <= i < j < |ds| ==> ds[i].address != ds[j].address)
  }

  predicate InBlock(n: nat, ds: seq<DiscoveredContract>) {
    forall i :: 0 <= i < |ds| ==> ds[i].position.Some? && ds[i].position.value.block == n
  }

  /** A pass's worth of state: the table is the known contracts and the discoveries, each of them
      new, justified, and placed in block `n`. */
  ghost predicate Consistent(w: World, h: Hash, n: nat, current: Contracts, table: Contracts, ds: seq<DiscoveredContract>) {
    table == Table(current, ds) && AllJustified(w, h, current, ds) && Distinct(current, ds) && InBlock(n, ds)
  }

  lemma {:induction false} TableKeys(current: Contracts, ds: seq<DiscoveredContract>, a: Address)
    ensures a in Table(current, ds) <==> a in current || exists i :: 0 <= i < |ds| && ds[i].address == a
    ensures a in current && (forall i :: 0 <= i < |ds| ==> ds[i].address != a) ==> Table(current, ds)[a] == current[a]
  {
    if ds != [] {
      var front := ds[..|ds| - 1];
      assert forall i :: 0 <= i < |front| ==> front[i] == ds[i];
      TableKeys(current, front, a);
      assert a == ds[|ds| - 1].address || a in Table(current, front) <==> a in Table(current, ds);
      if a in Table(current, ds) && a !in current && a != ds[|ds| - 1].address {
        var i :| 0 <= i < |front| && front[i].address == a;
        assert ds[i].address == a;
      }
    }
  }

  lemma {:induction false} TableRow(current: Contracts, ds: seq<DiscoveredContract>, i: nat)
    requires Distinct(current, ds) && i < |ds|
    ensures ds[i].address in Table(current, ds) && Table(current, ds)[ds[i].address] == RowOf(ds[i])
  {
    if i < |ds| - 1 {
      assert Distinct(current, ds[..|ds| - 1]);
      TableRow(current, ds[..|ds| - 1], i);
    }
  }

  /** One more justified discovery. */
  lemma Extend(w: World, h: Hash, n: nat, current: Contracts, ds: seq<DiscoveredContract>, c: DiscoveredContract)
    requires AllJustified(w, h, current, ds) && Distinct(current, ds) && InBlock(n, ds)
    requires c.address !in Table(current, ds) && c.position.Some? && c.position.value.block == n
    requires c.identity == w.identity(h, c.position.value.txHash, c.address).(kind := c.identity.kind)
    requires (exists j :: 0 <= j <= |ds| && EventJustifies(w, h, Table(current, ds[..j]), c)) || CoordinatorJustifies(w, h, ds, c)
    ensures Consistent(w, h, n, current, Table(current, ds)[c.address := RowOf(c)], ds + [c])
  {
    var longer := ds + [c];
    assert longer[..|ds|] == ds;
    TableKeys(current, ds, c.address);
    forall i | 0 <= i < |longer|
      ensures Justified(w, h, current, longer, i)
    {
      if i < |ds| {
        JustifiedStays(w, h, current, ds, longer, i);
      } else {
        NewIsJustified(w, h, current, ds, c);
      }
    }
  }

  lemma JustifiedStays(w: World, h: Hash, current: Contracts, ds: seq<DiscoveredContract>, longer: seq<DiscoveredContract>, i: nat)
    requires Justified(w, h, current, ds, i) && ds <= longer
    ensures Justified(w, h, current, longer, i)
  {
    assert longer[..i] == ds[..i] && longer[i] == ds[i];
    assert forall j :: 0 <= j <= i ==> longer[..j] == ds[..j];
  }

  lemma NewIsJustified(w: World, h: Hash, current: Contracts, ds: seq<DiscoveredContract>, c: DiscoveredContract)
    requires c.position.Some? && c.identity == w.identity(h, c.position.value.txHash, c.address).(kind := c.identity.kind)
    requires (exists j :: 0 <= j <= |ds| && EventJustifies(w, h, Table(current, ds[..j]), c)) || CoordinatorJustifies(w, h, ds, c)
    ensures Justified(w, h, current, ds + [c], |ds|)
  {
    var longer := ds + [c];
    assert longer[..|ds|] == ds && longer[|ds|] == c;
    assert forall j :: 0 <= j <= |ds| ==> longer[..j] == ds[..j];
  }

  // ---------------------------------------------------------------- the passes

  /** Nothing this log announces is missing from the table. */
  ghost predicate Settled(w: World, table: Contracts, log: Log) {
    log.emitter in table ==>
      forall c :: c in DiscoveriesFrom(w.decode(table[log.emitter].identity.kind, log), table) ==> c.address in table
  }

  ghost predicate SettledReceipt(w: World, table: Contracts, r: Receipt, through: int) {
    forall l :: 0 <= l < through && l < |r.logs| ==> Settled(w, table, r.logs[l])
  }

  /** No registry named by a coordinator found here is missing from the table. */
  ghost predicate SettledCoordinator(w: World, h: Hash, table: Contracts, c: DiscoveredContract) {
    c.identity.kind == "priceCoordinator" ==> w.approvalRegistry(c.address, h) in table
  }

  ghost predicate SettledReceipts(w: World, table: Contracts, rs: seq<Receipt>, through: int) {
    forall i {:trigger SettledReceipt(w, table, rs[i], |rs[i].logs|)} :: 0 <= i < through && i < |rs| ==>
      SettledReceipt(w, table, rs[i], |rs[i].logs|)
  }

  lemma SettleReceipt(w: World, table: Contracts, rs: seq<Receipt>, i: nat)
    requires i < |rs| && SettledReceipts(w, table, rs, i) && SettledReceipt(w, table, rs[i], |rs[i].logs|)
    ensures SettledReceipts(w, table, rs, i + 1)
  {
  }

  lemma SettleNext(w: World, table: Contracts, r: Receipt, l: nat)
    requires l < |r.logs| && SettledReceipt(w, table, r, l) && Settled(w, table, r.logs[l])
    ensures SettledReceipt(w, table, r, l + 1)
  {
  }

  ghost predicate FromBlock(w: World, h: Hash, rs: seq<Receipt>) {
    forall i :: 0 <= i < |rs| ==> rs[i] in w.receipts(h)
  }

  predicate Longer(table: Contracts, ds: seq<DiscoveredContract>, table': Contracts, ds': seq<DiscoveredContract>) {
    ds <= ds' && (|ds'| == |ds| ==> table' == table)
  }

  /** What the logs of one fetched receipt announce. */
  method DiscoverFromLog(w: World, h: Hash, n: nat, current: Contracts, r: Receipt, l: nat, table: Contracts, ds: seq<DiscoveredContract>)
    returns (table': Contracts, ds': seq<DiscoveredContract>)
    requires Consistent(w, h, n, current, table, ds) && r in w.receipts(h) && l < |r.logs|
    ensures Consistent(w, h, n, current, table', ds') && Longer(table, ds, table', ds')
    ensures |ds'| == |ds| ==> Settled(w, table, r.logs[l])
  {
    table', ds' := table, ds;
    var emitter := r.logs[l].emitter;
    if emitter !in table {
      return;
    }
    var candidates := DiscoveriesFrom(w.decode(table[emitter].identity.kind, r.logs[l]), table);
    for i := 0 to |candidates|
      invariant Consistent(w, h, n, current, table', ds') && Longer(table, ds, table', ds')
      invariant |ds'| == |ds| ==> forall k :: 0 <= k < i ==> candidates[k].address in table
    {
      var candidate := candidates[i];
      if candidate.address !in table' {
        var c := DiscoveredContract(candidate.address,
                                    w.identity(h, r.txHash, candidate.address).(kind := candidate.kind),
                                    Some(Position(n, r.txHash)));
        assert AnnouncedBy(w, table, r, l, Candidate(c.address, c.identity.kind));
        assert ds'[..|ds|] == ds && EventJustifies(w, h, Table(current, ds'[..|ds|]), c);
        Extend(w, h, n, current, ds', c);
        table', ds' := table'[candidate.address := RowOf(c)], ds' + [c];
      }
    }
  }

  method DiscoverFromReceipt(w: World, h: Hash, n: nat, current: Contracts, r: Receipt, table: Contracts, ds: seq<DiscoveredContract>)
    returns (table': Contracts, ds': seq<DiscoveredContract>)
    requires Consistent(w, h, n, current, table, ds) && r in w.receipts(h)
    ensures Consistent(w, h, n, current, table', ds') && Longer(table, ds, table', ds')
    ensures |ds'| == |ds| ==> SettledReceipt(w, table, r, |r.logs|)
  {
    table', ds' := table, ds;
    for l := 0 to |r.logs|
      invariant Consistent(w, h, n, current, table', ds') && Longer(table, ds, table', ds')
      invariant |ds'| == |ds| ==> SettledReceipt(w, table, r, l)
    {
      table', ds' := DiscoverFromLog(w, h, n, current, r, l, table', ds');
      if |ds'| == |ds| {
        SettleNext(w, table, r, l);
      }
    }
  }

  method DiscoverFromReceipts(w: World, h: Hash, n: nat, current: Contracts, rs: seq<Receipt>, table: Contracts, ds: seq<DiscoveredContract>)
    returns (table': Contracts, ds': seq<DiscoveredContract>)
    requires Consistent(w, h, n, current, table, ds) && FromBlock(w, h, rs)
    ensures Consistent(w, h, n, current, table', ds') && Longer(table, ds, table', ds')
    ensures |ds'| == |ds| ==> SettledReceipts(w, table, rs, |rs|)
  {
    table', ds' := table, ds;
    for i := 0 to |rs|
      invariant Consistent(w, h, n, current, table', ds') && Longer(table, ds, table', ds')
      invariant |ds'| == |ds| ==> SettledReceipts(w, table, rs, i)
    {
      table', ds' := DiscoverFromReceipt(w, h, n, current, rs[i], table', ds');
      if |ds'| == |ds| {
        SettleReceipt(w, table, rs, i);
      }
    }
  }

  /** The approval registries of all price coordinators found in this block. */
  method DiscoverRegistries(w: World, h: Hash, n: nat, current: Contracts, table: Contracts, ds: seq<DiscoveredContract>)
    returns (table': Contracts, ds': seq<DiscoveredContract>)
    requires Consistent(w, h, n, current, table, ds)
    ensures Consistent(w, h, n, current, table', ds') && Longer(table, ds, table', ds')
    ensures |ds'| == |ds| ==> forall i :: 0 <= i < |ds| ==> SettledCoordinator(w, h, table, ds[i])
  {
    table', ds' := table, ds;
    for i := 0 to |ds|
      invariant Consistent(w, h, n, current, table', ds') && Longer(table, ds, table', ds')
      invariant |ds'| == |ds| ==> forall k :: 0 <= k < i ==> SettledCoordinator(w, h, table, ds[k])
    {
      if ds[i].identity.kind == "priceCoordinator" {
        var registry := w.approvalRegistry(ds[i].address, h);
        if registry !in table' {
          var txHash := ds[i].position.value.txHash;
          var c := DiscoveredContract(registry, w.identity(h, txHash, registry).(kind := "liquidationApprovalRegistry"), Some(Position(n, txHash)));
          assert ds'[i] == ds[i] && CoordinatorJustifies(w, h, ds', c);
          Extend(w, h, n, current, ds', c);
          table', ds' := table'[registry := RowOf(c)], ds' + [c];
        }
      }
    }
  }

  // ---------------------------------------------------------------- why the passes come to an end

  /** The addresses that occur in the logs of a block. */
  function Words(w: World, h: Hash): set<Address> {
    set r, l, k | 0 <= r < |w.receipts(h)| && 0 <= l < |w.receipts(h)[r].logs| && 0 <= k < |w.receipts(h)[r].logs[l].words| ::
      w.receipts(h)[r].logs[l].words[k]
  }

  /** A decoded address argument is one of the words of the log. */
  ghost predicate DecodesWords(w: World) {
    forall kind, log, name :: DecodedFromWords(w.decode(kind, log), log, name)
  }

  predicate DecodedFromWords(decoded: Decoded, log: Log, name: string) {
    decoded.Decoded? && name in decoded.arguments && decoded.arguments[name].AddressArgument? ==>
      decoded.arguments[name].address in log.words
  }

  function Universe(w: World, h: Hash): set<Address> {
    Words(w, h) + set a | a in Words(w, h) :: w.approvalRegistry(a, h)
  }

  lemma AnnouncedInWords(w: World, table: Contracts, r: Receipt, l: int, c: Candidate)
    requires DecodesWords(w) && AnnouncedBy(w, table, r, l, c)
    ensures c.address in r.logs[l].words
  {
    var decoded := w.decode(table[r.logs[l].emitter].identity.kind, r.logs[l]);
    FoundIsArgument(decoded, table, c);
    var name :| name in decoded.arguments && decoded.arguments[name] == AddressArgument(c.address);
    assert DecodedFromWords(decoded, r.logs[l], name);
  }

  lemma EventInWords(w: World, h: Hash, table: Contracts, c: DiscoveredContract)
    requires DecodesWords(w) && EventJustifies(w, h, table, c)
    ensures c.address in Words(w, h)
  {
    var r, l :| 0 <= r < |w.receipts(h)| && AnnouncedBy(w, table, w.receipts(h)[r], l, Candidate(c.address, c.identity.kind));
    AnnouncedInWords(w, table, w.receipts(h)[r], l, Candidate(c.address, c.identity.kind));
    var k :| 0 <= k < |w.receipts(h)[r].logs[l].words| && w.receipts(h)[r].logs[l].words[k] == c.address;
  }

  lemma JustifiedInUniverse(w: World, h: Hash, current: Contracts, ds: seq<DiscoveredContract>, i: nat)
    requires DecodesWords(w) && AllJustified(w, h, current, ds) && i < |ds|
    ensures ds[i].address in Universe(w, h)
    ensures ds[i].identity.kind == "priceCoordinator" ==> ds[i].address in Words(w, h)
  {
    assert Justified(w, h, current, ds, i);
    if exists j :: 0 <= j <= i && EventJustifies(w, h, Table(current, ds[..j]), ds[i]) {
      var j :| 0 <= j <= i && EventJustifies(w, h, Table(current, ds[..j]), ds[i]);
      EventInWords(w, h, Table(current, ds[..j]), ds[i]);
    } else {
      var j :| 0 <= j < i && ds[j].identity.kind == "priceCoordinator" && w.approvalRegistry(ds[j].address, h) == ds[i].address;
      JustifiedInUniverse(w, h, current, ds, j);
    }
  }

  function AddressSet(ds: seq<DiscoveredContract>): set<Address> {
    set i | 0 <= i < |ds| :: ds[i].address
  }

  lemma {:induction false} AddressesCount(current: Contracts, ds: seq<DiscoveredContract>)
    requires Distinct(current, ds)
    ensures |AddressSet(ds)| == |ds|
  {
    if ds != [] {
      var front, last := ds[..|ds| - 1], ds[|ds| - 1];
      AddressesCount(current, front);
      assert AddressSet(ds) == AddressSet(front) + {last.address};
    }
  }

  /** A block can announce no more contracts than there are addresses in its logs and registries
      they name. */
  lemma DiscoveriesBounded(w: World, h: Hash, n: nat, current: Contracts, table: Contracts, ds: seq<DiscoveredContract>)
    requires DecodesWords(w) && Consistent(w, h, n, current, table, ds)
    ensures |ds| <= |Universe(w, h)|
  {
    AddressesCount(current, ds);
    forall a | a in AddressSet(ds)
      ensures a in Universe(w, h)
    {
      var i :| 0 <= i < |ds| && ds[i].address == a;
      JustifiedInUniverse(w, h, current, ds, i);
    }
    SubsetSize(AddressSet(ds), Universe(w, h));
  }

  lemma {:induction false} SubsetSize(a: set<Address>, b: set<Address>)
    requires a <= b
    ensures |a| <= |b|
  {
    assert b == a + (b - a);
  }
}
