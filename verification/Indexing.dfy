/** Indexing one block of a segment: receipts, discoveries and newly followed logs, until nothing new
    turns up. */
module Indexing {
  import opened Records
  import opened World
  import opened Rules
  import opened LogScan
  import opened Node
  import opened Planner
  import opened Queries
  import opened Segments
  import opened LogsByBlock
  import opened Discovery
  import opened Coverage

  // ---------------------------------------------------------------- evidence of the relevant transactions

  predicate Fetched(w: World, h: Hash, relevant: seq<Hash>, receipts: seq<Receipt>) {
    && |receipts| <= |relevant|
    && forall i :: 0 <= i < |receipts| ==> receipts[i].txHash == relevant[i] && receipts[i] in w.receipts(h)
  }

  /** The receipt of a transaction, provided it belongs to the block. */
  method ReceiptOf(w: World, h: Hash, txHash: Hash) returns (receipt: Option<Receipt>)
    ensures receipt.Some? ==> receipt.value in w.receipts(h) && receipt.value.txHash == txHash
    ensures receipt.None? ==> forall r :: r in w.receipts(h) ==> r.txHash != txHash
  {
    var rs := w.receipts(h);
    for i := 0 to |rs|
      invariant forall k :: 0 <= k < i ==> rs[k].txHash != txHash
    {
      if rs[i].txHash == txHash {
        return Some(rs[i]);
      }
    }
    receipt := None;
  }

  predicate InBlock(w: World, h: Hash, t: Hash) {
    exists i :: 0 <= i < |w.receipts(h)| && w.receipts(h)[i].txHash == t
  }

  method FetchMissingEvidence(w: World, h: Hash, relevant: seq<Hash>, receipts: seq<Receipt>) returns (all: Option<seq<Receipt>>)
    requires Fetched(w, h, relevant, receipts)
    ensures all.Some? ==> Fetched(w, h, relevant, all.value) && |all.value| == |relevant| && receipts <= all.value
    ensures all.None? ==> exists t :: t in relevant && !InBlock(w, h, t)
  {
    var fetched := receipts;
    while |fetched| < |relevant|
      invariant Fetched(w, h, relevant, fetched) && receipts <= fetched
      decreases |relevant| - |fetched|
    {
      var receipt := ReceiptOf(w, h, relevant[|fetched|]);
      if receipt.None? {
        assert forall i :: 0 <= i < |w.receipts(h)| ==> w.receipts(h)[i] in w.receipts(h);
        assert relevant[|fetched|] in relevant && !InBlock(w, h, relevant[|fetched|]);
        return None;
      }
      fetched := fetched + [receipt.value];
    }
    all := Some(fetched);
  }

  /** The transactions of the given logs join the relevant ones, each once. */
  method AddRelevant(relevant: seq<Hash>, logs: seq<FetchedLog>) returns (more: seq<Hash>)
    ensures relevant <= more
    ensures forall y :: y in logs ==> y.transactionHash in more
    ensures forall t :: t in more ==> t in relevant || exists y :: y in logs && y.transactionHash == t
  {
    more := relevant;
    for i := 0 to |logs|
      invariant relevant <= more
      invariant forall k :: 0 <= k < i ==> logs[k].transactionHash in more
      invariant forall t :: t in more ==> t in relevant || exists y :: y in logs && y.transactionHash == t
    {
      if logs[i].transactionHash !in more {
        more := more + [logs[i].transactionHash];
      }
    }
  }

  predicate Mentions(r: Receipt, a: Address) {
    exists l :: 0 <= l < |r.logs| && r.logs[l].emitter == a
  }

  /** Every transaction of the block in which `a` emits something has been fetched. */
  ghost predicate AllFetched(w: World, h: Hash, receipts: seq<Receipt>, a: Address) {
    forall r :: r in w.receipts(h) && Mentions(r, a) ==> r in receipts
  }

  /** A transaction in which `a` emits something is one of those whose logs were found. */
  lemma EmitterIsFound(node: Node, n: nat, logs: seq<FetchedLog>, a: Address, i: nat)
    requires n < |node.headers| && i < |node.world.receipts(node.headers[n].hash)|
    requires FoundFor(node, logs, a, n) && Mentions(node.world.receipts(node.headers[n].hash)[i], a)
    ensures exists y :: y in logs && y.transactionHash == node.world.receipts(node.headers[n].hash)[i].txHash
  {
    var h := node.headers[n].hash;
    var r := node.world.receipts(h)[i];
    var l :| 0 <= l < |r.logs| && r.logs[l].emitter == a;
    var x := FetchedLog(n, h, i, r.txHash, r.logs[l].index, a);
    assert LogAt(node.world, n, h, i, l, x) && OnNode(node, x);
  }

  /** No two transactions of a block have the same hash, so the receipt fetched for one is its own. */
  lemma ReceiptIsOwn(node: Node, h: Hash, relevant: seq<Hash>, receipts: seq<Receipt>, r: Receipt)
    requires TransactionsOnce(node) && Fetched(node.world, h, relevant, receipts) && |receipts| == |relevant|
    requires r in node.world.receipts(h) && r.txHash in relevant
    ensures r in receipts
  {
    var k :| 0 <= k < |relevant| && relevant[k] == r.txHash;
    assert receipts[k].txHash == r.txHash && receipts[k] in node.world.receipts(h);
  }

  lemma FoundIsFetched(node: Node, n: nat, relevant: seq<Hash>, receipts: seq<Receipt>, logs: seq<FetchedLog>, a: Address)
    requires n < |node.headers| && TransactionsOnce(node)
    requires Fetched(node.world, node.headers[n].hash, relevant, receipts) && |receipts| == |relevant|
    requires FoundFor(node, logs, a, n) && forall y :: y in logs ==> y.transactionHash in relevant
    ensures AllFetched(node.world, node.headers[n].hash, receipts, a)
  {
    var h := node.headers[n].hash;
    forall r | r in node.world.receipts(h) && Mentions(r, a)
      ensures r in receipts
    {
      var i :| 0 <= i < |node.world.receipts(h)| && node.world.receipts(h)[i] == r;
      EmitterIsFound(node, n, logs, a, i);
      ReceiptIsOwn(node, h, relevant, receipts, r);
    }
  }

  // ---------------------------------------------------------------- where logs and transactions come from

  /** Logs of the node's chain, sent by contracts of the set. */
  ghost predicate Sourced(node: Node, known: set<Address>, logs: seq<FetchedLog>) {
    forall y :: y in logs ==> OnNode(node, y) && y.emitter in known
  }

  ghost predicate SourcedLists(node: Node, known: set<Address>, lists: LogsByBlock) {
    forall m, y :: m in lists && y in lists[m] ==> OnNode(node, y) && y.emitter in known
  }

  lemma AnswerSourced(node: Node, rpc: Rpc, known: set<Address>, toBlock: int, inputs: seq<LogScanInput>)
    requires HonestRpc(node, rpc) && Bounded(inputs, toBlock) && QueryLogs(rpc, toBlock, inputs).Items?
    requires forall i :: 0 <= i < |inputs| ==> inputs[i].address in known
    ensures Sourced(node, known, QueryLogs(rpc, toBlock, inputs).items)
  {
    forall y | y in QueryLogs(rpc, toBlock, inputs).items
      ensures OnNode(node, y) && y.emitter in known
    {
      QueryFindsExactly(node, rpc, toBlock, inputs, y);
    }
  }

  lemma MergedSourced(node: Node, known: set<Address>, logs: seq<FetchedLog>, lists: LogsByBlock)
    requires Sourced(node, known, logs) && Merged(map[], logs, lists)
    ensures SourcedLists(node, known, lists)
  {
  }

  /** In each of the transactions a contract of the set emits something. */
  ghost predicate Selected(w: World, h: Hash, known: set<Address>, relevant: seq<Hash>) {
    forall t {:trigger SelectedBy(w, h, known, t)} :: t in relevant ==> SelectedBy(w, h, known, t)
  }

  ghost predicate SelectedBy(w: World, h: Hash, known: set<Address>, t: Hash) {
    exists a :: a in known && EmitsWithin(w, a, h, t)
  }

  /** Nothing has been fetched but for the sake of a known contract. */
  ghost predicate FromKnown(node: Node, n: nat, known: set<Address>, relevant: seq<Hash>, lists: LogsByBlock)
    requires n < |node.headers|
  {
    Selected(node.world, node.headers[n].hash, known, relevant) && SourcedLists(node, known, lists)
  }

  lemma SourcedIsSelected(node: Node, n: nat, known: set<Address>, y: FetchedLog)
    requires n < |node.headers| && OnNode(node, y) && y.emitter in known && y.number == n
    ensures SelectedBy(node.world, node.headers[n].hash, known, y.transactionHash)
  {
    var r, l :| LogAt(node.world, n, y.blockHash, r, l, y);
    assert EmitsWithinAt(node.world, y.emitter, node.headers[n].hash, y.transactionHash, r, l);
    assert EmitsWithin(node.world, y.emitter, node.headers[n].hash, y.transactionHash);
  }

  /** What was selected can be fetched. */
  lemma SelectedInBlock(w: World, h: Hash, known: set<Address>, relevant: seq<Hash>)
    requires Selected(w, h, known, relevant)
    ensures forall t :: t in relevant ==> InBlock(w, h, t)
  {
    forall t | t in relevant
      ensures InBlock(w, h, t)
    {
      assert SelectedBy(w, h, known, t);
    }
  }

  lemma MoreSelected(node: Node, n: nat, known: set<Address>, relevant: seq<Hash>, logs: seq<FetchedLog>, more: seq<Hash>)
    requires n < |node.headers| && Selected(node.world, node.headers[n].hash, known, relevant) && Sourced(node, known, logs)
    requires forall y :: y in logs ==> y.number == n
    requires forall t :: t in more ==> t in relevant || exists y :: y in logs && y.transactionHash == t
    ensures Selected(node.world, node.headers[n].hash, known, more)
  {
    forall t | t in more
      ensures SelectedBy(node.world, node.headers[n].hash, known, t)
    {
      if t !in relevant {
        var y :| y in logs && y.transactionHash == t;
        SourcedIsSelected(node, n, known, y);
      }
    }
  }

  lemma KnownGrows(node: Node, n: nat, known: set<Address>, more: set<Address>, relevant: seq<Hash>, lists: LogsByBlock)
    requires n < |node.headers| && FromKnown(node, n, known, relevant, lists) && known <= more
    ensures FromKnown(node, n, more, relevant, lists)
  {
    forall t | t in relevant
      ensures SelectedBy(node.world, node.headers[n].hash, more, t)
    {
      assert SelectedBy(node.world, node.headers[n].hash, known, t);
    }
  }

  // ---------------------------------------------------------------- logs of what was just discovered

  function Inputs(addresses: seq<Address>, fromBlock: int): (inputs: seq<LogScanInput>)
    ensures |inputs| == |addresses|
    ensures forall i :: 0 <= i < |addresses| ==> inputs[i] == LogScanInput(addresses[i], fromBlock, fromBlock)
  {
    seq(|addresses|, i requires 0 <= i < |addresses| => LogScanInput(addresses[i], fromBlock, fromBlock))
  }

  function DiscoveryLogAddresses(found: seq<DiscoveredContract>): seq<Address> {
    if found == [] then []
    else
      var last := found[|found| - 1];
      DiscoveryLogAddresses(found[..|found| - 1]) + if Followed(RowOf(last)) then [last.address] else []
  }

  lemma {:induction false} AskedAreFound(ds: seq<DiscoveredContract>, a: Address)
    requires a in DiscoveryLogAddresses(ds)
    ensures exists i :: 0 <= i < |ds| && ds[i].address == a
  {
    if a in DiscoveryLogAddresses(ds[..|ds| - 1]) {
      AskedAreFound(ds[..|ds| - 1], a);
      var i :| 0 <= i < |ds| - 1 && ds[..|ds| - 1][i].address == a;
      assert ds[i].address == a;
    }
  }

  lemma {:induction false} FollowedAreAsked(ds: seq<DiscoveredContract>, i: nat)
    requires i < |ds| && Followed(RowOf(ds[i]))
    ensures ds[i].address in DiscoveryLogAddresses(ds)
  {
    if i < |ds| - 1 {
      FollowedAreAsked(ds[..|ds| - 1], i);
    }
  }

  function RangeQuery(rpc: Rpc, addresses: seq<Address>): (int, int) -> Answer<FetchedLog> {
    (a, b) => if 0 <= a <= b then QueryLogs(rpc, b, Inputs(addresses, a)) else Answer.Refused
  }

  /** A query over a range finds a log from every transaction in which one of the addresses emits something. */
  lemma RangeFinds(node: Node, rpc: Rpc, addresses: seq<Address>, from: int, to: int, a: Address, n: int)
    requires HonestRpc(node, rpc) && TransactionsOnce(node)
    requires RangeQuery(rpc, addresses)(from, to).Items? && 0 <= from <= n <= to && a in addresses
    ensures FoundFor(node, RangeQuery(rpc, addresses)(from, to).items, a, n)
  {
    var inputs := Inputs(addresses, from);
    var logs := RangeQuery(rpc, addresses)(from, to).items;
    var i :| 0 <= i < |addresses| && addresses[i] == a;
    assert inputs[i] == LogScanInput(a, from, from);
    forall x | OnNode(node, x) && x.emitter == a && x.number == n
      ensures exists y :: y in logs && y.number == n && y.transactionHash == x.transactionHash
    {
      QueryFindsExactly(node, rpc, to, inputs, x);
      var y :| y in logs && SameLog(x, y);
      QueryFindsExactly(node, rpc, to, inputs, y);
    }
  }

  /** An obliging node serves some prefix of every range, and every single block. */
  lemma RangeServed(node: Node, rpc: Rpc, addresses: seq<Address>, from: nat, to: int)
    requires HonestRpc(node, rpc) && Obliging(rpc)
    ensures !Stuck(RangeQuery(rpc, addresses), from, to)
    ensures RangeQuery(rpc, addresses)(from, from).Items?
  {
    forall end: int | from <= end
      ensures !RangeQuery(rpc, addresses)(from, end).Refused?
      ensures end == from ==> RangeQuery(rpc, addresses)(from, end).Items?
    {
      QueryServed(node, rpc, end, Inputs(addresses, from));
    }
  }

  lemma {:induction false} TilingFinds(node: Node, rpc: Rpc, addresses: seq<Address>, segments: seq<Segment<FetchedLog>>,
                                      from: int, to: int, a: Address, n: int)
    requires HonestRpc(node, rpc) && TransactionsOnce(node)
    requires Tiles(segments, from, to) && Answered(RangeQuery(rpc, addresses), segments)
    requires 0 <= from <= n <= to && a in addresses
    ensures FoundFor(node, Concatenated(segments), a, n)
  {
    var front, last := segments[..|segments| - 1], segments[|segments| - 1];
    assert RangeQuery(rpc, addresses)(last.fromBlock, last.toBlock) == Items(last.items);
    if last.fromBlock <= n {
      RangeFinds(node, rpc, addresses, last.fromBlock, last.toBlock, a, n);
    } else {
      TilingFinds(node, rpc, addresses, front, from, last.fromBlock - 1, a, n);
    }
  }

  /** And nothing but such logs. */
  lemma RangeSourced(node: Node, rpc: Rpc, addresses: seq<Address>, from: int, to: int, y: FetchedLog)
    requires HonestRpc(node, rpc) && RangeQuery(rpc, addresses)(from, to).Items? && y in RangeQuery(rpc, addresses)(from, to).items
    ensures OnNode(node, y) && y.emitter in addresses && from <= y.number <= to
  {
    QueryFindsExactly(node, rpc, to, Inputs(addresses, from), y);
  }

  lemma {:induction false} TilingSourced(node: Node, rpc: Rpc, addresses: seq<Address>, segments: seq<Segment<FetchedLog>>, y: FetchedLog)
    requires HonestRpc(node, rpc) && Answered(RangeQuery(rpc, addresses), segments) && y in Concatenated(segments)
    ensures OnNode(node, y) && y.emitter in addresses
  {
    var front, last := segments[..|segments| - 1], segments[|segments| - 1];
    assert RangeQuery(rpc, addresses)(last.fromBlock, last.toBlock) == Items(last.items);
    if y in last.items {
      RangeSourced(node, rpc, addresses, last.fromBlock, last.toBlock, y);
    } else {
      TilingSourced(node, rpc, addresses, front, y);
    }
  }

  /** What has been added to the lists are logs of these contracts. */
  ghost predicate SourcedMore(node: Node, lists: LogsByBlock, lists': LogsByBlock, addresses: seq<Address>) {
    forall m, y :: m in lists' && y in lists'[m] ==> y in At(lists, m) || (OnNode(node, y) && y.emitter in addresses)
  }

  predicate Keeps(before: LogsByBlock, after: LogsByBlock) {
    Tidy(after) && forall n, z :: n in before && z in before[n] ==> z in At(after, n)
  }

  /** `a`'s logs have been found for every block of a range. */
  ghost predicate FoundThrough(node: Node, lists: LogsByBlock, a: Address, from: int, to: int) {
    forall m :: from <= m <= to ==> FoundFor(node, At(lists, m), a, m)
  }

  method FetchRemaining(node: Node, rpc: Rpc, from: nat, to: int, addresses: seq<Address>, rangeSize: nat) returns (logs: Option<seq<FetchedLog>>)
    requires HonestRpc(node, rpc) && TransactionsOnce(node) && from <= to + 1 && rangeSize > 0
    ensures logs.Some? ==> forall a, m :: a in addresses && from <= m <= to ==> FoundFor(node, logs.value, a, m)
    ensures logs.Some? ==> forall y :: y in logs.value ==> OnNode(node, y) && y.emitter in addresses
    ensures logs.None? ==> !Obliging(rpc)
  {
    var remaining, segments := GetAllLogs(from, to, rangeSize, RangeQuery(rpc, addresses));
    if remaining.Failure? {
      ghost var a :| from <= a <= to && Stuck(RangeQuery(rpc, addresses), a, to);
      if Obliging(rpc) {
        RangeServed(node, rpc, addresses, a, to);
      }
      return None;
    }
    forall a, m | a in addresses && from <= m <= to
      ensures FoundFor(node, remaining.value, a, m)
    {
      TilingFinds(node, rpc, addresses, segments, from, to, a, m);
    }
    forall y | y in remaining.value
      ensures OnNode(node, y) && y.emitter in addresses
    {
      TilingSourced(node, rpc, addresses, segments, y);
    }
    logs := Some(remaining.value);
  }

  /** Logs of newly discovered contracts: of this block at once, of the rest of the segment for later. */
  method ScanDiscoveredLogCoverage(node: Node, rpc: Rpc, n: nat, segmentEnd: int, addresses: seq<Address>, rangeSize: nat, lists: LogsByBlock)
    returns (current: Option<seq<FetchedLog>>, lists': LogsByBlock)
    requires HonestRpc(node, rpc) && TransactionsOnce(node)
    requires n <= segmentEnd < |node.headers| && rangeSize > 0 && Tidy(lists)
    ensures Keeps(lists, lists') && SourcedMore(node, lists, lists', addresses)
    ensures current.Some? ==> forall y :: y in current.value ==> OnNode(node, y) && y.emitter in addresses && y.number == n
    ensures current.Some? ==> forall a :: a in addresses ==>
              FoundFor(node, current.value, a, n) && FoundThrough(node, lists', a, n + 1, segmentEnd)
    ensures current.None? ==> !Obliging(rpc)
  {
    lists' := lists;
    if addresses == [] {
      return Some([]), lists';
    }
    var here := RangeQuery(rpc, addresses)(n, n);
    if !here.Items? {
      if Obliging(rpc) {
        RangeServed(node, rpc, addresses, n, n);
      }
      return None, lists';
    }
    var remaining := Some([]);
    if n < segmentEnd {
      remaining := FetchRemaining(node, rpc, n + 1, segmentEnd, addresses, rangeSize);
    }
    if remaining.None? {
      return None, lists';
    }
    lists' := MergeLogs(lists, remaining.value);
    current := Some(here.items);
    forall y | y in here.items
      ensures OnNode(node, y) && y.emitter in addresses && y.number == n
    {
      RangeSourced(node, rpc, addresses, n, n, y);
    }
    forall a | a in addresses
      ensures FoundFor(node, here.items, a, n) && FoundThrough(node, lists', a, n + 1, segmentEnd)
    {
      RangeFinds(node, rpc, addresses, n, n, a, n);
      forall m | n + 1 <= m <= segmentEnd
        ensures FoundFor(node, At(lists', m), a, m)
      {
        MergedFinds(node, lists, remaining.value, lists', a, m);
      }
    }
  }

  lemma MergedFinds(node: Node, target: LogsByBlock, logs: seq<FetchedLog>, merged: LogsByBlock, a: Address, m: int)
    requires Merged(target, logs, merged) && FoundFor(node, logs, a, m)
    ensures FoundFor(node, At(merged, m), a, m)
  {
  }

  lemma KeptFinds(node: Node, before: LogsByBlock, after: LogsByBlock, a: Address, m: int)
    requires Keeps(before, after) && FoundFor(node, At(before, m), a, m)
    ensures FoundFor(node, At(after, m), a, m)
  {
  }

  // ---------------------------------------------------------------- the fixed point

  datatype Indexed = Indexed(contracts: Contracts, discovered: seq<DiscoveredContract>, receipts: seq<Receipt>, lists: LogsByBlock)

  datatype IndexError = ChainContinuity | LogsUnavailable

  /** No fetched receipt announces a contract that is missing from the table, and no coordinator
      found here names one. */
  ghost predicate Closed(w: World, h: Hash, receipts: seq<Receipt>, table: Contracts, ds: seq<DiscoveredContract>) {
    && SettledReceipts(w, table, receipts, |receipts|)
    && (forall i :: 0 <= i < |ds| ==> SettledCoordinator(w, h, table, ds[i]))
  }

  /** Every followed discovery has its transactions fetched and its later logs found. */
  ghost predicate Pulled(node: Node, n: nat, segmentEnd: int, receipts: seq<Receipt>, lists: LogsByBlock, ds: seq<DiscoveredContract>)
    requires n < |node.headers|
  {
    forall i :: 0 <= i < |ds| && Followed(RowOf(ds[i])) ==>
      && AllFetched(node.world, node.headers[n].hash, receipts, ds[i].address)
      && FoundThrough(node, lists, ds[i].address, n + 1, segmentEnd)
  }

  /** What has been read of the block so far. */
  ghost predicate Read(node: Node, n: nat, receipts: seq<Receipt>, relevant: seq<Hash>, prefetched: seq<FetchedLog>)
    requires n < |node.headers|
  {
    && Fetched(node.world, node.headers[n].hash, relevant, receipts) && |receipts| == |relevant|
    && forall y :: y in prefetched ==> y.transactionHash in relevant
  }

  /** One round: everything the fetched receipts and the coordinators announce. */
  method DiscoverOnce(w: World, h: Hash, n: nat, current: Contracts, receipts: seq<Receipt>, table: Contracts, ds: seq<DiscoveredContract>)
    returns (table': Contracts, ds': seq<DiscoveredContract>)
    requires Consistent(w, h, n, current, table, ds) && FromBlock(w, h, receipts)
    ensures Consistent(w, h, n, current, table', ds') && Longer(table, ds, table', ds')
    ensures |ds'| == |ds| ==> Closed(w, h, receipts, table, ds)
  {
    table', ds' := DiscoverFromReceipts(w, h, n, current, receipts, table, ds);
    table', ds' := DiscoverRegistries(w, h, n, current, table', ds');
  }

  lemma PulledMore(node: Node, n: nat, segmentEnd: int, before: seq<Receipt>, receipts: seq<Receipt>, relevant: seq<Hash>,
                   logs: seq<FetchedLog>, lists: LogsByBlock, lists': LogsByBlock, ds: seq<DiscoveredContract>, ds': seq<DiscoveredContract>)
    requires n < |node.headers| && TransactionsOnce(node) && ds <= ds'
    requires Pulled(node, n, segmentEnd, before, lists, ds) && before <= receipts && Keeps(lists, lists')
    requires Read(node, n, receipts, relevant, logs)
    requires forall a :: a in DiscoveryLogAddresses(ds'[|ds|..]) ==>
               FoundFor(node, logs, a, n) && FoundThrough(node, lists', a, n + 1, segmentEnd)
    ensures Pulled(node, n, segmentEnd, receipts, lists', ds')
  {
    forall i | 0 <= i < |ds'| && Followed(RowOf(ds'[i]))
      ensures AllFetched(node.world, node.headers[n].hash, receipts, ds'[i].address)
      ensures FoundThrough(node, lists', ds'[i].address, n + 1, segmentEnd)
    {
      if i < |ds| {
        assert ds'[i] == ds[i];
        forall m | n + 1 <= m <= segmentEnd
          ensures FoundFor(node, At(lists', m), ds[i].address, m)
        {
          KeptFinds(node, lists, lists', ds[i].address, m);
        }
      } else {
        assert ds'[|ds|..][i - |ds|] == ds'[i];
        FollowedAreAsked(ds'[|ds|..], i - |ds|);
        FoundIsFetched(node, n, relevant, receipts, logs, ds'[i].address);
      }
    }
  }

  /** The state between two rounds. */
  datatype Progress = Progress(contracts: Contracts, discovered: seq<DiscoveredContract>, relevant: seq<Hash>,
                               receipts: seq<Receipt>, lists: LogsByBlock)

  ghost predicate Underway(node: Node, n: nat, segmentEnd: int, current: Contracts, known: seq<FetchedLog>, lists: LogsByBlock, p: Progress)
    requires n < |node.headers|
  {
    && Read(node, n, p.receipts, p.relevant, known)
    && Consistent(node.world, node.headers[n].hash, n, current, p.contracts, p.discovered)
    && Keeps(lists, p.lists)
    && Pulled(node, n, segmentEnd, p.receipts, p.lists, p.discovered)
    && FromKnown(node, n, p.contracts.Keys, p.relevant, p.lists)
  }

  /** What is asked for on behalf of discoveries comes from contracts of the table. */
  lemma PulledFromKnown(node: Node, n: nat, current: Contracts, ds: seq<DiscoveredContract>, ds': seq<DiscoveredContract>, table: Contracts,
                        relevant: seq<Hash>, lists: LogsByBlock, logs: seq<FetchedLog>, relevant': seq<Hash>, lists': LogsByBlock)
    requires n < |node.headers| && ds <= ds' && table == Table(current, ds')
    requires FromKnown(node, n, Table(current, ds).Keys, relevant, lists)
    requires SourcedMore(node, lists, lists', DiscoveryLogAddresses(ds'[|ds|..]))
    requires forall y :: y in logs ==> OnNode(node, y) && y.emitter in DiscoveryLogAddresses(ds'[|ds|..]) && y.number == n
    requires forall t :: t in relevant' ==> t in relevant || exists y :: y in logs && y.transactionHash == t
    ensures FromKnown(node, n, table.Keys, relevant', lists')
  {
    forall a
      ensures a in Table(current, ds) ==> a in table
      ensures a in DiscoveryLogAddresses(ds'[|ds|..]) ==> a in table
    {
      KnownInTable(current, ds, ds', a);
    }
    KnownGrows(node, n, Table(current, ds).Keys, table.Keys, relevant, lists);
    MoreSelected(node, n, table.Keys, relevant, logs, relevant');
  }

  lemma KnownInTable(current: Contracts, ds: seq<DiscoveredContract>, ds': seq<DiscoveredContract>, a: Address)
    requires ds <= ds'
    ensures a in Table(current, ds) ==> a in Table(current, ds')
    ensures a in DiscoveryLogAddresses(ds'[|ds|..]) ==> a in Table(current, ds')
  {
    TableKeys(current, ds, a);
    TableKeys(current, ds', a);
    if i :| 0 <= i < |ds| && ds[i].address == a {
      assert ds'[i].address == a;
    }
    if a in DiscoveryLogAddresses(ds'[|ds|..]) {
      AskedAreFound(ds'[|ds|..], a);
      var i :| 0 <= i < |ds'| - |ds| && ds'[|ds|..][i].address == a;
      assert ds'[|ds| + i].address == a;
    }
  }

  /** Fetches what the latest discoveries call for. */
  method Pull(node: Node, rpc: Rpc, n: nat, segmentEnd: int, current: Contracts, known: seq<FetchedLog>, rangeSize: nat, lists: LogsByBlock,
              p: Progress, table: Contracts, ds: seq<DiscoveredContract>)
    returns (next: Result<Progress, IndexError>)
    requires HonestRpc(node, rpc) && TransactionsOnce(node)
    requires n <= segmentEnd < |node.headers| && rangeSize > 0
    requires Underway(node, n, segmentEnd, current, known, lists, p)
    requires Consistent(node.world, node.headers[n].hash, n, current, table, ds) && p.discovered <= ds
    ensures next.Success? ==> Underway(node, n, segmentEnd, current, known, lists, next.value) && next.value.discovered == ds
    ensures next.Failure? ==> next.error.LogsUnavailable? && !Obliging(rpc)
  {
    var h := node.headers[n].hash;
    var logs, more := ScanDiscoveredLogCoverage(node, rpc, n, segmentEnd, DiscoveryLogAddresses(ds[|p.discovered|..]), rangeSize, p.lists);
    if logs.None? {
      return Failure(LogsUnavailable);
    }
    if exists i :: 0 <= i < |logs.value| && logs.value[i].blockHash != h {
      return Failure(ChainContinuity);
    }
    var relevant := AddRelevant(p.relevant, logs.value);
    PulledFromKnown(node, n, current, p.discovered, ds, table, p.relevant, p.lists, logs.value, relevant, more);
    SelectedInBlock(node.world, h, table.Keys, relevant);
    var fetched := FetchMissingEvidence(node.world, h, relevant, p.receipts);
    if fetched.None? {
      return Failure(ChainContinuity);
    }
    PulledMore(node, n, segmentEnd, p.receipts, fetched.value, relevant, logs.value, p.lists, more, p.discovered, ds);
    next := Success(Progress(table, ds, relevant, fetched.value, more));
  }

  /** The block's header fits, and so do the logs known of it; their transactions are fetched. */
  method Start(node: Node, n: nat, segmentEnd: int, current: Contracts, expectedParent: Option<Hash>, lists: LogsByBlock)
    returns (start: Result<Progress, IndexError>)
    requires n < |node.headers| && Tidy(lists) && SourcedLists(node, current.Keys, lists)
    ensures start.Success? ==>
      && Underway(node, n, segmentEnd, current, At(lists, n), lists, start.value)
      && (expectedParent.Some? ==> node.headers[n].parentHash == expectedParent.value)
    ensures start.Failure? ==> start.error.ChainContinuity? && expectedParent.Some? && node.headers[n].parentHash != expectedParent.value
  {
    var w, header := node.world, node.headers[n];
    if expectedParent.Some? && header.parentHash != expectedParent.value {
      return Failure(ChainContinuity);
    }
    var known := At(lists, n);
    if exists i :: 0 <= i < |known| && (known[i].blockHash != header.hash || known[i].number != n) {
      return Failure(ChainContinuity);
    }
    var relevant := AddRelevant([], known);
    MoreSelected(node, n, current.Keys, [], known, relevant);
    SelectedInBlock(w, header.hash, current.Keys, relevant);
    var fetched := FetchMissingEvidence(w, header.hash, relevant, []);
    if fetched.None? {
      return Failure(ChainContinuity);
    }
    start := Success(Progress(current, [], relevant, fetched.value, lists));
  }

  /** Extends `lists` by the later logs of what block `n` announces. On success the contract table is
      closed, every discovery in it is justified, and for each followed contract all transactions of
      the block in which it emits something are there, provided the logs of those known at first were.
      It fails only for a parent that is not the expected one, or for logs that the node does not serve. */
  method IndexBlock(node: Node, rpc: Rpc, n: nat, segmentEnd: int, current: Contracts, expectedParent: Option<Hash>, rangeSize: nat,
                    lists: LogsByBlock)
    returns (result: Result<Indexed, IndexError>)
    requires HonestRpc(node, rpc) && TransactionsOnce(node) && DecodesWords(node.world)
    requires n <= segmentEnd < |node.headers| && rangeSize > 0 && Tidy(lists) && SourcedLists(node, current.Keys, lists)
    ensures result.Success? ==> IsIndexed(node, n, segmentEnd, current, expectedParent, lists, result.value)
    ensures result.Failure? && result.error.ChainContinuity? <==> expectedParent.Some? && node.headers[n].parentHash != expectedParent.value
    ensures result.Failure? && result.error.LogsUnavailable? ==> !Obliging(rpc)
  {
    var w, h := node.world, node.headers[n].hash;
    var progress := Start(node, n, segmentEnd, current, expectedParent, lists);
    if progress.Failure? {
      return Failure(progress.error);
    }
    var p := progress.value;
    while true
      invariant Underway(node, n, segmentEnd, current, At(lists, n), lists, p)
      decreases |Universe(w, h)| - |p.discovered|
    {
      var table, ds := DiscoverOnce(w, h, n, current, p.receipts, p.contracts, p.discovered);
      if |ds| == |p.discovered| {
        AllRead(node, n, p.receipts, p.relevant, At(lists, n));
        ReadIsSelected(node, n, p.contracts.Keys, p.receipts, p.relevant);
        return Success(Indexed(table, ds, p.receipts, p.lists));
      }
      DiscoveriesBounded(w, h, n, current, table, ds);
      progress := Pull(node, rpc, n, segmentEnd, current, At(lists, n), rangeSize, lists, p, table, ds);
      if progress.Failure? {
        return Failure(progress.error);
      }
      p := progress.value;
    }
  }

  lemma ReadIsSelected(node: Node, n: nat, known: set<Address>, receipts: seq<Receipt>, relevant: seq<Hash>)
    requires n < |node.headers| && Fetched(node.world, node.headers[n].hash, relevant, receipts)
    requires Selected(node.world, node.headers[n].hash, known, relevant)
    ensures AllSelected(node.world, node.headers[n].hash, known, receipts)
  {
    forall i | 0 <= i < |receipts|
      ensures SelectedBy(node.world, node.headers[n].hash, known, receipts[i].txHash)
    {
      assert receipts[i].txHash == relevant[i];
    }
  }

  /** Each receipt is that of a transaction in which a contract of the set emits something. */
  ghost predicate AllSelected(w: World, h: Hash, known: set<Address>, receipts: seq<Receipt>) {
    forall i :: 0 <= i < |receipts| ==> SelectedBy(w, h, known, receipts[i].txHash)
  }

  lemma AllRead(node: Node, n: nat, receipts: seq<Receipt>, relevant: seq<Hash>, known: seq<FetchedLog>)
    requires n < |node.headers| && TransactionsOnce(node) && Read(node, n, receipts, relevant, known)
    ensures forall a :: FoundFor(node, known, a, n) ==> AllFetched(node.world, node.headers[n].hash, receipts, a)
  {
    forall a | FoundFor(node, known, a, n)
      ensures AllFetched(node.world, node.headers[n].hash, receipts, a)
    {
      FoundIsFetched(node, n, relevant, receipts, known, a);
    }
  }

  ghost predicate IsIndexed(node: Node, n: nat, segmentEnd: int, current: Contracts, expectedParent: Option<Hash>, lists: LogsByBlock, indexed: Indexed)
    requires n < |node.headers|
  {
    var w, h := node.world, node.headers[n].hash;
    && (expectedParent.Some? ==> node.headers[n].parentHash == expectedParent.value)
    && Consistent(w, h, n, current, indexed.contracts, indexed.discovered)
    && FromBlock(w, h, indexed.receipts)
    && Closed(w, h, indexed.receipts, indexed.contracts, indexed.discovered)
    && Keeps(lists, indexed.lists)
    && Pulled(node, n, segmentEnd, indexed.receipts, indexed.lists, indexed.discovered)
    && (forall a :: FoundFor(node, At(lists, n), a, n) ==> AllFetched(w, h, indexed.receipts, a))
    && AllSelected(w, h, indexed.contracts.Keys, indexed.receipts) && SourcedLists(node, indexed.contracts.Keys, indexed.lists)
  }
}
