/** Asking the node for the logs a plan wants: addresses grouped by their start, a few per request. */
module Queries {
  import opened Records
  import opened LogScan
  import opened Node
  import opened Planner
  import opened Ordering

  datatype LogQueryGroup = LogQueryGroup(addresses: seq<Address>, fromBlock: int)

  const GROUP_SIZE := 5

  // ---------------------------------------------------------------- grouping

  /** Ascending, each start once. */
  function Starts(inputs: seq<LogScanInput>): seq<int> {
    if inputs == [] then [] else InsertAscending(Starts(inputs[..|inputs| - 1]), inputs[|inputs| - 1].fromBlock)
  }

  function AddressesFrom(inputs: seq<LogScanInput>, start: int): seq<Address> {
    if inputs == [] then []
    else
      var last := inputs[|inputs| - 1];
      AddressesFrom(inputs[..|inputs| - 1], start) + if last.fromBlock == start then [last.address] else []
  }

  function Chunked(addresses: seq<Address>, start: int): seq<LogQueryGroup> {
    if addresses == [] then []
    else if |addresses| <= GROUP_SIZE then [LogQueryGroup(addresses, start)]
    else [LogQueryGroup(addresses[..GROUP_SIZE], start)] + Chunked(addresses[GROUP_SIZE..], start)
  }

  function GroupsFrom(inputs: seq<LogScanInput>, starts: seq<int>): seq<LogQueryGroup> {
    if starts == [] then []
    else GroupsFrom(inputs, starts[..|starts| - 1])
         + Chunked(AddressesFrom(inputs, starts[|starts| - 1]), starts[|starts| - 1])
  }

  function RpcLogQueryGroups(inputs: seq<LogScanInput>): seq<LogQueryGroup> {
    GroupsFrom(inputs, Starts(inputs))
  }

  ghost predicate InGroup(groups: seq<LogQueryGroup>, a: Address, start: int) {
    exists g :: g in groups && g.fromBlock == start && a in g.addresses
  }

  ghost predicate IsInput(inputs: seq<LogScanInput>, a: Address, start: int) {
    exists i :: 0 <= i < |inputs| && inputs[i].address == a && inputs[i].fromBlock == start
  }

  lemma {:induction false} StartsExactly(inputs: seq<LogScanInput>, s: int)
    ensures Ascending(Starts(inputs))
    ensures s in Starts(inputs) <==> exists i :: 0 <= i < |inputs| && inputs[i].fromBlock == s
  {
    if inputs != [] {
      var front := inputs[..|inputs| - 1];
      StartsExactly(front, s);
      InsertAscendingKeeps(Starts(front), inputs[|inputs| - 1].fromBlock);
      assert forall i :: 0 <= i < |front| ==> front[i] == inputs[i];
      assert inputs[|inputs| - 1].fromBlock == s ==> exists i :: 0 <= i < |inputs| && inputs[i].fromBlock == s;
    }
  }

  lemma {:induction false} AddressesExactly(inputs: seq<LogScanInput>, start: int, a: Address)
    ensures a in AddressesFrom(inputs, start) <==> IsInput(inputs, a, start)
  {
    if inputs != [] {
      var front := inputs[..|inputs| - 1];
      AddressesExactly(front, start, a);
      assert forall i :: 0 <= i < |front| ==> front[i] == inputs[i];
      var last := inputs[|inputs| - 1];
      assert last.address == a && last.fromBlock == start ==> IsInput(inputs, a, start);
    }
  }

  lemma {:induction false} ChunkedExactly(addresses: seq<Address>, start: int, a: Address, s: int)
    ensures InGroup(Chunked(addresses, start), a, s) <==> s == start && a in addresses
    ensures forall g :: g in Chunked(addresses, start) ==> 1 <= |g.addresses| <= 5
  {
    if GROUP_SIZE < |addresses| {
      var first, rest := LogQueryGroup(addresses[..GROUP_SIZE], start), Chunked(addresses[GROUP_SIZE..], start);
      ChunkedExactly(addresses[GROUP_SIZE..], start, a, s);
      assert addresses == addresses[..GROUP_SIZE] + addresses[GROUP_SIZE..];
      assert forall g :: g in [first] + rest <==> g == first || g in rest;
    } else if addresses != [] {
      assert LogQueryGroup(addresses, start) in Chunked(addresses, start);
    }
  }

  lemma {:induction false} GroupsFromExactly(inputs: seq<LogScanInput>, starts: seq<int>, a: Address, s: int)
    ensures InGroup(GroupsFrom(inputs, starts), a, s) <==> s in starts && a in AddressesFrom(inputs, s)
    ensures forall g :: g in GroupsFrom(inputs, starts) ==> 1 <= |g.addresses| <= 5
  {
    if starts != [] {
      var front, last := starts[..|starts| - 1], starts[|starts| - 1];
      GroupsFromExactly(inputs, front, a, s);
      ChunkedExactly(AddressesFrom(inputs, last), last, a, s);
      assert starts == front + [last];
      var f, c := GroupsFrom(inputs, front), Chunked(AddressesFrom(inputs, last), last);
      assert forall g :: g in f + c <==> g in f || g in c;
    }
  }

  /** The groups ask for every input's address from exactly that input's start, and for nothing else. */
  lemma GroupsAskExactly(inputs: seq<LogScanInput>, a: Address, s: int)
    ensures InGroup(RpcLogQueryGroups(inputs), a, s) <==> IsInput(inputs, a, s)
    ensures forall g :: g in RpcLogQueryGroups(inputs) ==> 1 <= |g.addresses| <= 5
  {
    GroupsFromExactly(inputs, Starts(inputs), a, s);
    StartsExactly(inputs, s);
    AddressesExactly(inputs, s, a);
  }

  /** Of the groups with the same start all but the last are full. */
  predicate Full(groups: seq<LogQueryGroup>) {
    forall i, j :: 0 <= i < j < |groups| && groups[i].fromBlock == groups[j].fromBlock ==> |groups[i].addresses| == 5
  }

  lemma {:induction false} ChunkedFull(addresses: seq<Address>, start: int)
    ensures Full(Chunked(addresses, start)) && forall g :: g in Chunked(addresses, start) ==> g.fromBlock == start
  {
    if GROUP_SIZE < |addresses| {
      ChunkedFull(addresses[GROUP_SIZE..], start);
    }
  }

  lemma {:induction false} GroupsFromFull(inputs: seq<LogScanInput>, starts: seq<int>)
    requires forall i, j :: 0 <= i < j < |starts| ==> starts[i] != starts[j]
    ensures Full(GroupsFrom(inputs, starts)) && forall g :: g in GroupsFrom(inputs, starts) ==> g.fromBlock in starts
  {
    if starts != [] {
      var front, last := starts[..|starts| - 1], starts[|starts| - 1];
      GroupsFromFull(inputs, front);
      ChunkedFull(AddressesFrom(inputs, last), last);
      assert starts == front + [last] && last !in front;
      var f, c := GroupsFrom(inputs, front), Chunked(AddressesFrom(inputs, last), last);
      assert forall i :: 0 <= i < |f| ==> f[i] in f;
      assert forall i :: 0 <= i < |c| ==> c[i] in c;
    }
  }

  /** No request is made that an earlier one had room for. */
  lemma GroupsAreFull(inputs: seq<LogScanInput>)
    ensures Full(RpcLogQueryGroups(inputs))
  {
    StartsExactly(inputs, 0);
    GroupsFromFull(inputs, Starts(inputs));
  }

  // ---------------------------------------------------------------- asking

  function AsSet(addresses: seq<Address>): set<Address> {
    set i | 0 <= i < |addresses| :: addresses[i]
  }

  function Pages(rpc: Rpc, toBlock: int, groups: seq<LogQueryGroup>): Answer<FetchedLog> {
    if groups == [] then Items([])
    else
      var front := Pages(rpc, toBlock, groups[..|groups| - 1]);
      var last := rpc.getLogs(groups[|groups| - 1].fromBlock, toBlock, AsSet(groups[|groups| - 1].addresses));
      if !front.Items? then front
      else if !last.Items? then last
      else Items(front.items + last.items)
  }

  predicate SameLog(x: FetchedLog, y: FetchedLog) {
    x.transactionHash == y.transactionHash && x.logIndex == y.logIndex
  }

  /** Entering a log into a map keyed by transaction and log index. */
  function Put(logs: seq<FetchedLog>, x: FetchedLog): seq<FetchedLog> {
    if logs == [] then [x]
    else
      var last := logs[|logs| - 1];
      if SameLog(last, x) then logs[..|logs| - 1] + [x] else Put(logs[..|logs| - 1], x) + [last]
  }

  function Unique(logs: seq<FetchedLog>): seq<FetchedLog> {
    if logs == [] then [] else Put(Unique(logs[..|logs| - 1]), logs[|logs| - 1])
  }

  predicate NotAfter(x: FetchedLog, y: FetchedLog) {
    x.transactionIndex < y.transactionIndex || (x.transactionIndex == y.transactionIndex && x.logIndex <= y.logIndex)
  }

  predicate Sorted(logs: seq<FetchedLog>) {
    forall i, j :: 0 <= i < j < |logs| ==>
      && logs[i].transactionIndex <= logs[j].transactionIndex
      && (logs[i].transactionIndex == logs[j].transactionIndex ==> logs[i].logIndex <= logs[j].logIndex)
  }

  predicate EachOnce(logs: seq<FetchedLog>) {
    forall i, j :: 0 <= i < j < |logs| ==> !SameLog(logs[i], logs[j])
  }

  predicate Has(logs: seq<FetchedLog>, x: FetchedLog) {
    exists i :: 0 <= i < |logs| && SameLog(logs[i], x)
  }

  function Insert(logs: seq<FetchedLog>, x: FetchedLog): seq<FetchedLog> {
    if logs == [] || NotAfter(logs[|logs| - 1], x) then logs + [x]
    else Insert(logs[..|logs| - 1], x) + [logs[|logs| - 1]]
  }

  /** By transaction and log index, whatever the block; equals stay in their order. */
  function InOrder(logs: seq<FetchedLog>): seq<FetchedLog> {
    if logs == [] then [] else Insert(InOrder(logs[..|logs| - 1]), logs[|logs| - 1])
  }

  predicate InRequestedRange(inputs: seq<LogScanInput>, toBlock: int, x: FetchedLog) {
    exists i :: 0 <= i < |inputs| && inputs[i].address == x.emitter && (forall j :: 0 <= j < i ==> inputs[j].address != x.emitter)
                && inputs[i].fromBlock <= x.number <= toBlock
  }

  /** The logs of all inputs through `toBlock`, each once. */
  function QueryLogs(rpc: Rpc, toBlock: int, inputs: seq<LogScanInput>): Answer<FetchedLog> {
    var pages := Pages(rpc, toBlock, RpcLogQueryGroups(inputs));
    if !pages.Items? then pages
    else if exists i :: 0 <= i < |pages.items| && !InRequestedRange(inputs, toBlock, pages.items[i]) then Refused
    else Items(InOrder(Unique(pages.items)))
  }

  lemma {:induction false} InsertHolds(logs: seq<FetchedLog>, x: FetchedLog, y: FetchedLog)
    ensures y in Insert(logs, x) <==> y == x || y in logs
  {
    if logs != [] {
      var front := logs[..|logs| - 1];
      InsertHolds(front, x, y);
      assert logs == front + [logs[|logs| - 1]];
    }
  }

  lemma {:induction false} InsertSorts(logs: seq<FetchedLog>, x: FetchedLog)
    requires Sorted(logs) && EachOnce(logs) && !Has(logs, x)
    ensures Sorted(Insert(logs, x)) && EachOnce(Insert(logs, x)) && |Insert(logs, x)| == |logs| + 1
  {
    if logs != [] && !NotAfter(logs[|logs| - 1], x) {
      var front, last := logs[..|logs| - 1], logs[|logs| - 1];
      InsertSorts(front, x);
      forall i | 0 <= i < |Insert(front, x)|
        ensures NotAfter(Insert(front, x)[i], last) && !SameLog(Insert(front, x)[i], last)
      {
        InsertHolds(front, x, Insert(front, x)[i]);
        assert SameLog(last, x) <==> SameLog(x, last);
      }
    }
  }

  lemma {:induction false} InOrderHolds(logs: seq<FetchedLog>, y: FetchedLog)
    requires EachOnce(logs)
    ensures Sorted(InOrder(logs)) && EachOnce(InOrder(logs))
    ensures y in InOrder(logs) <==> y in logs
  {
    if logs != [] {
      var front, last := logs[..|logs| - 1], logs[|logs| - 1];
      InOrderHolds(front, y);
      InsertHolds(InOrder(front), last, y);
      forall i | 0 <= i < |InOrder(front)|
        ensures !SameLog(InOrder(front)[i], last)
      {
        InOrderHolds(front, InOrder(front)[i]);
      }
      InsertSorts(InOrder(front), last);
      assert logs == front + [last];
    }
  }

  lemma {:induction false} PutKeeps(logs: seq<FetchedLog>, x: FetchedLog, y: FetchedLog)
    ensures y in Put(logs, x) ==> y == x || y in logs
    ensures y == x || (y in logs && !SameLog(x, y)) ==> y in Put(logs, x)
  {
    if logs != [] {
      var front, last := logs[..|logs| - 1], logs[|logs| - 1];
      PutKeeps(front, x, y);
      assert logs == front + [last];
    }
  }

  lemma {:induction false} PutOnce(logs: seq<FetchedLog>, x: FetchedLog)
    requires EachOnce(logs)
    ensures EachOnce(Put(logs, x))
  {
    if logs != [] && !SameLog(logs[|logs| - 1], x) {
      var front, last := logs[..|logs| - 1], logs[|logs| - 1];
      PutOnce(front, x);
      forall i | 0 <= i < |Put(front, x)|
        ensures !SameLog(Put(front, x)[i], last)
      {
        PutKeeps(front, x, Put(front, x)[i]);
      }
    }
  }

  lemma {:induction false} UniqueOnce(logs: seq<FetchedLog>)
    ensures EachOnce(Unique(logs))
  {
    if logs != [] {
      UniqueOnce(logs[..|logs| - 1]);
      PutOnce(Unique(logs[..|logs| - 1]), logs[|logs| - 1]);
    }
  }

  lemma {:induction false} UniqueKeeps(logs: seq<FetchedLog>, x: FetchedLog)
    ensures x in Unique(logs) ==> x in logs
    ensures x in logs ==> exists y :: y in Unique(logs) && SameLog(x, y)
  {
    if logs != [] {
      var front, last := logs[..|logs| - 1], logs[|logs| - 1];
      UniqueKeeps(front, x);
      PutKeeps(Unique(front), last, x);
      assert logs == front + [last];
      PutKeeps(Unique(front), last, last);
      if x in front {
        var y :| y in Unique(front) && SameLog(x, y);
        PutKeeps(Unique(front), last, y);
        var z := if SameLog(last, y) then last else y;
        assert z in Unique(logs) && SameLog(x, z);
      } else {
        assert x in logs ==> x == last && SameLog(x, last);
      }
    }
  }

  lemma {:induction false} PagesExactly(node: Node, rpc: Rpc, toBlock: int, groups: seq<LogQueryGroup>, x: FetchedLog)
    requires HonestRpc(node, rpc) && Pages(rpc, toBlock, groups).Items?
    requires forall g :: g in groups ==> 0 <= g.fromBlock <= toBlock
    ensures x in Pages(rpc, toBlock, groups).items <==>
            OnNode(node, x) && x.number <= toBlock && exists g :: g in groups && g.fromBlock <= x.number && x.emitter in g.addresses
  {
    if groups != [] {
      var front, last := groups[..|groups| - 1], groups[|groups| - 1];
      assert groups == front + [last];
      PagesExactly(node, rpc, toBlock, front, x);
      AnswerExactly(node, rpc, AsSet(last.addresses), last.fromBlock, toBlock, x);
    }
  }

  predicate Bounded(inputs: seq<LogScanInput>, toBlock: int) {
    forall i :: 0 <= i < |inputs| ==> 0 <= inputs[i].fromBlock <= toBlock
  }

  lemma GroupsBounded(inputs: seq<LogScanInput>, toBlock: int)
    requires Bounded(inputs, toBlock)
    ensures forall g :: g in RpcLogQueryGroups(inputs) ==> 0 <= g.fromBlock <= toBlock
  {
    forall g | g in RpcLogQueryGroups(inputs)
      ensures 0 <= g.fromBlock <= toBlock
    {
      GroupsAskExactly(inputs, 0, 0);
      GroupsAskExactly(inputs, g.addresses[0], g.fromBlock);
      assert InGroup(RpcLogQueryGroups(inputs), g.addresses[0], g.fromBlock);
    }
  }

  /** What becomes of the pages: each log once, in order. */
  lemma AnswerHolds(logs: seq<FetchedLog>, x: FetchedLog)
    ensures Sorted(InOrder(Unique(logs))) && EachOnce(InOrder(Unique(logs)))
    ensures x in InOrder(Unique(logs)) ==> x in logs
    ensures x in logs ==> exists y :: y in InOrder(Unique(logs)) && SameLog(x, y)
  {
    UniqueKeeps(logs, x);
    UniqueOnce(logs);
    InOrderHolds(Unique(logs), x);
    if x in logs {
      var y :| y in Unique(logs) && SameLog(x, y);
      InOrderHolds(Unique(logs), y);
    }
  }

  /** An answer is in order and has each log once, consists of logs of the chain that were asked for, and misses none of them. */
  lemma QueryFindsExactly(node: Node, rpc: Rpc, toBlock: int, inputs: seq<LogScanInput>, x: FetchedLog)
    requires HonestRpc(node, rpc) && Bounded(inputs, toBlock) && QueryLogs(rpc, toBlock, inputs).Items?
    ensures Sorted(QueryLogs(rpc, toBlock, inputs).items) && EachOnce(QueryLogs(rpc, toBlock, inputs).items)
    ensures x in QueryLogs(rpc, toBlock, inputs).items ==>
              OnNode(node, x) && x.number <= toBlock && exists i :: 0 <= i < |inputs| && inputs[i].address == x.emitter && inputs[i].fromBlock <= x.number
    ensures OnNode(node, x) && x.number <= toBlock
            && (exists i :: 0 <= i < |inputs| && inputs[i].address == x.emitter && inputs[i].fromBlock <= x.number) ==>
              exists y :: y in QueryLogs(rpc, toBlock, inputs).items && SameLog(x, y)
  {
    var groups := RpcLogQueryGroups(inputs);
    GroupsBounded(inputs, toBlock);
    PagesExactly(node, rpc, toBlock, groups, x);
    AnswerHolds(Pages(rpc, toBlock, groups).items, x);
    forall s
      ensures InGroup(groups, x.emitter, s) <==> IsInput(inputs, x.emitter, s)
    {
      GroupsAskExactly(inputs, x.emitter, s);
    }
    forall g | g in groups && x.emitter in g.addresses
      ensures IsInput(inputs, x.emitter, g.fromBlock)
    {
      assert InGroup(groups, x.emitter, g.fromBlock);
    }
    forall i | 0 <= i < |inputs| && inputs[i].address == x.emitter
      ensures InGroup(groups, x.emitter, inputs[i].fromBlock)
    {
      assert IsInput(inputs, x.emitter, inputs[i].fromBlock);
    }
  }

  // ---------------------------------------------------------------- refusals

  /** The first input for its emitter starts at or before it. */
  ghost predicate Requested(inputs: seq<LogScanInput>, toBlock: int, x: FetchedLog) {
    && x.number <= toBlock
    && exists i :: 0 <= i < |inputs| && inputs[i].address == x.emitter && x.emitter !in Addressed(inputs[..i]) && inputs[i].fromBlock <= x.number
  }

  function Addressed(inputs: seq<LogScanInput>): set<Address> {
    set input | input in inputs :: input.address
  }

  /** Whatever the node is like: an answer is used exactly if every page was answered and holds only logs
      that were requested. */
  lemma QueryRefusesExactly(rpc: Rpc, toBlock: int, inputs: seq<LogScanInput>)
    ensures var pages, answer := Pages(rpc, toBlock, RpcLogQueryGroups(inputs)), QueryLogs(rpc, toBlock, inputs);
            && (answer.Items? <==> pages.Items? && forall x :: x in pages.items ==> Requested(inputs, toBlock, x))
            && (answer.TooWide? <==> pages.TooWide?)
            && (answer.Items? ==> forall x :: x in answer.items ==> Requested(inputs, toBlock, x))
  {
    var pages := Pages(rpc, toBlock, RpcLogQueryGroups(inputs));
    forall x
      ensures InRequestedRange(inputs, toBlock, x) <==> Requested(inputs, toBlock, x)
    {
      RequestedExactly(inputs, toBlock, x);
    }
    if QueryLogs(rpc, toBlock, inputs).Items? {
      forall x | x in QueryLogs(rpc, toBlock, inputs).items
        ensures Requested(inputs, toBlock, x)
      {
        AnswerHolds(pages.items, x);
      }
    }
  }

  lemma RequestedExactly(inputs: seq<LogScanInput>, toBlock: int, x: FetchedLog)
    ensures InRequestedRange(inputs, toBlock, x) <==> Requested(inputs, toBlock, x)
  {
    forall i | 0 <= i < |inputs|
      ensures x.emitter !in Addressed(inputs[..i]) <==> forall j :: 0 <= j < i ==> inputs[j].address != x.emitter
    {
      assert forall j :: 0 <= j < i ==> inputs[..i][j] == inputs[j];
    }
  }

  // ---------------------------------------------------------------- being served

  /** No address is asked for from two different blocks. */
  predicate OneStartEach(inputs: seq<LogScanInput>) {
    forall i, j :: 0 <= i < |inputs| && 0 <= j < |inputs| && inputs[i].address == inputs[j].address ==> inputs[i].fromBlock == inputs[j].fromBlock
  }

  lemma {:induction false} PagesServed(rpc: Rpc, toBlock: int, groups: seq<LogQueryGroup>)
    requires Obliging(rpc) && forall g :: g in groups ==> 0 <= g.fromBlock <= toBlock
    ensures !Pages(rpc, toBlock, groups).Refused?
    ensures (forall g :: g in groups ==> g.fromBlock == toBlock) ==> Pages(rpc, toBlock, groups).Items?
  {
    if groups != [] {
      var front, last := groups[..|groups| - 1], groups[|groups| - 1];
      assert groups == front + [last];
      PagesServed(rpc, toBlock, front);
    }
  }

  lemma {:induction false} FirstFor(inputs: seq<LogScanInput>, i: nat) returns (first: nat)
    requires i < |inputs|
    ensures first <= i && inputs[first].address == inputs[i].address
    ensures forall j :: 0 <= j < first ==> inputs[j].address != inputs[i].address
    decreases i
  {
    if j :| 0 <= j < i && inputs[j].address == inputs[i].address {
      first := FirstFor(inputs, j);
    } else {
      first := i;
    }
  }

  lemma PageInRange(node: Node, rpc: Rpc, toBlock: int, inputs: seq<LogScanInput>, x: FetchedLog)
    requires HonestRpc(node, rpc) && Bounded(inputs, toBlock) && OneStartEach(inputs)
    requires Pages(rpc, toBlock, RpcLogQueryGroups(inputs)).Items? && x in Pages(rpc, toBlock, RpcLogQueryGroups(inputs)).items
    ensures InRequestedRange(inputs, toBlock, x)
  {
    var groups := RpcLogQueryGroups(inputs);
    GroupsBounded(inputs, toBlock);
    PagesExactly(node, rpc, toBlock, groups, x);
    var g :| g in groups && g.fromBlock <= x.number && x.emitter in g.addresses;
    GroupsAskExactly(inputs, x.emitter, g.fromBlock);
    var i :| 0 <= i < |inputs| && inputs[i].address == x.emitter && inputs[i].fromBlock == g.fromBlock;
    var first := FirstFor(inputs, i);
  }

  /** An obliging node's answers are never refused, and a query for one block is always answered. */
  lemma QueryServed(node: Node, rpc: Rpc, toBlock: int, inputs: seq<LogScanInput>)
    requires HonestRpc(node, rpc) && Obliging(rpc) && Bounded(inputs, toBlock) && OneStartEach(inputs)
    ensures !QueryLogs(rpc, toBlock, inputs).Refused?
    ensures (forall i :: 0 <= i < |inputs| ==> inputs[i].fromBlock == toBlock) ==> QueryLogs(rpc, toBlock, inputs).Items?
  {
    var groups := RpcLogQueryGroups(inputs);
    GroupsBounded(inputs, toBlock);
    PagesServed(rpc, toBlock, groups);
    if Pages(rpc, toBlock, groups).Items? {
      forall x | x in Pages(rpc, toBlock, groups).items
        ensures InRequestedRange(inputs, toBlock, x)
      {
        PageInRange(node, rpc, toBlock, inputs, x);
      }
    }
    GroupsAskExactly(inputs, 0, 0);
    forall g | g in groups
      ensures IsInput(inputs, g.addresses[0], g.fromBlock)
    {
      GroupsAskExactly(inputs, g.addresses[0], g.fromBlock);
      assert InGroup(groups, g.addresses[0], g.fromBlock);
    }
  }
}
