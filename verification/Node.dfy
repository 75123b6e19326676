/** What the scanner can ask a node: logs of some addresses over a range, and code at a block. */
module Node {
  import opened Records
  import opened World
  import opened LogScan

  /** The chain the node is on while a poll lasts. */
  datatype Node = Node(world: World, headers: Remote)

  datatype FetchedLog = FetchedLog(number: int, blockHash: Hash, transactionIndex: nat, transactionHash: Hash, logIndex: nat, emitter: Address)

  /** How the node responds: it may refuse, but what it answers is true. */
  datatype Rpc = Rpc(getLogs: (int, int, set<Address>) -> Answer<FetchedLog>, codeAt: (Address, nat) -> CodeRead)

  function Head(node: Node): int {
    |node.headers| - 1
  }

  function ReceiptLogs(n: int, h: Hash, index: nat, r: Receipt, count: nat, addresses: set<Address>): seq<FetchedLog>
    requires count <= |r.logs|
  {
    if count == 0 then []
    else
      var log := r.logs[count - 1];
      ReceiptLogs(n, h, index, r, count - 1, addresses)
      + if log.emitter in addresses then [FetchedLog(n, h, index, r.txHash, log.index, log.emitter)] else []
  }

  function BlockLogs(w: World, n: int, h: Hash, count: nat, addresses: set<Address>): seq<FetchedLog>
    requires count <= |w.receipts(h)|
  {
    if count == 0 then []
    else
      var r := w.receipts(h)[count - 1];
      BlockLogs(w, n, h, count - 1, addresses) + ReceiptLogs(n, h, count - 1, r, |r.logs|, addresses)
  }

  /** The logs that the given addresses emit in block `n`, in order. */
  function LogsOf(node: Node, addresses: set<Address>, n: int): seq<FetchedLog> {
    if 0 <= n < |node.headers| then
      var h := node.headers[n].hash;
      BlockLogs(node.world, n, h, |node.world.receipts(h)|, addresses)
    else []
  }

  predicate LogAt(w: World, n: int, h: Hash, r: int, l: int, x: FetchedLog) {
    && 0 <= r < |w.receipts(h)| && 0 <= l < |w.receipts(h)[r].logs|
    && x == FetchedLog(n, h, r, w.receipts(h)[r].txHash, w.receipts(h)[r].logs[l].index, w.receipts(h)[r].logs[l].emitter)
  }

  lemma {:induction false} ReceiptLogsExactly(w: World, n: int, h: Hash, r: nat, count: nat, addresses: set<Address>, x: FetchedLog)
    requires r < |w.receipts(h)| && count <= |w.receipts(h)[r].logs|
    ensures x in ReceiptLogs(n, h, r, w.receipts(h)[r], count, addresses) <==>
            x.emitter in addresses && exists l :: 0 <= l < count && LogAt(w, n, h, r, l, x)
  {
    if count > 0 {
      ReceiptLogsExactly(w, n, h, r, count - 1, addresses, x);
      var log := w.receipts(h)[r].logs[count - 1];
      assert LogAt(w, n, h, r, count - 1, FetchedLog(n, h, r, w.receipts(h)[r].txHash, log.index, log.emitter));
    }
  }

  lemma {:induction false} BlockLogsExactly(w: World, n: int, h: Hash, count: nat, addresses: set<Address>, x: FetchedLog)
    requires count <= |w.receipts(h)|
    ensures x in BlockLogs(w, n, h, count, addresses) <==>
            x.emitter in addresses && exists r, l :: 0 <= r < count && LogAt(w, n, h, r, l, x)
  {
    if count > 0 {
      BlockLogsExactly(w, n, h, count - 1, addresses, x);
      ReceiptLogsExactly(w, n, h, count - 1, |w.receipts(h)[count - 1].logs|, addresses, x);
    }
  }

  /** `x` is a log of the node's chain. */
  ghost predicate OnNode(node: Node, x: FetchedLog) {
    && 0 <= x.number < |node.headers| && x.blockHash == node.headers[x.number].hash
    && exists r, l :: LogAt(node.world, x.number, x.blockHash, r, l, x)
  }

  lemma LogsOfExactly(node: Node, addresses: set<Address>, n: int, x: FetchedLog)
    ensures x in LogsOf(node, addresses, n) <==> OnNode(node, x) && x.number == n && x.emitter in addresses
  {
    if 0 <= n < |node.headers| {
      var h := node.headers[n].hash;
      BlockLogsExactly(node.world, n, h, |node.world.receipts(h)|, addresses, x);
    }
  }

  function PerBlock(node: Node, addresses: set<Address>): int -> seq<FetchedLog> {
    n => LogsOf(node, addresses, n)
  }

  lemma {:induction false} WholeExactly(node: Node, addresses: set<Address>, from: int, through: int, x: FetchedLog)
    ensures x in Whole(PerBlock(node, addresses), from, through) <==>
            OnNode(node, x) && from <= x.number <= through && x.emitter in addresses
    decreases through - from
  {
    if from <= through {
      WholeExactly(node, addresses, from, through - 1, x);
      LogsOfExactly(node, addresses, through, x);
    }
  }

  ghost predicate HonestRpc(node: Node, rpc: Rpc) {
    && (forall a, b, addresses :: 0 <= a <= b && rpc.getLogs(a, b, addresses).Items? ==>
          multiset(rpc.getLogs(a, b, addresses).items) == multiset(Whole(PerBlock(node, addresses), a, b)))
    && (forall a, n: nat :: n < |node.headers| && rpc.codeAt(a, n).Code? ==>
          rpc.codeAt(a, n).present == node.world.hasCode(a, node.headers[n].hash))
  }

  /** A node that answers whatever is asked of it, if only the range is narrow enough. */
  ghost predicate Obliging(rpc: Rpc) {
    && (forall a, b, addresses :: 0 <= a <= b ==> !rpc.getLogs(a, b, addresses).Refused?)
    && (forall a, addresses :: 0 <= a ==> rpc.getLogs(a, a, addresses).Items?)
    && (forall a, n :: !rpc.codeAt(a, n).ReadFailed?)
  }

  lemma AnswerExactly(node: Node, rpc: Rpc, addresses: set<Address>, from: int, through: int, x: FetchedLog)
    requires HonestRpc(node, rpc) && 0 <= from <= through && rpc.getLogs(from, through, addresses).Items?
    ensures x in rpc.getLogs(from, through, addresses).items <==>
            OnNode(node, x) && from <= x.number <= through && x.emitter in addresses
  {
    WholeExactly(node, addresses, from, through, x);
    assert x in multiset(rpc.getLogs(from, through, addresses).items) <==> x in multiset(Whole(PerBlock(node, addresses), from, through));
  }

  /** A transaction is on the chain once, and a receipt is told from the others of its block by its hash. */
  ghost predicate TransactionsOnce(node: Node) {
    && (forall x, y :: OnNode(node, x) && OnNode(node, y) && x.transactionHash == y.transactionHash ==> x.number == y.number)
    && (forall h, i, j :: 0 <= i < j < |node.world.receipts(h)| ==>
          node.world.receipts(h)[i].txHash != node.world.receipts(h)[j].txHash)
  }

  /** Code stays, and a contract emits nothing before it is there. */
  ghost predicate CodeStays(node: Node, a: Address) {
    forall m, n :: 0 <= m <= n < |node.headers| && node.world.hasCode(a, node.headers[m].hash) ==>
      node.world.hasCode(a, node.headers[n].hash)
  }

  ghost predicate QuietWithoutCode(node: Node, a: Address) {
    forall n, i :: 0 <= n < |node.headers| && Emits(node.world, a, node.headers[n].hash, i) ==>
      node.world.hasCode(a, node.headers[n].hash)
  }
}
