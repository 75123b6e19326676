/** Scanning a range of blocks for logs in pieces the node is willing to serve, and searching for
    the first block at which something is there. */
module LogScan {
  import opened Records

  // ---------------------------------------------------------------- adaptive ranges

  datatype Answer<T> = Items(items: seq<T>) | TooWide | Refused

  datatype Segment<T> = Segment(fromBlock: int, toBlock: int, items: seq<T>)

  datatype ScanError = EmptyRange | QueryFailed

  /** Why a range scan fails: some query is refused for good, or a single block is refused. */
  predicate Stuck<T(!new)>(query: (int, int) -> Answer<T>, from: int, to: int) {
    exists toBlock :: from <= toBlock <= to
      && (query(from, toBlock).Refused? || (toBlock == from && query(from, from).TooWide?))
  }

  /** The longest prefix of the range that halving arrives at; the node answers for it. */
  method QueryAdaptiveLogRange<T(!new)>(fromBlock: int, maximumToBlock: int, maximumBlockCount: nat, query: (int, int) -> Answer<T>)
    returns (result: Result<Segment<T>, ScanError>)
    requires maximumBlockCount > 0
    ensures result.Failure? && result.error.EmptyRange? <==> fromBlock > maximumToBlock
    ensures result.Success? ==>
      var s := result.value;
      && s.fromBlock == fromBlock <= s.toBlock <= Min(maximumToBlock, fromBlock + maximumBlockCount - 1)
      && query(s.fromBlock, s.toBlock) == Items(s.items)
    ensures fromBlock <= maximumToBlock && query(fromBlock, Min(maximumToBlock, fromBlock + maximumBlockCount - 1)).Items? ==>
      result.Success? && result.value.toBlock == Min(maximumToBlock, fromBlock + maximumBlockCount - 1)
    ensures result.Failure? && result.error.QueryFailed? ==> Stuck(query, fromBlock, maximumToBlock)
  {
    if fromBlock > maximumToBlock {
      return Failure(EmptyRange);
    }
    var blockCount := Min(maximumToBlock - fromBlock + 1, maximumBlockCount);
    while true
      invariant 1 <= blockCount <= Min(maximumToBlock - fromBlock + 1, maximumBlockCount)
      invariant blockCount < Min(maximumToBlock - fromBlock + 1, maximumBlockCount) ==>
        !query(fromBlock, Min(maximumToBlock, fromBlock + maximumBlockCount - 1)).Items?
      decreases blockCount
    {
      var toBlock := fromBlock + blockCount - 1;
      var answer := query(fromBlock, toBlock);
      if answer.Items? {
        return Success(Segment(fromBlock, toBlock, answer.items));
      }
      if blockCount == 1 || answer.Refused? {
        return Failure(QueryFailed);
      }
      blockCount := (blockCount + 1) / 2;
    }
  }

  /** What the blocks of a range hold, one block after the other. */
  function Whole<T(!new)>(block: int -> seq<T>, from: int, to: int): seq<T>
    decreases (to - from)
  {
    if from > to then [] else Whole(block, from, to - 1) + block(to)
  }

  lemma {:induction false} WholeSplits<T(!new)>(block: int -> seq<T>, from: int, middle: int, to: int)
    requires from <= middle <= to
    ensures Whole(block, from, to) == Whole(block, from, middle) + Whole(block, middle + 1, to)
    decreases (to - middle)
  {
    if middle < to {
      WholeSplits(block, from, middle, to - 1);
    }
  }

  /** A query the node answers holds exactly what its blocks hold, in some order. */
  ghost predicate Honest<T(!new)>(query: (int, int) -> Answer<T>, block: int -> seq<T>) {
    forall a, b :: a <= b && query(a, b).Items? ==> multiset(query(a, b).items) == multiset(Whole(block, a, b))
  }

  /** The segments cover the range from one end to the other, each starting where the last one ended. */
  ghost predicate Tiles<T>(segments: seq<Segment<T>>, from: int, to: int) {
    if segments == [] then from == to + 1
    else
      var last := segments[|segments| - 1];
      last.toBlock == to && from <= last.fromBlock <= to && Tiles(segments[..|segments| - 1], from, last.fromBlock - 1)
  }

  ghost function Concatenated<T>(segments: seq<Segment<T>>): seq<T> {
    if segments == [] then [] else Concatenated(segments[..|segments| - 1]) + segments[|segments| - 1].items
  }

  ghost predicate Answered<T(!new)>(query: (int, int) -> Answer<T>, segments: seq<Segment<T>>) {
    forall i :: 0 <= i < |segments| ==> query(segments[i].fromBlock, segments[i].toBlock) == Items(segments[i].items)
  }

  lemma {:induction false} TiledIsWhole<T(!new)>(query: (int, int) -> Answer<T>, block: int -> seq<T>, segments: seq<Segment<T>>, from: int, to: int)
    requires Honest(query, block) && Answered(query, segments) && Tiles(segments, from, to)
    ensures multiset(Concatenated(segments)) == multiset(Whole(block, from, to))
  {
    if segments != [] {
      var front, last := segments[..|segments| - 1], segments[|segments| - 1];
      TiledIsWhole(query, block, front, from, last.fromBlock - 1);
      if from < last.fromBlock {
        WholeSplits(block, from, last.fromBlock - 1, to);
      }
    }
  }

  /** With queries that find the right logs, duplicates aside, a tiling finds those of the range. */
  lemma {:induction false} TiledFindsAll<T(!new)>(query: (int, int) -> Answer<T>, wanted: (int, T) -> bool,
                                                  segments: seq<Segment<T>>, from: int, to: int, x: T)
    requires Answered(query, segments) && Tiles(segments, from, to)
    requires forall a, b :: from <= a <= b <= to && query(a, b).Items? ==>
               (x in query(a, b).items <==> exists n :: a <= n <= b && wanted(n, x))
    ensures x in Concatenated(segments) <==> exists n :: from <= n <= to && wanted(n, x)
  {
    if segments != [] {
      var front, last := segments[..|segments| - 1], segments[|segments| - 1];
      TiledFindsAll(query, wanted, front, from, last.fromBlock - 1, x);
      assert query(last.fromBlock, last.toBlock) == Items(last.items);
    }
  }

  /** The range has been scanned in answered segments, and their logs are these. */
  ghost predicate Scanned<T(!new)>(query: (int, int) -> Answer<T>, segments: seq<Segment<T>>, from: int, to: int, logs: seq<T>) {
    Tiles(segments, from, to) && Answered(query, segments) && logs == Concatenated(segments)
  }

  lemma NothingScanned<T(!new)>(query: (int, int) -> Answer<T>, from: int)
    ensures Scanned(query, [], from, from - 1, [])
  {
  }

  lemma OneMoreSegment<T(!new)>(query: (int, int) -> Answer<T>, segments: seq<Segment<T>>, from: int, logs: seq<T>, next: Segment<T>)
    requires Scanned(query, segments, from, next.fromBlock - 1, logs)
    requires from <= next.fromBlock <= next.toBlock && query(next.fromBlock, next.toBlock) == Items(next.items)
    ensures Scanned(query, segments + [next], from, next.toBlock, logs + next.items)
  {
    assert (segments + [next])[..|segments|] == segments;
  }

  /** All logs of the range, whatever widths the node is willing to serve: the answered segments tile
      the range from end to end. */
  method GetAllLogs<T(!new)>(fromBlock: int, toBlock: int, maximumBlockCount: nat, query: (int, int) -> Answer<T>)
    returns (result: Result<seq<T>, ScanError>, ghost segments: seq<Segment<T>>)
    requires maximumBlockCount > 0 && fromBlock <= toBlock + 1
    ensures result.Success? ==>
      Tiles(segments, fromBlock, toBlock) && Answered(query, segments) && result.value == Concatenated(segments)
    ensures result.Failure? ==> exists a :: fromBlock <= a <= toBlock && Stuck(query, a, toBlock)
  {
    var logs := [];
    var cursor := fromBlock;
    segments := [];
    NothingScanned(query, fromBlock);
    while cursor <= toBlock
      invariant fromBlock <= cursor <= toBlock + 1
      invariant Scanned(query, segments, fromBlock, cursor - 1, logs)
      decreases toBlock - cursor
    {
      var next := QueryAdaptiveLogRange(cursor, toBlock, maximumBlockCount, query);
      if next.Failure? {
        return Failure(next.error), segments;
      }
      var segment := next.value;
      OneMoreSegment(query, segments, fromBlock, logs, segment);
      segments, logs, cursor := segments + [segment], logs + segment.items, segment.toBlock + 1;
    }
    result := Success(logs);
  }

  // ---------------------------------------------------------------- searching for the first block

  datatype CodeRead = Code(present: bool) | HistoricalCodeUnavailable | ReadFailed(splittable: bool)

  datatype Search = NotFound | Found(deployment: Deployment) | Unavailable | SearchFailed(splittable: bool)

  function Failed(read: CodeRead): Search
    requires !read.Code?
  {
    if read.HistoricalCodeUnavailable? then Unavailable else SearchFailed(read.splittable)
  }

  /** The boundary between absence at `lower` and presence at `upper`, by bisection. */
  function Bisection(lower: nat, upper: nat, codeAt: nat -> CodeRead): Search
    requires lower < upper
    decreases upper - lower
  {
    if lower + 1 == upper then Found(Deployment(upper, true))
    else
      var middle := lower + (upper - lower) / 2;
      if !codeAt(middle).Code? then Failed(codeAt(middle))
      else if codeAt(middle).present then Bisection(lower, middle, codeAt)
      else Bisection(middle, upper, codeAt)
  }

  function DeploymentSearch(startBlock: nat, observedHead: nat, codeAt: nat -> CodeRead, startBlockKnownAbsent: bool): Search {
    if observedHead <= startBlock then NotFound
    else if !codeAt(observedHead).Code? then Failed(codeAt(observedHead))
    else if !codeAt(observedHead).present then NotFound
    else if !startBlockKnownAbsent && !codeAt(startBlock).Code? then Failed(codeAt(startBlock))
    else if !startBlockKnownAbsent && codeAt(startBlock).present then
      if startBlock == 0 then NotFound else Found(Deployment(startBlock, false))
    else Bisection(startBlock, observedHead, codeAt)
  }

  method FindContractDeploymentBlock(startBlock: nat, observedHead: nat, codeAt: nat -> CodeRead, startBlockKnownAbsent: bool)
    returns (search: Search)
    ensures search == DeploymentSearch(startBlock, observedHead, codeAt, startBlockKnownAbsent)
  {
    if observedHead <= startBlock {
      return NotFound;
    }
    var atHead := codeAt(observedHead);
    if !atHead.Code? {
      return Failed(atHead);
    }
    if !atHead.present {
      return NotFound;
    }
    if !startBlockKnownAbsent {
      var atStart := codeAt(startBlock);
      if !atStart.Code? {
        return Failed(atStart);
      }
      if atStart.present {
        return if startBlock == 0 then NotFound else Found(Deployment(startBlock, false));
      }
    }
    var lower, upper := startBlock, observedHead;
    while lower + 1 < upper
      invariant lower < upper
      invariant Bisection(lower, upper, codeAt) == Bisection(startBlock, observedHead, codeAt)
    {
      var middle := lower + (upper - lower) / 2;
      var atMiddle := codeAt(middle);
      if !atMiddle.Code? {
        return Failed(atMiddle);
      }
      if atMiddle.present {
        upper := middle;
      } else {
        lower := middle;
      }
    }
    search := Found(Deployment(upper, true));
  }

  predicate Holds(codeAt: nat -> CodeRead, n: nat, present: bool) {
    codeAt(n) == Code(present)
  }

  lemma {:induction false} BisectionFinds(start: nat, lower: nat, upper: nat, codeAt: nat -> CodeRead)
    requires start <= lower < upper
    requires Holds(codeAt, upper, true) && (lower == start || Holds(codeAt, lower, false))
    ensures var search := Bisection(lower, upper, codeAt);
            && !search.NotFound?
            && (search.Found? ==>
                  && search.deployment.exact && lower < search.deployment.block <= upper
                  && Holds(codeAt, search.deployment.block, true)
                  && (search.deployment.block - 1 == start || Holds(codeAt, search.deployment.block - 1, false)))
    decreases upper - lower
  {
    var middle := lower + (upper - lower) / 2;
    if lower + 1 < upper && codeAt(middle).Code? {
      if codeAt(middle).present {
        BisectionFinds(start, lower, middle, codeAt);
      } else {
        BisectionFinds(start, middle, upper, codeAt);
      }
    }
  }

  /** When a search finds nothing, and what it finds otherwise: a block is only called exact if it
      holds code and the one before it is the start of the search or holds none. */
  lemma SearchFinds(startBlock: nat, observedHead: nat, codeAt: nat -> CodeRead, startBlockKnownAbsent: bool)
    ensures var search := DeploymentSearch(startBlock, observedHead, codeAt, startBlockKnownAbsent);
            && (search.NotFound? <==>
                  || observedHead <= startBlock
                  || Holds(codeAt, observedHead, false)
                  || (Holds(codeAt, observedHead, true) && startBlock == 0 && !startBlockKnownAbsent && Holds(codeAt, 0, true)))
            && (search.Found? && search.deployment.exact ==>
                  && startBlock < search.deployment.block <= observedHead
                  && Holds(codeAt, search.deployment.block, true)
                  && (search.deployment.block - 1 == startBlock || Holds(codeAt, search.deployment.block - 1, false))
                  && (startBlockKnownAbsent || Holds(codeAt, startBlock, false)))
            && (search.Found? && !search.deployment.exact ==>
                  && search.deployment.block == startBlock && 0 < startBlock < observedHead
                  && !startBlockKnownAbsent && Holds(codeAt, startBlock, true))
  {
    if startBlock < observedHead && Holds(codeAt, observedHead, true) {
      BisectionFinds(startBlock, startBlock, observedHead, codeAt);
    }
  }

  lemma {:induction false} BisectionFailsFor(lower: nat, upper: nat, codeAt: nat -> CodeRead)
    requires lower < upper
    ensures var search := Bisection(lower, upper, codeAt);
            && (search.Unavailable? ==> exists n :: lower < n < upper && codeAt(n).HistoricalCodeUnavailable?)
            && (search.SearchFailed? ==> exists n :: lower < n < upper && codeAt(n) == ReadFailed(search.splittable))
    decreases upper - lower
  {
    var middle := lower + (upper - lower) / 2;
    if lower + 1 < upper && codeAt(middle).Code? {
      if codeAt(middle).present {
        BisectionFailsFor(lower, middle, codeAt);
      } else {
        BisectionFailsFor(middle, upper, codeAt);
      }
    }
  }

  /** A search only fails for a block whose code could not be read, and then the way that read did. */
  lemma SearchFailsFor(startBlock: nat, observedHead: nat, codeAt: nat -> CodeRead, startBlockKnownAbsent: bool)
    ensures var search := DeploymentSearch(startBlock, observedHead, codeAt, startBlockKnownAbsent);
            && (search.Unavailable? ==> exists n :: startBlock <= n <= observedHead && codeAt(n).HistoricalCodeUnavailable?)
            && (search.SearchFailed? ==> exists n :: startBlock <= n <= observedHead && codeAt(n) == ReadFailed(search.splittable))
  {
    if startBlock < observedHead {
      BisectionFailsFor(startBlock, observedHead, codeAt);
    }
  }

  /** Code that stays once it is there is found at the very block where it appears, provided it is
      really absent where the search starts. */
  lemma ExactIsFirst(startBlock: nat, observedHead: nat, codeAt: nat -> CodeRead, startBlockKnownAbsent: bool, n: nat)
    requires forall m, k :: 0 <= m <= k <= observedHead && Holds(codeAt, m, true) ==> !Holds(codeAt, k, false)
    requires startBlockKnownAbsent ==> Holds(codeAt, startBlock, false)
    requires n <= observedHead && codeAt(n).Code?
    ensures var search := DeploymentSearch(startBlock, observedHead, codeAt, startBlockKnownAbsent);
            search.Found? && search.deployment.exact ==> (codeAt(n).present <==> search.deployment.block <= n)
  {
    SearchFinds(startBlock, observedHead, codeAt, startBlockKnownAbsent);
    var search := DeploymentSearch(startBlock, observedHead, codeAt, startBlockKnownAbsent);
    if search.Found? && search.deployment.exact {
      assert Holds(codeAt, n, codeAt(n).present);
      assert Holds(codeAt, search.deployment.block - 1, false);
    }
  }

  datatype LogRead = LogsAvailable | LogsPruned | LogReadFailed

  datatype Availability = AvailableFrom(block: nat) | HeadUnavailable | AvailabilityFailed | StartBeyondHead

  /** Once the node serves logs, it serves all later ones. */
  predicate StaysAvailable(logsAt: nat -> LogRead, startBlock: nat, observedHead: nat, startBlockKnownUnavailable: bool) {
    && (forall m, n :: startBlock <= m <= n <= observedHead && logsAt(m).LogsAvailable? ==> logsAt(n).LogsAvailable?)
    && (startBlockKnownUnavailable ==> !logsAt(startBlock).LogsAvailable?)
  }

  /** A block whose logs the node serves, and not those of the block before, unless the search started
      there; for a node that serves all logs from some block on, it is that block. */
  method FindEarliestAvailableLogBlock(startBlock: nat, observedHead: nat, logsAt: nat -> LogRead, startBlockKnownUnavailable: bool)
    returns (found: Availability)
    ensures found.StartBeyondHead? <==> startBlock > observedHead
    ensures found.AvailableFrom? ==>
      && startBlock <= found.block <= observedHead && logsAt(found.block).LogsAvailable?
      && (found.block == startBlock || !logsAt(found.block - 1).LogsAvailable? || (startBlockKnownUnavailable && found.block - 1 == startBlock))
    ensures found.HeadUnavailable? ==>
      logsAt(observedHead).LogsPruned? && (startBlockKnownUnavailable || logsAt(startBlock).LogsPruned?)
    ensures StaysAvailable(logsAt, startBlock, observedHead, startBlockKnownUnavailable) ==>
      && (found.AvailableFrom? ==> forall n :: startBlock <= n <= observedHead ==> (logsAt(n).LogsAvailable? <==> found.block <= n))
      && (found.HeadUnavailable? ==> forall n :: startBlock <= n <= observedHead ==> !logsAt(n).LogsAvailable?)
    ensures found.AvailabilityFailed? ==> exists n :: startBlock <= n <= observedHead && logsAt(n).LogReadFailed?
  {
    if startBlock > observedHead {
      return StartBeyondHead;
    }
    if !startBlockKnownUnavailable {
      var atStart := logsAt(startBlock);
      if atStart.LogReadFailed? {
        return AvailabilityFailed;
      }
      if atStart.LogsAvailable? {
        return AvailableFrom(startBlock);
      }
    }
    var atHead := logsAt(observedHead);
    if atHead.LogReadFailed? {
      return AvailabilityFailed;
    }
    if atHead.LogsPruned? {
      return HeadUnavailable;
    }
    var lower, upper := startBlock, observedHead;
    while lower + 1 < upper
      invariant startBlock <= lower <= upper <= observedHead
      invariant logsAt(upper).LogsAvailable?
      invariant !logsAt(lower).LogsAvailable? || (startBlockKnownUnavailable && lower == startBlock)
      invariant lower < upper || (startBlockKnownUnavailable && upper == startBlock)
    {
      var middle := lower + (upper - lower) / 2;
      var atMiddle := logsAt(middle);
      if atMiddle.LogReadFailed? {
        return AvailabilityFailed;
      }
      if atMiddle.LogsAvailable? {
        upper := middle;
      } else {
        lower := middle;
      }
    }
    found := AvailableFrom(upper);
  }
}
