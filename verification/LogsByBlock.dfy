/** The logs fetched so far, kept by block, in order, each once. */
module LogsByBlock {
  import opened Node
  import opened Queries

  type LogsByBlock = map<int, seq<FetchedLog>>

  /** Every list belongs to its block, is in order, and has each log once. */
  predicate Tidy(lists: LogsByBlock) {
    forall n :: n in lists ==> TidyList(n, lists[n])
  }

  predicate TidyList(n: int, logs: seq<FetchedLog>) {
    && Sorted(logs) && EachOnce(logs)
    && forall z :: z in logs ==> z.number == n
  }

  function At(lists: LogsByBlock, n: int): seq<FetchedLog> {
    if n in lists then lists[n] else []
  }

  /** Nothing is lost, nothing is made up, and every new log has its entry. */
  predicate Merged(target: LogsByBlock, logs: seq<FetchedLog>, merged: LogsByBlock) {
    && Tidy(merged)
    && (forall n, z :: n in target && z in target[n] ==> z in At(merged, n))
    && (forall y :: y in logs ==> Has(At(merged, y.number), y))
    && (forall n, z :: n in merged && z in merged[n] ==> z in At(target, n) || z in logs)
  }

  method MergeLogs(target: LogsByBlock, logs: seq<FetchedLog>) returns (merged: LogsByBlock)
    requires Tidy(target)
    ensures Merged(target, logs, merged)
  {
    merged := target;
    for i := 0 to |logs|
      invariant Merged(target, logs[..i], merged)
    {
      var existing := At(merged, logs[i].number);
      if !Has(existing, logs[i]) {
        MergeOne(target, logs[..i], merged, logs[i]);
        merged := merged[logs[i].number := Insert(existing, logs[i])];
      }
      assert logs[..i + 1] == logs[..i] + [logs[i]];
    }
    assert logs[..|logs|] == logs;
  }

  lemma MergeOne(target: LogsByBlock, logs: seq<FetchedLog>, merged: LogsByBlock, x: FetchedLog)
    requires Merged(target, logs, merged) && !Has(At(merged, x.number), x)
    ensures Merged(target, logs + [x], merged[x.number := Insert(At(merged, x.number), x)])
  {
    var existing := At(merged, x.number);
    var after := merged[x.number := Insert(existing, x)];
    assert TidyList(x.number, existing);
    InsertSorts(existing, x);
    forall z
      ensures z in Insert(existing, x) <==> z == x || z in existing
    {
      InsertHolds(existing, x, z);
    }
    forall y | y in logs + [x]
      ensures Has(At(after, y.number), y)
    {
      if y in logs {
        var k :| 0 <= k < |At(merged, y.number)| && SameLog(At(merged, y.number)[k], y);
        var z := At(merged, y.number)[k];
        assert z in At(after, y.number);
      } else {
        assert x in At(after, x.number);
      }
    }
  }
}
