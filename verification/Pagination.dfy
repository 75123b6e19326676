/** Keyset pagination over rows in descending order of position, and collecting pages up to a target. */
module Pagination {
  import opened Records

  /** Where a row stands; no two rows share a position. */
  datatype EventPosition = EventPosition(block: nat, logIndex: nat, txHash: Hash)

  datatype Row = Row(position: EventPosition, data: Json)

  predicate Below(p: EventPosition, q: EventPosition) {
    || p.block < q.block
    || (p.block == q.block && p.logIndex < q.logIndex)
    || (p.block == q.block && p.logIndex == q.logIndex && p.txHash < q.txHash)
  }

  lemma BelowIsOrder(p: EventPosition, q: EventPosition, r: EventPosition)
    ensures !Below(p, p)
    ensures Below(p, q) && Below(q, r) ==> Below(p, r)
    ensures p == q || Below(p, q) || Below(q, p)
  {
  }

  /** Newest first, each position once. */
  predicate Descending(rows: seq<Row>) {
    forall i, j :: 0 <= i < j < |rows| ==> Below(rows[j].position, rows[i].position)
  }

  // ---------------------------------------------------------------- the server

  datatype Scope = Scope(chainId: nat, domain: nat, identity: nat)

  datatype Head = Head(blockNumber: nat, blockHash: Hash)

  datatype Cursor = Cursor(scope: Scope, asOf: Head, position: EventPosition)

  datatype ApiError = InvalidCursor | CursorMismatch | StateChanged

  datatype Page = Page(items: seq<Row>, hasMore: bool, next: Option<Cursor>)

  const MAX_LOG_INDEX := 2_147_483_647
  const MAX_HASH: Hash := 0xffff_ffff_ffff_ffff_ffff_ffff_ffff_ffff_ffff_ffff_ffff_ffff_ffff_ffff_ffff_ffff
  const MAX_LIMIT := 250
  const DEFAULT_LIMIT := 100

  function Limit(requested: Option<int>): (limit: nat)
    ensures 1 <= limit <= MAX_LIMIT
  {
    Min(Max(if requested.Some? then requested.value else DEFAULT_LIMIT, 1), MAX_LIMIT)
  }

  /** The position that a request continues after. */
  function Continue(scope: Scope, asOf: Head, cursor: Option<Cursor>): Result<EventPosition, ApiError> {
    if cursor.None? then Success(EventPosition(asOf.blockNumber, MAX_LOG_INDEX, MAX_HASH))
    else if cursor.value.position.block > cursor.value.asOf.blockNumber then Failure(InvalidCursor)
    else if cursor.value.scope != scope then Failure(CursorMismatch)
    else if cursor.value.asOf != asOf then Failure(StateChanged)
    else Success(cursor.value.position)
  }

  /** The rows below a position, in order. */
  function RowsBelow(rows: seq<Row>, position: EventPosition): seq<Row> {
    if rows == [] then []
    else if Below(rows[0].position, position) then [rows[0]] + RowsBelow(rows[1..], position)
    else RowsBelow(rows[1..], position)
  }

  function Paged(found: seq<Row>, limit: nat, scope: Scope, asOf: Head): Page {
    var hasMore := |found| > limit;
    var items := if hasMore then found[..limit] else found;
    Page(items, hasMore, if hasMore && items != [] then Some(Cursor(scope, asOf, items[|items| - 1].position)) else None)
  }

  /** One request: one row more than the limit is read, to know whether there is more. */
  function Fetch(rows: seq<Row>, scope: Scope, asOf: Head, cursor: Option<Cursor>, requestedLimit: Option<int>): Result<Page, ApiError> {
    match Continue(scope, asOf, cursor)
    case Failure(e) => Failure(e)
    case Success(position) =>
      var limit := Limit(requestedLimit);
      var below := RowsBelow(rows, position);
      Success(Paged(FirstRows(below, limit + 1), limit, scope, asOf))
  }

  function FirstRows(rows: seq<Row>, count: nat): seq<Row> {
    if |rows| > count then rows[..count] else rows
  }

  lemma {:induction false} AllBelow(rows: seq<Row>, position: EventPosition)
    requires forall i :: 0 <= i < |rows| ==> Below(rows[i].position, position)
    ensures RowsBelow(rows, position) == rows
  {
    if rows != [] {
      AllBelow(rows[1..], position);
    }
  }

  /** Below one of the rows come exactly those after it. */
  lemma {:induction false} BelowRow(rows: seq<Row>, i: nat)
    requires Descending(rows) && i < |rows|
    ensures RowsBelow(rows, rows[i].position) == rows[i + 1..]
  {
    if i == 0 {
      assert RowsBelow(rows, rows[0].position) == RowsBelow(rows[1..], rows[0].position);
      AllBelow(rows[1..], rows[0].position);
    } else {
      BelowRow(rows[1..], i - 1);
      assert rows[1..][i - 1] == rows[i] && rows[1..][i..] == rows[i + 1..];
      assert Below(rows[i].position, rows[0].position);
      BelowIsOrder(rows[0].position, rows[i].position, rows[0].position);
    }
  }

  /** The rows are those of the indexed state: none is newer than the head, and none sits on the
      position that a first request starts from. */
  predicate Indexed(rows: seq<Row>, asOf: Head) {
    Descending(rows) && forall i :: 0 <= i < |rows| ==> Below(rows[i].position, Start(asOf))
  }

  /** The highest position that block, log index and hash leave room for. */
  function Start(asOf: Head): EventPosition {
    EventPosition(asOf.blockNumber, 2_147_483_647, 0xffff_ffff_ffff_ffff_ffff_ffff_ffff_ffff_ffff_ffff_ffff_ffff_ffff_ffff_ffff_ffff)
  }

  /** `cursor` continues right after the first `n` rows. */
  predicate Follows(rows: seq<Row>, scope: Scope, asOf: Head, cursor: Option<Cursor>, n: nat) {
    if n == 0 then cursor.None? else n <= |rows| && cursor == Some(Cursor(scope, asOf, rows[n - 1].position))
  }

  /** The page holds the rows from `n` on, as many as the limit allows, and its cursor continues right
      after them; there is no cursor exactly when nothing follows. */
  predicate IsNextPage(rows: seq<Row>, scope: Scope, asOf: Head, n: nat, limit: nat, page: Page)
    requires n <= |rows|
  {
    var end := if n + limit < |rows| then n + limit else |rows|;
    && page.items == rows[n..end]
    && (page.next.None? <==> end == |rows|)
    && (page.hasMore <==> end < |rows|)
    && (page.next.Some? ==> Follows(rows, scope, asOf, page.next, end) && end > n)
  }

  lemma ContinuesAfter(rows: seq<Row>, scope: Scope, asOf: Head, cursor: Option<Cursor>, n: nat)
    requires Indexed(rows, asOf) && Follows(rows, scope, asOf, cursor, n) && n <= |rows|
    ensures var position := Continue(scope, asOf, cursor);
            position.Success? && RowsBelow(rows, position.value) == rows[n..]
  {
    if n == 0 {
      AllBelow(rows, EventPosition(asOf.blockNumber, MAX_LOG_INDEX, MAX_HASH));
    } else {
      BelowRow(rows, n - 1);
      assert Below(rows[n - 1].position, EventPosition(asOf.blockNumber, MAX_LOG_INDEX, MAX_HASH));
    }
  }

  lemma PagedIsNext(rows: seq<Row>, scope: Scope, asOf: Head, n: nat, limit: nat)
    requires n <= |rows| && limit >= 1
    ensures IsNextPage(rows, scope, asOf, n, limit, Paged(FirstRows(rows[n..], limit + 1), limit, scope, asOf))
  {
  }

  /** What is asked for is what is given, between 1 and 250, and 100 if nothing is asked for. */
  predicate Grants(requested: Option<int>, limit: nat) {
    match requested
    case None => limit == 100
    case Some(l) => if l < 1 then limit == 1 else if l > 250 then limit == 250 else limit == l
  }

  lemma PageFollows(rows: seq<Row>, scope: Scope, asOf: Head, cursor: Option<Cursor>, n: nat, requestedLimit: Option<int>, limit: nat)
    requires Indexed(rows, asOf) && Follows(rows, scope, asOf, cursor, n) && n <= |rows| && Grants(requestedLimit, limit)
    ensures var page := Fetch(rows, scope, asOf, cursor, requestedLimit);
            page.Success? && IsNextPage(rows, scope, asOf, n, limit, page.value)
  {
    ContinuesAfter(rows, scope, asOf, cursor, n);
    PagedIsNext(rows, scope, asOf, n, limit);
  }

  lemma LimitIsGranted(requested: Option<int>)
    ensures Grants(requested, Limit(requested))
  {
  }

  /** The first `n` rows are not below the position, the others are. */
  predicate Splits(rows: seq<Row>, position: EventPosition, n: nat) {
    && n <= |rows|
    && (forall i :: 0 <= i < n ==> !Below(rows[i].position, position))
    && (forall i :: n <= i < |rows| ==> Below(rows[i].position, position))
  }

  /** Every position splits the rows. */
  lemma {:induction false} SplitExists(rows: seq<Row>, position: EventPosition) returns (n: nat)
    requires Descending(rows)
    ensures Splits(rows, position, n)
  {
    if rows == [] || Below(rows[0].position, position) {
      n := 0;
      forall i | 0 <= i < |rows|
        ensures Below(rows[i].position, position)
      {
        if i > 0 {
          BelowIsOrder(rows[i].position, rows[0].position, position);
        }
      }
    } else {
      n := SplitExists(rows[1..], position);
      n := n + 1;
      assert forall i :: 1 <= i < |rows| ==> rows[i] == rows[1..][i - 1];
    }
  }

  lemma {:induction false} BelowAreRest(rows: seq<Row>, position: EventPosition, n: nat)
    requires Splits(rows, position, n)
    ensures RowsBelow(rows, position) == rows[n..]
  {
    if n == 0 {
      AllBelow(rows, position);
    } else {
      BelowAreRest(rows[1..], position, n - 1);
    }
  }

  /** A cursor from anywhere, not only one that was issued: malformed, for another entity, from another
      head, or honoured, and then the page holds the first rows below it. */
  lemma AnyCursor(rows: seq<Row>, scope: Scope, asOf: Head, cursor: Cursor, n: nat, requestedLimit: Option<int>, limit: nat)
    requires Splits(rows, cursor.position, n) && Grants(requestedLimit, limit)
    ensures var page := Fetch(rows, scope, asOf, Some(cursor), requestedLimit);
            if cursor.position.block > cursor.asOf.blockNumber then page == Failure(InvalidCursor)
            else if cursor.scope != scope then page == Failure(CursorMismatch)
            else if cursor.asOf != asOf then page == Failure(StateChanged)
            else page.Success? && IsNextPage(rows, scope, asOf, n, limit, page.value)
  {
    BelowAreRest(rows, cursor.position, n);
    PagedIsNext(rows, scope, asOf, n, limit);
  }

  /** Whether a cursor that was issued for a row is honoured. */
  lemma IssuedCursorHonoured(rows: seq<Row>, scope: Scope, asOf: Head, issuedFor: Scope, issuedAt: Head, position: EventPosition, limit: Option<int>)
    requires position.block <= issuedAt.blockNumber
    ensures var page := Fetch(rows, scope, asOf, Some(Cursor(issuedFor, issuedAt, position)), limit);
            && (page.Success? <==> scope == issuedFor && asOf == issuedAt)
            && (page.Failure? ==> page.error == if scope != issuedFor then CursorMismatch else StateChanged)
  {
  }

  lemma PagesJoin(rows: seq<Row>, scope: Scope, asOf: Head, n: nat, first: Page, firstLimit: nat, second: Page, secondLimit: nat)
    requires n <= |rows| && IsNextPage(rows, scope, asOf, n, firstLimit, first) && first.next.Some? && secondLimit >= 1
    requires n + |first.items| <= |rows| && IsNextPage(rows, scope, asOf, n + |first.items|, secondLimit, second)
    ensures GoesOn(rows, n, first, second)
  {
  }

  /** The second page holds the rows right after those of the first. */
  ghost predicate GoesOn(rows: seq<Row>, n: nat, first: Page, second: Page) {
    && second.items != [] && n + |first.items| + |second.items| <= |rows|
    && first.items + second.items == rows[n..n + |first.items| + |second.items|]
  }

  /** The cursor of a page is that of its last row. */
  lemma PageCursor(rows: seq<Row>, scope: Scope, asOf: Head, n: nat, limit: nat, page: Page)
    requires n <= |rows| && Indexed(rows, asOf) && IsNextPage(rows, scope, asOf, n, limit, page) && page.next.Some?
    ensures n + |page.items| <= |rows| && page.items != []
    ensures Follows(rows, scope, asOf, page.next, n + |page.items|)
    ensures page.next == Some(Cursor(scope, asOf, rows[n + |page.items| - 1].position))
    ensures rows[n + |page.items| - 1].position.block <= asOf.blockNumber
  {
    var last := rows[n + |page.items| - 1];
    assert Below(last.position, EventPosition(asOf.blockNumber, MAX_LOG_INDEX, MAX_HASH));
  }

  /** Two requests in a row, between which the indexed state may have changed: `rows'` are the rows of
      the second request's entity at its head. The cursor that the first page came with is honoured
      exactly if the entity is the same and the head has stayed, and the second page then goes on where
      the first left off; otherwise the error says which it was: no issued cursor counts as malformed. */
  lemma IssuedCursorContinues(rows: seq<Row>, scope: Scope, asOf: Head, cursor: Option<Cursor>, n: nat, firstLimit: Option<int>,
                              rows': seq<Row>, scope': Scope, asOf': Head, secondLimit: Option<int>)
    requires Indexed(rows, asOf) && Follows(rows, scope, asOf, cursor, n) && n <= |rows|
    requires scope' == scope && asOf' == asOf ==> rows' == rows
    ensures Fetch(rows, scope, asOf, cursor, firstLimit).Success?
    ensures var first := Fetch(rows, scope, asOf, cursor, firstLimit).value;
            first.next.Some? ==>
              var second := Fetch(rows', scope', asOf', first.next, secondLimit);
              && (second.Success? <==> scope' == scope && asOf' == asOf)
              && (second.Success? ==> GoesOn(rows, n, first, second.value))
              && (second.Failure? ==> second.error == if scope' != scope then CursorMismatch else StateChanged)
  {
    LimitIsGranted(firstLimit);
    PageFollows(rows, scope, asOf, cursor, n, firstLimit, Limit(firstLimit));
    var first := Fetch(rows, scope, asOf, cursor, firstLimit).value;
    if first.next.Some? {
      PageCursor(rows, scope, asOf, n, Limit(firstLimit), first);
      IssuedCursorHonoured(rows', scope', asOf', scope, asOf, first.next.value.position, secondLimit);
      if scope' == scope && asOf' == asOf {
        SecondPage(rows, scope, asOf, n, first, Limit(firstLimit), secondLimit);
      }
    }
  }

  lemma SecondPage(rows: seq<Row>, scope: Scope, asOf: Head, n: nat, first: Page, limit: nat, secondLimit: Option<int>)
    requires Indexed(rows, asOf) && n <= |rows| && IsNextPage(rows, scope, asOf, n, limit, first) && first.next.Some?
    ensures Fetch(rows, scope, asOf, first.next, secondLimit).Success?
    ensures GoesOn(rows, n, first, Fetch(rows, scope, asOf, first.next, secondLimit).value)
  {
    PageCursor(rows, scope, asOf, n, limit, first);
    LimitIsGranted(secondLimit);
    PageFollows(rows, scope, asOf, first.next, n + |first.items|, secondLimit, Limit(secondLimit));
    PagesJoin(rows, scope, asOf, n, first, limit, Fetch(rows, scope, asOf, first.next, secondLimit).value, Limit(secondLimit));
  }

  /** Following the cursors, whatever limits are asked for, goes through all rows in order, each once. */
  method FollowAll(rows: seq<Row>, scope: Scope, asOf: Head, limits: nat -> Option<int>) returns (all: seq<Row>)
    requires Indexed(rows, asOf)
    ensures all == rows
  {
    all := [];
    var cursor: Option<Cursor> := None;
    var pages := 0;
    while true
      invariant |all| <= |rows| && all == rows[..|all|]
      invariant Follows(rows, scope, asOf, cursor, |all|)
      decreases |rows| - |all|
    {
      LimitIsGranted(limits(pages));
      PageFollows(rows, scope, asOf, cursor, |all|, limits(pages), Limit(limits(pages)));
      var page := Fetch(rows, scope, asOf, cursor, limits(pages)).value;
      all := all + page.items;
      cursor := page.next;
      pages := pages + 1;
      if cursor.None? {
        return;
      }
    }
  }

  // ---------------------------------------------------------------- the browser

  predicate HasKey(rows: seq<Row>, p: EventPosition) {
    exists i :: 0 <= i < |rows| && rows[i].position == p
  }

  /** Keeps the first record of each key. */
  function Unique(rows: seq<Row>): seq<Row> {
    if rows == [] then []
    else
      var front, last := Unique(rows[..|rows| - 1]), rows[|rows| - 1];
      if HasKey(rows[..|rows| - 1], last.position) then front else front + [last]
  }

  function MergeUniqueRecords(primary: seq<Row>, retained: seq<Row>): seq<Row> {
    Unique(primary + retained)
  }

  predicate EachKeyOnce(rows: seq<Row>) {
    forall i, j :: 0 <= i < j < |rows| ==> rows[i].position != rows[j].position
  }

  lemma OneMoreKey(front: seq<Row>, last: Row, p: EventPosition)
    ensures HasKey(front + [last], p) <==> HasKey(front, p) || last.position == p
  {
    var more := front + [last];
    assert forall i :: 0 <= i < |front| ==> more[i] == front[i];
    assert more[|front|] == last;
    if HasKey(front, p) {
      var i :| 0 <= i < |front| && front[i].position == p;
      assert more[i].position == p;
    }
  }

  lemma {:induction false} UniqueHasKey(rows: seq<Row>, p: EventPosition)
    ensures HasKey(Unique(rows), p) <==> HasKey(rows, p)
  {
    if rows != [] {
      var front, last := rows[..|rows| - 1], rows[|rows| - 1];
      assert rows == front + [last];
      UniqueHasKey(front, p);
      OneMoreKey(front, last, p);
      OneMoreKey(Unique(front), last, p);
    }
  }

  /** Merging leaves one record per key, loses no key, and leaves records without repeated keys alone. */
  lemma {:induction false} UniqueKeepsFirst(rows: seq<Row>, p: EventPosition)
    ensures EachKeyOnce(Unique(rows))
    ensures HasKey(Unique(rows), p) <==> HasKey(rows, p)
    ensures EachKeyOnce(rows) ==> Unique(rows) == rows
  {
    UniqueHasKey(rows, p);
    if rows != [] {
      var front, last := rows[..|rows| - 1], rows[|rows| - 1];
      assert rows == front + [last];
      UniqueKeepsFirst(front, p);
      UniqueHasKey(front, last.position);
      if HasKey(front, last.position) {
        var i :| 0 <= i < |front| && front[i].position == last.position;
        assert rows[i] == front[i] && rows[|front|] == last;
      } else {
        forall i | 0 <= i < |Unique(front)|
          ensures Unique(front)[i].position != last.position
        {
        }
      }
    }
  }

  /** Where a key occurs first. */
  predicate FirstAt(rows: seq<Row>, p: EventPosition, i: int) {
    0 <= i < |rows| && rows[i].position == p && forall j :: 0 <= j < i ==> rows[j].position != p
  }

  lemma FirstStays(front: seq<Row>, last: Row, p: EventPosition, i: nat)
    requires FirstAt(front, p, i)
    ensures FirstAt(front + [last], p, i) && (front + [last])[i] == front[i]
  {
    assert forall j :: 0 <= j < |front| ==> (front + [last])[j] == front[j];
  }

  /** Of the records with the same key the first one is kept. */
  lemma {:induction false} FirstIsKept(rows: seq<Row>, k: nat) returns (i: nat)
    requires k < |Unique(rows)|
    ensures FirstAt(rows, Unique(rows)[k].position, i) && rows[i] == Unique(rows)[k]
  {
    var front, last := rows[..|rows| - 1], rows[|rows| - 1];
    assert rows == front + [last];
    if k < |Unique(front)| {
      i := FirstIsKept(front, k);
      FirstStays(front, last, Unique(front)[k].position, i);
    } else {
      i := |front|;
      assert forall j :: 0 <= j < |front| ==> rows[j] == front[j] && front[j].position != last.position;
    }
  }

  /** And those kept are in the order they came in. */
  lemma {:induction false} KeptInOrder(rows: seq<Row>, k: nat, l: nat) returns (i: nat, j: nat)
    requires k < l < |Unique(rows)|
    ensures FirstAt(rows, Unique(rows)[k].position, i) && FirstAt(rows, Unique(rows)[l].position, j) && i < j
  {
    var front, last := rows[..|rows| - 1], rows[|rows| - 1];
    assert rows == front + [last];
    if l < |Unique(front)| {
      i, j := KeptInOrder(front, k, l);
      FirstStays(front, last, Unique(front)[k].position, i);
      FirstStays(front, last, Unique(front)[l].position, j);
    } else {
      i := FirstIsKept(front, k);
      FirstStays(front, last, Unique(front)[k].position, i);
      j := FirstIsKept(rows, l);
      assert !HasKey(front, last.position);
      assert rows[j] == last && forall m :: 0 <= m < |front| ==> rows[m] == front[m];
    }
  }

  function CanonicalPageLimit(targetCount: nat, loadedCount: nat, pageSize: nat): int {
    if targetCount > loadedCount then Min(pageSize, targetCount - loadedCount) else pageSize
  }

  /** How many rows there are once one more page has been collected. */
  function Collected(rows: seq<Row>, targetCount: nat, loaded: nat): int {
    Min(loaded + if targetCount > 0 then Min(100, targetCount - loaded) else 100, |rows|)
  }

  /** Asks for one more page, and not for more than is still missing. */
  method CollectPage(rows: seq<Row>, scope: Scope, asOf: Head, targetCount: nat, items: seq<Row>, cursor: Option<Cursor>)
    returns (items': seq<Row>, next: Option<Cursor>, ghost asked: Option<int>)
    requires Indexed(rows, asOf) && |items| <= |rows| && items == rows[..|items|] && Follows(rows, scope, asOf, cursor, |items|)
    requires if targetCount > 0 then |items| < targetCount else items == []
    ensures asked == if targetCount > 0 then Some(Min(100, targetCount - |items|)) else None
    ensures var n := Collected(rows, targetCount, |items|);
            n >= |items| && items' == rows[..n] && (next.None? <==> n == |rows|) && (next.Some? ==> Follows(rows, scope, asOf, next, n) && n > |items|)
  {
    var remaining := if targetCount > 0 then Some(CanonicalPageLimit(targetCount, |items|, 100)) else None;
    LimitIsGranted(remaining);
    PageFollows(rows, scope, asOf, cursor, |items|, remaining, Limit(remaining));
    var page := Fetch(rows, scope, asOf, cursor, remaining).value;
    NextMerges(rows, scope, asOf, |items|, Limit(remaining), page);
    items', next, asked := MergeUniqueRecords(items, page.items), page.next, remaining;
  }

  /** The first rows up to the target, or the first page without one; and the cursor continues right
      after them, being absent exactly when they are all there are. */
  method CollectCanonicalPages(rows: seq<Row>, scope: Scope, asOf: Head, targetCount: nat)
    returns (items: seq<Row>, next: Option<Cursor>, ghost asked: seq<Option<int>>)
    requires Indexed(rows, asOf)
    ensures var n := Min(if targetCount > 0 then targetCount else 100, |rows|);
            && items == rows[..n]
            && (next.None? <==> n == |rows|)
            && (next.Some? ==> Follows(rows, scope, asOf, next, n))
    ensures targetCount == 0 ==> asked == [None]
    ensures targetCount > 0 ==> forall k :: 0 <= k < |asked| ==> asked[k] == Some(Min(100, targetCount - 100 * k))
    ensures targetCount > 0 ==> |asked| > 0 && 100 * (|asked| - 1) < targetCount
  {
    next, items, asked := None, [], [];
    while true
      invariant |items| <= |rows| && items == rows[..|items|]
      invariant Follows(rows, scope, asOf, next, |items|)
      invariant if targetCount > 0 then |items| == 100 * |asked| < targetCount else items == [] && asked == []
      invariant targetCount > 0 ==> forall k :: 0 <= k < |asked| ==> asked[k] == Some(Min(100, targetCount - 100 * k))
      decreases |rows| - |items|
    {
      ghost var one: Option<int>;
      items, next, one := CollectPage(rows, scope, asOf, targetCount, items, next);
      asked := asked + [one];
      if next.None? || |items| >= targetCount {
        break;
      }
    }
    items := if targetCount > 0 then FirstRows(items, targetCount) else items;
  }

  lemma NextMerges(rows: seq<Row>, scope: Scope, asOf: Head, n: nat, limit: nat, page: Page)
    requires Descending(rows) && n <= |rows| && IsNextPage(rows, scope, asOf, n, limit, page)
    ensures MergeUniqueRecords(rows[..n], page.items) == rows[..n + |page.items|]
  {
    PrefixIsUnique(rows, n + |page.items|);
    assert rows[..n] + page.items == rows[..n + |page.items|];
  }

  lemma PrefixIsUnique(rows: seq<Row>, n: nat)
    requires Descending(rows) && n <= |rows|
    ensures Unique(rows[..n]) == rows[..n]
  {
    forall i, j | 0 <= i < j < n
      ensures rows[..n][i].position != rows[..n][j].position
    {
      BelowIsOrder(rows[j].position, rows[i].position, rows[i].position);
    }
    UniqueKeepsFirst(rows[..n], EventPosition(0, 0, 0));
  }
}
