/** The durable log of live events: appended in id order, pruned from the front, and read in windows
    after a cursor. */
module LiveEvents {
  import opened Records

  /** A log row, or the marker that tells a reader to refresh because rows it has not seen are gone. */
  datatype Event = Event(id: int, reset: bool, payload: Json)

  /** `lastId` is the last id the sequence has given out; ids of rolled back inserts are skipped. */
  datatype EventLog = EventLog(events: seq<Event>, prunedThrough: int, lastId: int)

  const EMPTY_LOG := EventLog([], 0, 0)

  predicate Ascending(es: seq<Event>) {
    forall i, j :: 0 <= i < j < |es| ==> es[i].id < es[j].id
  }

  function After(es: seq<Event>, cursor: int): seq<Event> {
    if es == [] then []
    else After(es[..|es| - 1], cursor) + if es[|es| - 1].id > cursor then [es[|es| - 1]] else []
  }

  predicate ReplayWindowExpired(cursor: int, prunedThrough: int) {
    cursor < prunedThrough
  }

  function LatestId(log: EventLog): int {
    Max(log.prunedThrough, if log.events == [] then 0 else log.events[|log.events| - 1].id)
  }

  function EventsAfter(log: EventLog, cursor: int, limit: nat): seq<Event> {
    if ReplayWindowExpired(cursor, log.prunedThrough) then [Event(LatestId(log), true, 0)]
    else
      var requested := After(log.events, cursor);
      if |requested| > limit then requested[..limit] else requested
  }

  function Append(log: EventLog, id: int, payload: Json): EventLog
    requires id > log.lastId
  {
    log.(events := log.events + [Event(id, false, payload)], lastId := id)
  }

  /** Deletes everything through one of the rows. */
  function Prune(log: EventLog, through: int): EventLog {
    log.(events := After(log.events, through), prunedThrough := Max(log.prunedThrough, through))
  }

  // ---------------------------------------------------------------- the log against all that was ever appended

  /** The rows are exactly those of everything ever appended that lie above the pruned part. */
  predicate Keeps(log: EventLog, appended: seq<Event>) {
    && Ascending(appended)
    && (forall i :: 0 <= i < |appended| ==> 0 < appended[i].id <= log.lastId && !appended[i].reset)
    && log.events == After(appended, log.prunedThrough)
    && 0 <= log.prunedThrough <= log.lastId
  }

  lemma {:induction false} AfterHolds(es: seq<Event>, cursor: int, e: Event)
    ensures e in After(es, cursor) <==> e in es && e.id > cursor
  {
    if es != [] {
      AfterHolds(es[..|es| - 1], cursor, e);
      assert es == es[..|es| - 1] + [es[|es| - 1]];
    }
  }

  lemma {:induction false} AfterAscends(es: seq<Event>, cursor: int)
    requires Ascending(es)
    ensures Ascending(After(es, cursor))
  {
    if es != [] {
      var front, last := es[..|es| - 1], es[|es| - 1];
      AfterAscends(front, cursor);
      forall i | 0 <= i < |After(front, cursor)|
        ensures After(front, cursor)[i].id < last.id
      {
        AfterHolds(front, cursor, After(front, cursor)[i]);
      }
    }
  }

  lemma {:induction false} AfterTwice(es: seq<Event>, low: int, high: int)
    requires low <= high
    ensures After(After(es, low), high) == After(es, high)
  {
    if es != [] {
      var front, last := es[..|es| - 1], es[|es| - 1];
      AfterTwice(front, low, high);
      if last.id > low {
        assert (After(front, low) + [last])[..|After(front, low)|] == After(front, low);
      } else {
        assert After(es, low) == After(front, low);
      }
    }
  }

  lemma AppendKeeps(log: EventLog, appended: seq<Event>, id: int, payload: Json)
    requires Keeps(log, appended) && id > log.lastId
    ensures Keeps(Append(log, id, payload), appended + [Event(id, false, payload)])
  {
  }

  lemma PruneKeeps(log: EventLog, appended: seq<Event>, through: int)
    requires Keeps(log, appended) && through <= log.lastId
    ensures Keeps(Prune(log, through), appended)
  {
    if log.prunedThrough <= through {
      AfterTwice(appended, log.prunedThrough, through);
    } else {
      AllAfter(log.events, appended, log.prunedThrough, through);
    }
  }

  lemma AllAfter(events: seq<Event>, appended: seq<Event>, pruned: int, through: int)
    requires events == After(appended, pruned) && through < pruned
    ensures After(events, through) == events
  {
  }

  lemma {:induction false} NothingDropped(es: seq<Event>, cursor: int)
    requires forall i :: 0 <= i < |es| ==> es[i].id > cursor
    ensures After(es, cursor) == es
  {
    if es != [] {
      NothingDropped(es[..|es| - 1], cursor);
    }
  }

  // ---------------------------------------------------------------- windows

  /** What was read after `cursor` leaves out nothing up to its own end: it is a run of appended events,
      or one reset marker. */
  ghost predicate Window(appended: seq<Event>, lastId: int, cursor: int, es: seq<Event>) {
    && Ascending(es)
    && (forall i :: 0 <= i < |es| ==> es[i].id > cursor && es[i].id <= lastId)
    && (if |es| == 1 && es[0].reset then true
        else
          && (forall i :: 0 <= i < |es| ==> es[i] in appended && !es[i].reset)
          && (forall e :: e in appended && es != [] && cursor < e.id <= es[|es| - 1].id ==> e in es))
  }

  lemma PrefixIsWindow(appended: seq<Event>, lastId: int, cursor: int, all: seq<Event>, count: nat)
    requires Ascending(all) && count <= |all|
    requires forall e :: e in all <==> e in appended && e.id > cursor
    requires forall i :: 0 <= i < |appended| ==> appended[i].id <= lastId && !appended[i].reset
    ensures Window(appended, lastId, cursor, all[..count])
  {
  }

  lemma EventsAfterIsWindow(log: EventLog, appended: seq<Event>, cursor: int, limit: nat)
    requires Keeps(log, appended)
    ensures Window(appended, log.lastId, cursor, EventsAfter(log, cursor, limit))
  {
    if ReplayWindowExpired(cursor, log.prunedThrough) {
      LatestIsGiven(log, appended);
    } else {
      var all := After(appended, cursor);
      AfterTwice(appended, log.prunedThrough, cursor);
      AfterAscends(appended, cursor);
      forall e
        ensures e in all <==> e in appended && e.id > cursor
      {
        AfterHolds(appended, cursor, e);
      }
      PrefixIsWindow(appended, log.lastId, cursor, all, if |all| > limit then limit else |all|);
      assert all[..|all|] == all;
    }
  }

  /** The first `limit` of the events appended above the cursor: whatever is left out comes after all of
      them, and then there are as many as were asked for. */
  ghost predicate FirstOf(appended: seq<Event>, cursor: int, limit: nat, es: seq<Event>) {
    && Ascending(es) && |es| <= limit
    && (forall e :: e in es ==> e in appended && e.id > cursor)
    && (forall e :: e in appended && e.id > cursor && e !in es ==> |es| == limit && Precede(es, e))
  }

  ghost predicate Precede(es: seq<Event>, e: Event) {
    forall i :: 0 <= i < |es| ==> es[i].id < e.id
  }

  /** The newest id a log knows of, pruned rows included. */
  ghost predicate NewestKnown(log: EventLog, id: int) {
    && log.prunedThrough <= id && (forall e :: e in log.events ==> e.id <= id)
    && (id == log.prunedThrough || exists e :: e in log.events && e.id == id)
  }

  /** A read whose cursor is below the pruned part gets one reset that stands for everything known; any
      other gets the first events above its cursor. */
  lemma EventsAfterExactly(log: EventLog, appended: seq<Event>, cursor: int, limit: nat)
    requires Keeps(log, appended)
    ensures var es := EventsAfter(log, cursor, limit);
            if cursor < log.prunedThrough
            then |es| == 1 && es[0].reset && NewestKnown(log, es[0].id)
            else FirstOf(appended, cursor, limit, es) && forall e :: e in es ==> !e.reset
  {
    if cursor < log.prunedThrough {
      LatestIsNewest(log, appended);
    } else {
      var all := After(appended, cursor);
      AfterTwice(appended, log.prunedThrough, cursor);
      AfterAscends(appended, cursor);
      forall e
        ensures e in all <==> e in appended && e.id > cursor
      {
        AfterHolds(appended, cursor, e);
      }
      PrefixIsFirst(appended, cursor, limit, all, EventsAfter(log, cursor, limit));
    }
  }

  lemma PrefixIsFirst(appended: seq<Event>, cursor: int, limit: nat, all: seq<Event>, es: seq<Event>)
    requires Ascending(all) && forall e :: e in all <==> e in appended && e.id > cursor
    requires es == if |all| > limit then all[..limit] else all
    ensures FirstOf(appended, cursor, limit, es)
  {
    forall e | e in appended && e.id > cursor && e !in es
      ensures |es| == limit && Precede(es, e)
    {
      var k :| 0 <= k < |all| && all[k] == e;
      assert forall i :: 0 <= i < |es| ==> es[i] == all[i] && es[i] != e;
    }
  }

  lemma LatestIsNewest(log: EventLog, appended: seq<Event>)
    requires Keeps(log, appended)
    ensures NewestKnown(log, LatestId(log))
  {
    AfterAscends(appended, log.prunedThrough);
    forall e | e in log.events
      ensures log.prunedThrough < e.id <= LatestId(log)
    {
      AfterHolds(appended, log.prunedThrough, e);
    }
  }

  // ---------------------------------------------------------------- nothing is left waiting

  /** What has been appended above a cursor. */
  ghost function Waiting(appended: seq<Event>, cursor: int): set<Event> {
    set e | e in appended && e.id > cursor
  }

  /** Every event appended by then is at or below the last one of the answer, or below the cursor. */
  ghost predicate ReachesAll(appended: seq<Event>, cursor: int, es: seq<Event>) {
    forall e :: e in appended && e.id > cursor ==> es != [] && e.id <= es[|es| - 1].id
  }

  lemma {:induction false} DistinctEvents(es: seq<Event>)
    requires Ascending(es)
    ensures |(set e | e in es)| == |es|
  {
    if es != [] {
      var front, last := es[..|es| - 1], es[|es| - 1];
      DistinctEvents(front);
      assert last !in front;
      assert (set e | e in es) == (set e | e in front) + {last};
    }
  }

  /** With no more waiting than fit into the answer, the answer reaches all of it. */
  lemma FewAreReached(log: EventLog, appended: seq<Event>, cursor: int, limit: nat)
    requires Keeps(log, appended) && |Waiting(appended, cursor)| <= limit
    ensures ReachesAll(appended, cursor, EventsAfter(log, cursor, limit))
  {
    var es := EventsAfter(log, cursor, limit);
    EventsAfterExactly(log, appended, cursor, limit);
    forall e | e in appended && e.id > cursor
      ensures es != [] && e.id <= es[|es| - 1].id
    {
      if cursor < log.prunedThrough {
        AfterHolds(appended, log.prunedThrough, e);
      } else {
        FewAreAll(appended, cursor, limit, es, e);
      }
    }
  }

  lemma FewAreAll(appended: seq<Event>, cursor: int, limit: nat, es: seq<Event>, e: Event)
    requires FirstOf(appended, cursor, limit, es) && |Waiting(appended, cursor)| <= limit
    requires e in appended && e.id > cursor
    ensures e in es
  {
    if e !in es {
      var read := set x | x in es;
      DistinctEvents(es);
      assert read < Waiting(appended, cursor) by {
        assert e in Waiting(appended, cursor) && e !in read;
      }
      SmallerSet(read, Waiting(appended, cursor), e);
    }
  }

  lemma SmallerSet(part: set<Event>, whole: set<Event>, e: Event)
    requires part <= whole && e in whole && e !in part
    ensures |part| < |whole|
  {
    assert part <= whole - {e};
    SubsetIsSmaller(part, whole - {e});
  }

  lemma {:induction false} SubsetIsSmaller(part: set<Event>, whole: set<Event>)
    requires part <= whole
    ensures |part| <= |whole|
  {
    if part != {} {
      var e :| e in part;
      SubsetIsSmaller(part - {e}, whole - {e});
    }
  }

  lemma LatestIsGiven(log: EventLog, appended: seq<Event>)
    requires Keeps(log, appended)
    ensures log.prunedThrough <= LatestId(log) <= log.lastId
  {
    if log.events != [] {
      AfterHolds(appended, log.prunedThrough, log.events[|log.events| - 1]);
    }
  }

  /** Rows appended later do not spoil a window read earlier. */
  lemma WindowStays(appended: seq<Event>, lastId: int, cursor: int, es: seq<Event>, e: Event)
    requires Window(appended, lastId, cursor, es) && e.id > lastId
    ensures Window(appended + [e], e.id, cursor, es)
  {
  }

  // ---------------------------------------------------------------- what a client has been told

  /** An event sent to a client whose cursor stood at `after`. */
  datatype Delivery = Delivery(after: int, event: Event)

  function CursorOf(initial: int, delivered: seq<Delivery>): int {
    if delivered == [] then initial else delivered[|delivered| - 1].event.id
  }

  ghost predicate ToldBy(d: Delivery, e: Event) {
    d.event == e || (d.event.reset && d.after < e.id <= d.event.id)
  }

  /** The event was delivered, or it lies in the stretch that a delivered reset stands for. */
  ghost predicate Told(delivered: seq<Delivery>, e: Event) {
    exists d :: d in delivered && ToldBy(d, e)
  }

  predicate Genuine(appended: seq<Event>, lastId: int, initial: int, d: Delivery) {
    initial <= d.after < d.event.id <= lastId && (d.event.reset || d.event in appended)
  }

  /** Each delivery starts where the one before it ended. */
  ghost predicate Linked(initial: int, delivered: seq<Delivery>) {
    && (delivered != [] ==> delivered[0].after == initial)
    && forall i, j :: 0 <= i && j == i + 1 < |delivered| ==> delivered[j].after == delivered[i].event.id
  }

  ghost predicate Rising(delivered: seq<Delivery>) {
    forall i, j :: 0 <= i < j < |delivered| ==> delivered[i].event.id < delivered[j].event.id
  }

  /** Ids rise, nothing is made up, and everything appended between the two cursors was told. */
  ghost predicate NoSilentGap(appended: seq<Event>, lastId: int, initial: int, delivered: seq<Delivery>) {
    && Rising(delivered) && Linked(initial, delivered)
    && (forall d :: d in delivered ==> Genuine(appended, lastId, initial, d))
    && (forall e {:trigger Told(delivered, e)} :: e in appended && initial < e.id <= CursorOf(initial, delivered) ==> Told(delivered, e))
  }

  lemma CursorBounded(appended: seq<Event>, lastId: int, initial: int, delivered: seq<Delivery>)
    requires NoSilentGap(appended, lastId, initial, delivered)
    ensures delivered != [] ==> initial < CursorOf(initial, delivered) <= lastId
  {
    if delivered != [] {
      assert Genuine(appended, lastId, initial, delivered[|delivered| - 1]);
    }
  }

  lemma GapStays(appended: seq<Event>, lastId: int, initial: int, delivered: seq<Delivery>, e: Event)
    requires NoSilentGap(appended, lastId, initial, delivered) && e.id > lastId
    ensures NoSilentGap(appended + [e], e.id, initial, delivered)
  {
    CursorBounded(appended, lastId, initial, delivered);
    forall d | d in delivered
      ensures Genuine(appended + [e], e.id, initial, d)
    {
      assert Genuine(appended, lastId, initial, d);
    }
  }

  lemma NewlyTold(appended: seq<Event>, lastId: int, from: int, es: seq<Event>, i: nat, cursor: int, e: Event)
    requires Window(appended, lastId, from, es) && from <= cursor && i < |es|
    requires forall k :: 0 <= k < i ==> es[k].id <= cursor
    requires e in appended && cursor < e.id <= es[i].id
    ensures ToldBy(Delivery(cursor, es[i]), e)
  {
  }

  /** Delivering the next event of a window, the ones before it being at or below the cursor. */
  lemma DeliverNext(appended: seq<Event>, lastId: int, from: int, es: seq<Event>, i: nat, initial: int, delivered: seq<Delivery>)
    requires NoSilentGap(appended, lastId, initial, delivered) && Window(appended, lastId, from, es)
    requires from <= CursorOf(initial, delivered) && i < |es| && es[i].id > CursorOf(initial, delivered)
    requires forall k :: 0 <= k < i ==> es[k].id <= CursorOf(initial, delivered)
    ensures NoSilentGap(appended, lastId, initial, delivered + [Delivery(CursorOf(initial, delivered), es[i])])
  {
    var cursor := CursorOf(initial, delivered);
    var d := Delivery(cursor, es[i]);
    var more := delivered + [d];
    CursorBounded(appended, lastId, initial, delivered);
    forall e | e in appended && initial < e.id <= es[i].id
      ensures Told(more, e)
    {
      if e.id <= cursor {
        assert Told(delivered, e);
        var earlier :| earlier in delivered && ToldBy(earlier, e);
        assert earlier in more;
      } else {
        NewlyTold(appended, lastId, from, es, i, cursor, e);
        assert d in more;
      }
    }
  }
}
